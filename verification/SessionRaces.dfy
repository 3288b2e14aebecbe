/**
 * Logins that race with password changes (internal/store/users.go): Authenticate compares the password against
 * the hash it selected and inserts its session in a later statement, and SetPassword updates the hash and wipes
 * the sessions in two.
 */
module SessionRaces {
  import opened Common
  import opened Credentials
  import opened Sessions

  /** Matched: the password was accepted for this user and the session is not inserted yet. */
  datatype Pc = Idle | Matched(user: nat)

  datatype State = State(web: Web, logins: map<nat, Pc>)

  datatype Step =
    | Select(tid: nat, username: string, password: string, fault: bool)
    | Open(tid: nat, token: string, now: int, fault: bool)
    | Other(op: Op)

  function PcOf(s: State, tid: nat): Pc {
    if tid in s.logins then s.logins[tid] else Idle
  }

  /** The user an idle login's SELECT finds and whose hash accepts its password. */
  ghost function Found(c: Crypto, s: State, step: Step): Option<nat> {
    if step.Select? && PcOf(s, step.tid) == Idle then LoginUser(c, s.web, step.username, step.password, step.fault)
    else None
  }

  /** A step that does not fit the state changes nothing. */
  ghost function Take(c: Crypto, s: State, step: Step): State {
    match step
    case Select(tid, _, _, _) =>
      var u := Found(c, s, step);
      if u.None? then s else s.(logins := s.logins[tid := Matched(u.value)])
    case Open(tid, token, now, fault) =>
      var pc := PcOf(s, tid);
      if pc == Idle then s
      else State(Apply(c, s.web, Insert(pc.user, token, now, fault)), s.logins[tid := Idle])
    case Other(op) => if op.Insert? then s else s.(web := Apply(c, s.web, op))
  }

  ghost function Race(c: Crypto, s: State, steps: seq<Step>): State {
    if steps == [] then s else Take(c, Race(c, s, steps[..|steps| - 1]), steps[|steps| - 1])
  }

  lemma RunSnoc(c: Crypto, s0: State, steps: seq<Step>, last: Step)
    ensures Race(c, s0, steps + [last]) == Take(c, Race(c, s0, steps), last)
  {
    assert (steps + [last])[..|steps|] == steps;
  }

  lemma {:induction false} RaceKeepsOk(c: Crypto, s: State, steps: seq<Step>)
    requires Ok(s.web)
    ensures Ok(Race(c, s, steps).web)
  {
    if steps != [] {
      var front, last := Race(c, s, steps[..|steps| - 1]), steps[|steps| - 1];
      RaceKeepsOk(c, s, steps[..|steps| - 1]);
      if last.Open? && PcOf(front, last.tid).Matched? {
        ApplyKeepsOk(c, front.web, Insert(PcOf(front, last.tid).user, last.token, last.now, last.fault));
      } else if last.Other? {
        ApplyKeepsOk(c, front.web, last.op);
      }
    }
  }

  // ---- every session was opened by a login that matched ----

  /** Login tid matched user u at step j. */
  ghost predicate MatchedAt(c: Crypto, s0: State, steps: seq<Step>, j: nat, tid: nat, u: nat) {
    j < |steps| && steps[j].Select? && steps[j].tid == tid && Found(c, Race(c, s0, steps[..j]), steps[j]) == Some(u)
  }

  ghost predicate HeldUntil(c: Crypto, s0: State, steps: seq<Step>, j: nat, k: nat, tid: nat, u: nat) {
    && k <= |steps|
    && forall i {:trigger steps[..i]} :: j < i <= k ==> PcOf(Race(c, s0, steps[..i]), tid) == Matched(u)
  }

  /** One and the same login matched u at step j and inserted a session under the key at step k. */
  ghost predicate OpenedBy(c: Crypto, s0: State, steps: seq<Step>, j: nat, k: nat, key: string, u: nat) {
    && j < k < |steps| && steps[k].Open? && c.sha(steps[k].token) == key
    && MatchedAt(c, s0, steps, j, steps[k].tid, u) && HeldUntil(c, s0, steps, j, k, steps[k].tid, u)
  }

  ghost predicate WaitingSince(c: Crypto, s0: State, steps: seq<Step>, j: nat, tid: nat, u: nat) {
    MatchedAt(c, s0, steps, j, tid, u) && HeldUntil(c, s0, steps, j, |steps|, tid, u)
  }

  ghost predicate LoginInv(c: Crypto, s0: State, steps: seq<Step>, tid: nat) {
    var pc := PcOf(Race(c, s0, steps), tid);
    pc.Matched? ==> exists j: nat :: WaitingSince(c, s0, steps, j, tid, pc.user)
  }

  ghost predicate SessionInv(c: Crypto, s0: State, steps: seq<Step>, key: string) {
    var w := Race(c, s0, steps).web;
    key in w.sessions ==> exists j: nat, k: nat :: OpenedBy(c, s0, steps, j, k, key, w.sessions[key].user)
  }

  lemma MatchedStays(c: Crypto, s0: State, steps: seq<Step>, last: Step, j: nat, k: nat, tid: nat, u: nat)
    requires MatchedAt(c, s0, steps, j, tid, u) && HeldUntil(c, s0, steps, j, k, tid, u)
    ensures MatchedAt(c, s0, steps + [last], j, tid, u) && HeldUntil(c, s0, steps + [last], j, k, tid, u)
  {
    PrefixSame(steps, last, j);
    forall i | j < i <= k ensures PcOf(Race(c, s0, (steps + [last])[..i]), tid) == Matched(u) {
      PrefixSame(steps, last, i);
    }
  }

  lemma WaitingStays(c: Crypto, s0: State, steps: seq<Step>, last: Step, j: nat, tid: nat, u: nat)
    requires WaitingSince(c, s0, steps, j, tid, u) && PcOf(Race(c, s0, steps + [last]), tid) == Matched(u)
    ensures WaitingSince(c, s0, steps + [last], j, tid, u)
  {
    var all := steps + [last];
    MatchedStays(c, s0, steps, last, j, |steps|, tid, u);
    forall i | j < i <= |all| ensures PcOf(Race(c, s0, all[..i]), tid) == Matched(u) {
      if i == |all| {
        assert all[..i] == all;
      }
    }
  }

  lemma WaitingStarts(c: Crypto, s0: State, steps: seq<Step>, last: Step, u: nat)
    requires last.Select? && Found(c, Race(c, s0, steps), last) == Some(u)
    ensures WaitingSince(c, s0, steps + [last], |steps|, last.tid, u)
  {
    var all := steps + [last];
    RunSnoc(c, s0, steps, last);
    assert all[..|steps|] == steps && all[|steps|] == last;
    forall i | |steps| < i <= |all| ensures PcOf(Race(c, s0, all[..i]), last.tid) == Matched(u) {
      assert all[..i] == all;
    }
  }

  lemma LoginStep(c: Crypto, s0: State, steps: seq<Step>, last: Step, tid: nat)
    requires LoginInv(c, s0, steps, tid)
    ensures LoginInv(c, s0, steps + [last], tid)
  {
    var s := Race(c, s0, steps);
    RunSnoc(c, s0, steps, last);
    var pc := PcOf(Take(c, s, last), tid);
    if pc.Matched? {
      if PcOf(s, tid) == pc {
        var j: nat :| WaitingSince(c, s0, steps, j, tid, pc.user);
        WaitingStays(c, s0, steps, last, j, tid, pc.user);
      } else {
        WaitingStarts(c, s0, steps, last, pc.user);
      }
    }
  }

  lemma SessionStep(c: Crypto, s0: State, steps: seq<Step>, last: Step, key: string)
    requires SessionInv(c, s0, steps, key) && (last.Open? ==> LoginInv(c, s0, steps, last.tid))
    ensures SessionInv(c, s0, steps + [last], key)
  {
    var s, all := Race(c, s0, steps), steps + [last];
    RunSnoc(c, s0, steps, last);
    var s' := Take(c, s, last);
    if key in s'.web.sessions {
      var u := s'.web.sessions[key].user;
      if key in s.web.sessions && s.web.sessions[key].user == u {
        var j: nat, k: nat :| OpenedBy(c, s0, steps, j, k, key, u);
        MatchedStays(c, s0, steps, last, j, k, steps[k].tid, u);
        assert OpenedBy(c, s0, all, j, k, key, u);
      } else {
        assert last.Open? && PcOf(s, last.tid) == Matched(u) && c.sha(last.token) == key;
        var j: nat :| WaitingSince(c, s0, steps, j, last.tid, u);
        MatchedStays(c, s0, steps, last, j, |steps|, last.tid, u);
        assert all[|steps|] == last && OpenedBy(c, s0, all, j, |steps|, key, u);
      }
    }
  }

  ghost predicate Untouched(s: State) {
    s.web.sessions == map[] && forall t: nat :: PcOf(s, t) == Idle
  }

  lemma {:induction false} Invariants(c: Crypto, s0: State, steps: seq<Step>)
    requires Untouched(s0)
    ensures forall tid :: LoginInv(c, s0, steps, tid)
    ensures forall key :: SessionInv(c, s0, steps, key)
    decreases |steps|
  {
    if steps != [] {
      var front, last := steps[..|steps| - 1], steps[|steps| - 1];
      assert steps == front + [last];
      Invariants(c, s0, front);
      forall tid ensures LoginInv(c, s0, steps, tid) {
        LoginStep(c, s0, front, last, tid);
      }
      forall key ensures SessionInv(c, s0, steps, key) {
        SessionStep(c, s0, front, last, key);
      }
    }
  }

  /**
   * In every interleaving, a token that resolves to u was inserted by a login whose password the stored hash of u
   * accepted when it selected it, and which was waiting to insert from then on.
   */
  lemma SessionsWereMatched(c: Crypto, s0: State, steps: seq<Step>, token: string, u: nat, now: int)
    requires Untouched(s0) && Resolve(c, Race(c, s0, steps).web, token, now) == Some(u)
    ensures exists j: nat, k: nat :: OpenedBy(c, s0, steps, j, k, c.sha(TrimSpace(token)), u)
  {
    Invariants(c, s0, steps);
    assert SessionInv(c, s0, steps, c.sha(TrimSpace(token)));
  }

  // ---- when an old password still opens a session ----

  /** Logins of u try one password only, and the stored hash refuses it. */
  ghost predicate OnlyRefused(c: Crypto, s0: State, steps: seq<Step>, u: nat, stale: string) {
    forall i {:trigger steps[i]} :: 0 <= i < |steps| && steps[i].Select? ==>
      var users := Race(c, s0, steps[..i]).web.users;
      FindUser(users, TrimSpace(steps[i].username)) == Some(u) ==>
        steps[i].password == stale && !c.matches(users[u].hash, stale)
  }

  /** No session of u, and none about to be inserted. */
  ghost predicate ShutOut(s: State, u: nat) {
    && (forall k :: k in s.web.sessions ==> s.web.sessions[k].user != u)
    && forall t: nat :: PcOf(s, t) != Matched(u)
  }

  lemma ShutOutStep(c: Crypto, s: State, step: Step, u: nat)
    requires ShutOut(s, u) && Found(c, s, step) != Some(u)
    ensures ShutOut(Take(c, s, step), u)
  {
    var s' := Take(c, s, step);
    forall t: nat ensures PcOf(s', t) != Matched(u) {
      assert PcOf(s, t) != Matched(u);
    }
  }

  lemma {:induction false} ShutOutRun(c: Crypto, s0: State, steps: seq<Step>, u: nat, stale: string)
    requires ShutOut(s0, u) && OnlyRefused(c, s0, steps, u, stale)
    ensures ShutOut(Race(c, s0, steps), u)
    decreases |steps|
  {
    if steps != [] {
      var front, last := steps[..|steps| - 1], steps[|steps| - 1];
      forall i | 0 <= i < |front| && front[i].Select?
        ensures var users := Race(c, s0, front[..i]).web.users;
          FindUser(users, TrimSpace(front[i].username)) == Some(u) ==>
            front[i].password == stale && !c.matches(users[u].hash, stale)
      {
        assert front[..i] == steps[..i] && front[i] == steps[i];
      }
      ShutOutRun(c, s0, front, u, stale);
      assert Found(c, Race(c, s0, front), last) != Some(u);
      ShutOutStep(c, Race(c, s0, front), last, u);
    }
  }

  ghost predicate GetsIn(c: Crypto, s0: State, steps: seq<Step>, u: nat, stale: string, token: string, now: int) {
    OnlyRefused(c, s0, steps, u, stale) && Resolve(c, Race(c, s0, steps).web, token, now) == Some(u)
  }

  /**
   * Once the sessions of u were wiped, and while only a password that its hash refuses is tried, a session of u
   * opens again if and only if a login that matched u before has not inserted its session yet.
   */
  lemma OldPasswordOpensExactly(c: Crypto, s0: State, u: nat, stale: string, token: string)
    requires u in s0.web.users && forall k :: k in s0.web.sessions ==> s0.web.sessions[k].user != u
    requires token != "" && Trimmed(token, IsSpace) && c.sha(token) !in s0.web.sessions
    ensures (exists steps, now :: GetsIn(c, s0, steps, u, stale, token, now)) <==>
            (exists t: nat :: PcOf(s0, t) == Matched(u))
  {
    if t: nat :| PcOf(s0, t) == Matched(u) {
      var steps := [Open(t, token, 0, false)];
      assert steps[..0] == [] && Race(c, s0, steps) == Take(c, s0, steps[0]);
      TrimSpec(token, IsSpace);
      assert GetsIn(c, s0, steps, u, stale, token, 0);
    } else {
      forall steps, now ensures !GetsIn(c, s0, steps, u, stale, token, now) {
        if GetsIn(c, s0, steps, u, stale, token, now) {
          ShutOutRun(c, s0, steps, u, stale);
        }
      }
    }
  }

  /** The two statements of SetPassword leave no session of u and do not stop such a login. */
  lemma ChangeLeavesWaiting(c: Crypto, s: State, u: nat, password: string, hash: Option<string>, t: nat)
    requires PasswordOutcome(s.web, u, password, hash, false) == Done
    ensures var s' := Take(c, Take(c, s, Other(WriteHash(u, password, hash, false))), Other(Wipe(u, false)));
      && s'.web.users == s.web.users[u := s.web.users[u].(hash := hash.value)]
      && (forall k :: k in s'.web.sessions ==> s'.web.sessions[k].user != u)
      && PcOf(s', t) == PcOf(s, t)
  {
  }

  /** A deleted user gets no session any more: the foreign key refuses the late insert. */
  lemma {:induction false} DeletedStaysOut(c: Crypto, s0: State, steps: seq<Step>, u: nat, token: string, now: int)
    requires Ok(s0.web) && u !in s0.web.users && u < s0.web.nextId
    ensures Resolve(c, Race(c, s0, steps).web, token, now) != Some(u)
  {
    GoneStaysGone(c, s0, steps, u);
  }

  lemma {:induction false} GoneStaysGone(c: Crypto, s0: State, steps: seq<Step>, u: nat)
    requires u !in s0.web.users && u < s0.web.nextId
    ensures u !in Race(c, s0, steps).web.users && u < Race(c, s0, steps).web.nextId
  {
    if steps != [] {
      GoneStaysGone(c, s0, steps[..|steps| - 1], u);
    }
  }
}
