/**
 * How stale the credential cache of internal/store/pull_users.go can be when logins and account changes
 * interleave: a login looks into the cache, queries the table and fills the cache in three separate steps, and
 * an account change updates the table and wipes the cache in two.
 */
module PullStaleness {
  import opened Common
  import opened Credentials
  import opened PullAuth

  datatype Pc =
    | Idle
    | Looking(name: string, password: string)
    | Filling(name: string, password: string)

  /** `unwiped` counts changes whose statement has run and whose wipe of the cache has not. */
  datatype State = State(table: Table, cache: map<string, Entry>, logins: map<nat, Pc>, unwiped: nat, clock: int)

  datatype Step =
    | Look(tid: nat, username: string, password: string, now: int)
    | Query(tid: nat, fault: bool, now: int)
    | Fill(tid: nat, now: int)
    | Update(m: Mutation, now: int)
    | Wipe(now: int)

  function PcOf(s: State, tid: nat): Pc {
    if tid in s.logins then s.logins[tid] else Idle
  }

  function Goto(s: State, tid: nat, pc: Pc): State {
    s.(logins := s.logins[tid := pc])
  }

  /** A step that does not fit the state changes nothing but the clock. */
  function Apply(c: Crypto, s: State, step: Step): State {
    Act(c, s, step).(clock := step.now)
  }

  function Act(c: Crypto, s: State, step: Step): State {
    match step
    case Look(tid, username, password, now) =>
      if PcOf(s, tid) != Idle || CacheHit(s.cache, c, TrimSpace(username), password, now) then s
      else Goto(s, tid, Looking(TrimSpace(username), password))
    case Query(tid, fault, now) =>
      var pc := PcOf(s, tid);
      if !pc.Looking? then s
      else if !fault && Accepts(s.table, c, pc.name, pc.password) then Goto(s, tid, Filling(pc.name, pc.password))
      else Goto(s, tid, Idle)
    case Fill(tid, now) =>
      var pc := PcOf(s, tid);
      if !pc.Filling? then s
      else Goto(s, tid, Idle).(cache := s.cache[pc.name := Filled(c, pc.password, now)])
    case Update(m, _) =>
      s.(table := Mutate(s.table, m), unwiped := s.unwiped + if Outcome(s.table, m) == Done && !m.Create? then 1 else 0)
    case Wipe(_) =>
      if s.unwiped == 0 then s else s.(cache := map[], unwiped := s.unwiped - 1)
  }

  function Run(c: Crypto, s: State, steps: seq<Step>): State {
    if steps == [] then s else Apply(c, Run(c, s, steps[..|steps| - 1]), steps[|steps| - 1])
  }

  /** The clock never goes back. */
  predicate Timely(s: State, steps: seq<Step>) {
    steps == [] ||
    (Timely(s, steps[..|steps| - 1]) &&
      steps[|steps| - 1].now >= if |steps| == 1 then s.clock else steps[|steps| - 2].now)
  }

  /** Nothing is cached, and no login is between its query and its fill; a new store and a lone wipe leave this. */
  ghost predicate Settled(s: State) {
    s.cache == map[] && forall t: nat :: !PcOf(s, t).Filling?
  }

  /** Step j is the query of login `tid`, and it found an enabled account matching the password. */
  ghost predicate VerifiedAt(c: Crypto, s0: State, steps: seq<Step>, j: nat, tid: nat, name: string, password: string) {
    && j < |steps| && steps[j].Query? && steps[j].tid == tid && !steps[j].fault
    && PcOf(Run(c, s0, steps[..j]), tid) == Looking(name, password)
    && Accepts(Run(c, s0, steps[..j]).table, c, name, password)
  }

  /** Login `tid` stands between its query and its fill all the way from after step j to before step k. */
  ghost predicate HeldUntil(c: Crypto, s0: State, steps: seq<Step>, j: nat, k: nat, tid: nat, name: string, password: string) {
    && k <= |steps|
    && forall i {:trigger steps[..i]} :: j < i <= k ==> PcOf(Run(c, s0, steps[..i]), tid) == Filling(name, password)
  }

  /** One and the same login verified the credentials at step j and filled the cache at step k. */
  ghost predicate FilledBy(c: Crypto, s0: State, steps: seq<Step>, j: nat, k: nat, name: string, password: string) {
    && j < k < |steps| && steps[k].Fill? && steps[j].now <= steps[k].now
    && VerifiedAt(c, s0, steps, j, steps[k].tid, name, password)
    && HeldUntil(c, s0, steps, j, k, steps[k].tid, name, password)
  }

  /** The login verified at step j and has not filled the cache yet. */
  ghost predicate PendingSince(c: Crypto, s0: State, steps: seq<Step>, j: nat, tid: nat, name: string, password: string) {
    && VerifiedAt(c, s0, steps, j, tid, name, password)
    && HeldUntil(c, s0, steps, j, |steps|, tid, name, password)
    && steps[j].now <= Run(c, s0, steps).clock
  }

  ghost predicate LoginInv(c: Crypto, s0: State, steps: seq<Step>, tid: nat) {
    var pc := PcOf(Run(c, s0, steps), tid);
    pc.Filling? ==> exists j: nat :: PendingSince(c, s0, steps, j, tid, pc.name, pc.password)
  }

  ghost predicate EntryInv(c: Crypto, s0: State, steps: seq<Step>, name: string) {
    var s := Run(c, s0, steps);
    name in s.cache ==>
      exists j: nat, k: nat, password ::
        FilledBy(c, s0, steps, j, k, name, password) && s.cache[name] == Filled(c, password, steps[k].now)
  }

  lemma VerifiedStays(
    c: Crypto, s0: State, steps: seq<Step>, last: Step, j: nat, tid: nat, name: string, password: string)
    requires VerifiedAt(c, s0, steps, j, tid, name, password)
    ensures VerifiedAt(c, s0, steps + [last], j, tid, name, password)
  {
    assert (steps + [last])[..j] == steps[..j] && (steps + [last])[j] == steps[j];
  }

  lemma HeldStays(
    c: Crypto, s0: State, steps: seq<Step>, last: Step, j: nat, k: nat, tid: nat, name: string, password: string)
    requires HeldUntil(c, s0, steps, j, k, tid, name, password)
    ensures HeldUntil(c, s0, steps + [last], j, k, tid, name, password)
  {
    forall i | j < i <= k ensures PcOf(Run(c, s0, (steps + [last])[..i]), tid) == Filling(name, password) {
      assert (steps + [last])[..i] == steps[..i];
    }
  }

  lemma FilledStays(c: Crypto, s0: State, steps: seq<Step>, last: Step, j: nat, k: nat, name: string, password: string)
    requires FilledBy(c, s0, steps, j, k, name, password)
    ensures FilledBy(c, s0, steps + [last], j, k, name, password)
  {
    VerifiedStays(c, s0, steps, last, j, steps[k].tid, name, password);
    HeldStays(c, s0, steps, last, j, k, steps[k].tid, name, password);
  }

  lemma RunSnoc(c: Crypto, s0: State, steps: seq<Step>, last: Step)
    ensures Run(c, s0, steps + [last]) == Apply(c, Run(c, s0, steps), last)
  {
    assert (steps + [last])[..|steps|] == steps;
  }

  lemma {:induction false} ClockIsLast(c: Crypto, s0: State, steps: seq<Step>)
    ensures Run(c, s0, steps).clock == if steps == [] then s0.clock else steps[|steps| - 1].now
  {
  }

  lemma TimelySnoc(c: Crypto, s0: State, steps: seq<Step>, last: Step)
    requires Timely(s0, steps + [last])
    ensures Timely(s0, steps) && Run(c, s0, steps).clock <= last.now
  {
    assert (steps + [last])[..|steps|] == steps;
    ClockIsLast(c, s0, steps);
    if steps != [] {
      assert (steps + [last])[|steps| - 1] == steps[|steps| - 1];
    }
  }

  /** A login still before its fill has one more state behind it. */
  lemma PendingStays(c: Crypto, s0: State, steps: seq<Step>, last: Step, j: nat, tid: nat, name: string, password: string)
    requires PendingSince(c, s0, steps, j, tid, name, password) && Run(c, s0, steps).clock <= last.now
    requires PcOf(Run(c, s0, steps + [last]), tid) == Filling(name, password)
    ensures PendingSince(c, s0, steps + [last], j, tid, name, password)
  {
    var all := steps + [last];
    VerifiedStays(c, s0, steps, last, j, tid, name, password);
    HeldStays(c, s0, steps, last, j, |steps|, tid, name, password);
    RunSnoc(c, s0, steps, last);
    assert all[j] == steps[j];
    forall i | j < i <= |all| ensures PcOf(Run(c, s0, all[..i]), tid) == Filling(name, password) {
      if i == |all| {
        assert all[..i] == all;
      }
    }
  }

  /** A query that finds a matching row starts the wait for the fill. */
  lemma PendingStarts(c: Crypto, s0: State, steps: seq<Step>, last: Step, name: string, password: string)
    requires last.Query? && !last.fault && PcOf(Run(c, s0, steps), last.tid) == Looking(name, password)
    requires Accepts(Run(c, s0, steps).table, c, name, password)
    ensures PendingSince(c, s0, steps + [last], |steps|, last.tid, name, password)
  {
    var all := steps + [last];
    RunSnoc(c, s0, steps, last);
    assert all[..|steps|] == steps && all[|steps|] == last;
    forall i | |steps| < i <= |all| ensures PcOf(Run(c, s0, all[..i]), last.tid) == Filling(name, password) {
      assert all[..i] == all;
    }
  }

  lemma LoginStep(c: Crypto, s0: State, steps: seq<Step>, last: Step, tid: nat)
    requires LoginInv(c, s0, steps, tid) && Run(c, s0, steps).clock <= last.now
    ensures LoginInv(c, s0, steps + [last], tid)
  {
    var s := Run(c, s0, steps);
    RunSnoc(c, s0, steps, last);
    var pc := PcOf(Apply(c, s, last), tid);
    if pc.Filling? {
      if PcOf(s, tid) == pc {
        var j: nat :| PendingSince(c, s0, steps, j, tid, pc.name, pc.password);
        PendingStays(c, s0, steps, last, j, tid, pc.name, pc.password);
      } else {
        assert last.Query? && last.tid == tid;
        PendingStarts(c, s0, steps, last, pc.name, pc.password);
      }
    }
  }

  lemma FillStep(c: Crypto, s0: State, steps: seq<Step>, last: Step, j: nat, name: string, password: string)
    requires last.Fill? && PendingSince(c, s0, steps, j, last.tid, name, password)
    requires Run(c, s0, steps).clock <= last.now
    ensures FilledBy(c, s0, steps + [last], j, |steps|, name, password)
  {
    VerifiedStays(c, s0, steps, last, j, last.tid, name, password);
    HeldStays(c, s0, steps, last, j, |steps|, last.tid, name, password);
    assert (steps + [last])[j] == steps[j] && (steps + [last])[|steps|] == last;
  }

  lemma EntryStep(c: Crypto, s0: State, steps: seq<Step>, last: Step, name: string)
    requires EntryInv(c, s0, steps, name) && Run(c, s0, steps).clock <= last.now
    requires last.Fill? ==> LoginInv(c, s0, steps, last.tid)
    ensures EntryInv(c, s0, steps + [last], name)
  {
    var s := Run(c, s0, steps);
    var all := steps + [last];
    RunSnoc(c, s0, steps, last);
    var s' := Apply(c, s, last);
    if name in s'.cache {
      if last.Fill? && PcOf(s, last.tid).Filling? && PcOf(s, last.tid).name == name {
        var password := PcOf(s, last.tid).password;
        var j: nat :| PendingSince(c, s0, steps, j, last.tid, name, password);
        FillStep(c, s0, steps, last, j, name, password);
        assert all[|steps|] == last;
      } else {
        assert name in s.cache && s'.cache[name] == s.cache[name];
        var j: nat, k: nat, password :|
          FilledBy(c, s0, steps, j, k, name, password) && s.cache[name] == Filled(c, password, steps[k].now);
        FilledStays(c, s0, steps, last, j, k, name, password);
        assert all[k] == steps[k];
      }
    }
  }

  lemma {:induction false} Invariants(c: Crypto, s0: State, steps: seq<Step>)
    requires Settled(s0) && Timely(s0, steps)
    ensures forall tid :: LoginInv(c, s0, steps, tid)
    ensures forall name :: EntryInv(c, s0, steps, name)
    decreases |steps|
  {
    if steps != [] {
      var front, last := steps[..|steps| - 1], steps[|steps| - 1];
      assert steps == front + [last];
      TimelySnoc(c, s0, front, last);
      Invariants(c, s0, front);
      forall tid ensures LoginInv(c, s0, steps, tid) {
        LoginStep(c, s0, front, last, tid);
      }
      forall name ensures EntryInv(c, s0, steps, name) {
        EntryStep(c, s0, front, last, name);
      }
    }
  }

  /**
   * The staleness bound: if a login is accepted from the cache at `now`, then one earlier login found the same
   * credentials on an enabled row when it queried at step j, was between query and fill ever since, and filled
   * the cache at step k less than 30 s ago. So the query is younger than 30 s plus what that login took.
   */
  lemma StaleBound(c: Crypto, s0: State, steps: seq<Step>, name: string, password: string, now: int)
    requires CollisionFree(c) && Settled(s0) && Timely(s0, steps)
    requires CacheHit(Run(c, s0, steps).cache, c, name, password, now)
    ensures exists j: nat, k: nat :: FilledBy(c, s0, steps, j, k, name, password) && now < steps[k].now + 30_000_000_000
  {
    Invariants(c, s0, steps);
    var s := Run(c, s0, steps);
    assert EntryInv(c, s0, steps, name);
    var j: nat, k: nat, q :| FilledBy(c, s0, steps, j, k, name, q) && s.cache[name] == Filled(c, q, steps[k].now);
    assert q == password;
  }

  /** Every login of the run fills the cache at most d after its query. */
  ghost predicate Prompt(c: Crypto, s0: State, steps: seq<Step>, d: int) {
    forall j: nat, k: nat, name, password :: FilledBy(c, s0, steps, j, k, name, password) ==>
      steps[k].now - steps[j].now <= d
  }

  /** So where logins take at most d, no accept rests on a look at the table older than 30 s + d. */
  lemma StaleWithin(c: Crypto, s0: State, steps: seq<Step>, name: string, password: string, now: int, d: int)
    requires CollisionFree(c) && Settled(s0) && Timely(s0, steps) && Prompt(c, s0, steps, d)
    requires CacheHit(Run(c, s0, steps).cache, c, name, password, now)
    ensures exists j: nat, tid :: VerifiedAt(c, s0, steps, j, tid, name, password) && now - 30_000_000_000 - d < steps[j].now
  {
    StaleBound(c, s0, steps, name, password, now);
    var j: nat, k: nat :| FilledBy(c, s0, steps, j, k, name, password) && now < steps[k].now + 30_000_000_000;
    assert VerifiedAt(c, s0, steps, j, steps[k].tid, name, password);
  }

  /** A login about to be accepted was matched by an enabled row at its own query. */
  lemma FilledIsVerified(c: Crypto, s0: State, steps: seq<Step>, tid: nat)
    requires Settled(s0) && Timely(s0, steps) && PcOf(Run(c, s0, steps), tid).Filling?
    ensures var pc := PcOf(Run(c, s0, steps), tid);
      exists j: nat :: PendingSince(c, s0, steps, j, tid, pc.name, pc.password)
  {
    Invariants(c, s0, steps);
    assert LoginInv(c, s0, steps, tid);
  }

  // ---- when revoked credentials get in again ----

  /** The credentials are neither cached beyond `from` nor about to be. */
  ghost predicate KeptOut(c: Crypto, s: State, name: string, password: string, from: int) {
    && (name in s.cache && s.cache[name].digest == c.sha(password) ==> s.cache[name].expiresAt <= from)
    && forall t: nat :: PcOf(s, t) != Filling(name, password)
  }

  lemma KeptOutStep(c: Crypto, s: State, step: Step, name: string, password: string, from: int)
    requires CollisionFree(c) && KeptOut(c, s, name, password, from) && !Accepts(s.table, c, name, password)
    ensures KeptOut(c, Apply(c, s, step), name, password, from)
  {
    var s' := Apply(c, s, step);
    forall t: nat ensures PcOf(s', t) != Filling(name, password) {
      assert PcOf(s, t) != Filling(name, password);
    }
  }

  /** At every state of the run the table refuses the credentials. */
  ghost predicate RefusedThroughout(c: Crypto, s0: State, steps: seq<Step>, name: string, password: string) {
    forall i {:trigger steps[..i]} :: 0 <= i <= |steps| ==> !Accepts(Run(c, s0, steps[..i]).table, c, name, password)
  }

  lemma {:induction false} KeptOutRun(c: Crypto, s0: State, steps: seq<Step>, name: string, password: string, from: int)
    requires CollisionFree(c) && KeptOut(c, s0, name, password, from)
    requires RefusedThroughout(c, s0, steps, name, password)
    ensures KeptOut(c, Run(c, s0, steps), name, password, from)
    decreases |steps|
  {
    if steps != [] {
      var front := steps[..|steps| - 1];
      forall i | 0 <= i <= |front| ensures !Accepts(Run(c, s0, front[..i]).table, c, name, password) {
        assert front[..i] == steps[..i];
      }
      assert front[..|front|] == front;
      KeptOutRun(c, s0, front, name, password, from);
      KeptOutStep(c, Run(c, s0, front), steps[|steps| - 1], name, password, from);
    }
  }

  predicate UpdateFree(steps: seq<Step>) {
    forall i :: 0 <= i < |steps| ==> !steps[i].Update?
  }

  lemma {:induction false} UpdateFreeTable(c: Crypto, s0: State, steps: seq<Step>)
    requires UpdateFree(steps)
    ensures Run(c, s0, steps).table == s0.table
  {
    if steps != [] {
      UpdateFreeTable(c, s0, steps[..|steps| - 1]);
    }
  }

  lemma UpdateFreeRefused(c: Crypto, s0: State, steps: seq<Step>, name: string, password: string)
    requires UpdateFree(steps) && !Accepts(s0.table, c, name, password)
    ensures RefusedThroughout(c, s0, steps, name, password)
  {
    forall i | 0 <= i <= |steps| ensures !Accepts(Run(c, s0, steps[..i]).table, c, name, password) {
      UpdateFreeTable(c, s0, steps[..i]);
    }
  }

  /** A run through which the table refuses the credentials and after which the cache lets them in. */
  ghost predicate GetsIn(c: Crypto, s0: State, steps: seq<Step>, name: string, password: string, now: int) {
    && Timely(s0, steps) && RefusedThroughout(c, s0, steps, name, password)
    && Run(c, s0, steps).clock <= now && CacheHit(Run(c, s0, steps).cache, c, name, password, now)
  }

  /**
   * Credentials the table refuses get in, without the table ever accepting them, if and only if the cache still
   * holds them or some login that verified them earlier is on its way to the cache. Account changes in between
   * make no difference.
   */
  lemma RevokedGetsInExactly(c: Crypto, s0: State, name: string, password: string)
    requires CollisionFree(c) && name != "" && !Accepts(s0.table, c, name, password)
    ensures (exists steps, now :: GetsIn(c, s0, steps, name, password, now)) <==>
            CacheHit(s0.cache, c, name, password, s0.clock) || (exists t: nat :: PcOf(s0, t) == Filling(name, password))
    ensures (exists steps, now :: GetsIn(c, s0, steps, name, password, now)) <==>
            (exists steps, now :: UpdateFree(steps) && GetsIn(c, s0, steps, name, password, now))
  {
    if CacheHit(s0.cache, c, name, password, s0.clock) {
      var none: seq<Step> := [];
      UpdateFreeRefused(c, s0, none, name, password);
      assert UpdateFree(none) && GetsIn(c, s0, none, name, password, s0.clock);
    } else if t: nat :| PcOf(s0, t) == Filling(name, password) {
      FillGetsIn(c, s0, t, name, password);
    } else {
      forall steps, now ensures !GetsIn(c, s0, steps, name, password, now) {
        if GetsIn(c, s0, steps, name, password, now) {
          KeptOutRun(c, s0, steps, name, password, s0.clock);
          TimelyEnds(c, s0, steps);
        }
      }
    }
  }

  lemma {:induction false} TimelyEnds(c: Crypto, s0: State, steps: seq<Step>)
    requires Timely(s0, steps)
    ensures s0.clock <= Run(c, s0, steps).clock
  {
    if steps != [] {
      var front := steps[..|steps| - 1];
      assert steps == front + [steps[|steps| - 1]];
      TimelySnoc(c, s0, front, steps[|steps| - 1]);
      TimelyEnds(c, s0, front);
      RunSnoc(c, s0, front, steps[|steps| - 1]);
    }
  }

  lemma FillGetsIn(c: Crypto, s0: State, t: nat, name: string, password: string)
    requires PcOf(s0, t) == Filling(name, password) && name != "" && !Accepts(s0.table, c, name, password)
    ensures UpdateFree([Fill(t, s0.clock)]) && GetsIn(c, s0, [Fill(t, s0.clock)], name, password, s0.clock)
  {
    var steps := [Fill(t, s0.clock)];
    assert steps[..0] == [] && Run(c, s0, steps) == Apply(c, s0, steps[0]);
    UpdateFreeRefused(c, s0, steps, name, password);
  }

  /** In particular, with neither they stay refused from then on, for as long as the table refuses them. */
  lemma RevokedStaysOut(
    c: Crypto, s0: State, steps: seq<Step>, name: string, password: string, from: int, now: int)
    requires CollisionFree(c) && forall t: nat :: PcOf(s0, t) != Filling(name, password)
    requires !CacheHit(s0.cache, c, name, password, from) && from <= now
    requires RefusedThroughout(c, s0, steps, name, password)
    ensures !CacheHit(Run(c, s0, steps).cache, c, name, password, now)
  {
    if name != "" {
      KeptOutRun(c, s0, steps, name, password, from);
    }
  }

  /**
   * The bound is attained: a login that queried before an account was disabled and fills after the wipe lets the
   * same credentials in for the full 30 s, although the table refuses them.
   */
  lemma LateFillOutlivesDisable(c: Crypto, s0: State, id: nat, password: string, t: int, now: int)
    requires s0.cache == map[] && PcOf(s0, 0) == Idle && s0.unwiped == 0 && id in s0.table.rows && TableOk(s0.table)
    requires var r := s0.table.rows[id]; r.enabled && c.matches(r.hash, password) && r.username != "" && Trimmed(r.username, IsSpace)
    requires t <= now < t + 30_000_000_000
    ensures var name := s0.table.rows[id].username;
      var late := LateFill(c, s0, id, password, t);
      !Accepts(late.table, c, name, password) && CacheHit(late.cache, c, name, password, now)
  {
    var name := s0.table.rows[id].username;
    TrimSpec(name, IsSpace);
    assert Opens(s0.table.rows[id], c, name, password);
    var s1 := Apply(c, s0, Look(0, name, password, t));
    var s2 := Apply(c, s1, Query(0, false, t));
    assert s1.logins[0] == Looking(name, password) && s2.logins[0] == Filling(name, password);
    var s3 := Apply(c, s2, Update(SetEnabled(id, false, false), t));
    var s4 := Apply(c, s3, Wipe(t));
    assert s3.unwiped == 1 && s4.cache == map[];
    var s5 := Apply(c, s4, Fill(0, t));
    assert s5.cache == map[name := Filled(c, password, t)];
  }

  function LateFill(c: Crypto, s: State, id: nat, password: string, t: int): State
    requires id in s.table.rows
  {
    var s1 := Apply(c, s, Look(0, s.table.rows[id].username, password, t));
    var s2 := Apply(c, s1, Query(0, false, t));
    var s3 := Apply(c, s2, Update(SetEnabled(id, false, false), t));
    Apply(c, Apply(c, s3, Wipe(t)), Fill(0, t))
  }
}
