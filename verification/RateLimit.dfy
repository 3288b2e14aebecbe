/**
 * internal/ratelimit/ratelimit.go: the per-key token bucket with its idle-bucket cleanup.
 * Floats and times (in seconds) are reals; each call carries the clock value it read before taking the lock,
 * so times need not be in order unless a lemma says so.
 */
module RateLimit {
  import opened Common

  /** What New and Update make of the settings. */
  datatype LimitConfig = LimitConfig(rps: real, burst: int)

  type Limits = c: LimitConfig | c.rps > 0.0 && c.burst > 0 witness LimitConfig(20.0, 40)

  function NewLimits(perIPRPS: real, perIPBurst: int): Limits {
    LimitConfig(if perIPRPS <= 0.0 then 20.0 else perIPRPS, if perIPBurst <= 0 then 40 else perIPBurst)
  }

  datatype Bucket = Bucket(tokens: real, last: real)

  datatype State = State(buckets: map<string, Bucket>, lastCleanup: real)

  datatype Call = Call(key: string, now: real)

  const CLEANUP_EVERY := 300.0
  const IDLE := 600.0

  /** Tokens earned in a span of time; negative when the clock went back. */
  function Gain(c: Limits, time: real): real {
    time * c.rps
  }

  lemma {:induction false} GainOfDifference(c: Limits, x: real, y: real)
    ensures Gain(c, x - y) == Gain(c, x) - Gain(c, y)
  {
  }

  lemma {:induction false} GainIsMonotone(c: Limits, x: real, y: real)
    requires x <= y
    ensures Gain(c, x) <= Gain(c, y) && (x < y ==> Gain(c, x) < Gain(c, y))
  {
    if x < y {
      Scale(c.rps, x, y);
    }
  }

  function Refill(c: Limits, b: Bucket, now: real): real {
    var t := b.tokens + Gain(c, now - b.last);
    if t > c.burst as real then c.burst as real else t
  }

  /** One call on a key that has, or does not have, a bucket. */
  function Serve(c: Limits, b: Option<Bucket>, now: real): (r: (Bucket, bool)) {
    if b.None? then (Bucket(c.burst as real - 1.0, now), true)
    else
      var t := Refill(c, b.value, now);
      if t < 1.0 then (Bucket(t, now), false) else (Bucket(t - 1.0, now), true)
  }

  function Get(m: map<string, Bucket>, key: string): Option<Bucket> {
    if key in m then Some(m[key]) else None
  }

  /** maybeCleanupLocked */
  function Cleanup(s: State, now: real): State {
    if now - s.lastCleanup < CLEANUP_EVERY then s
    else State(map k | k in s.buckets && !(s.buckets[k].last < now - IDLE) :: s.buckets[k], now)
  }

  /** Allow on an enabled limiter; only the call that creates a bucket may clean up. */
  function Step(c: Limits, s: State, call: Call): State {
    if call.key == "" then s
    else
      var s1 := s.(buckets := s.buckets[call.key := Serve(c, Get(s.buckets, call.key), call.now).0]);
      if call.key in s.buckets then s1 else Cleanup(s1, call.now)
  }

  function Answer(c: Limits, m: map<string, Bucket>, call: Call): bool {
    call.key == "" || Serve(c, Get(m, call.key), call.now).1
  }

  function Answers(c: Limits, s: State, calls: seq<Call>): (r: seq<bool>)
    ensures |r| == |calls|
    decreases |calls|
  {
    if calls == [] then [] else [Answer(c, s.buckets, calls[0])] + Answers(c, Step(c, s, calls[0]), calls[1..])
  }

  // ---- one key, no cleanup ----

  function Play(c: Limits, b: Option<Bucket>, times: seq<real>): (r: seq<bool>)
    ensures |r| == |times|
    decreases |times|
  {
    if times == [] then []
    else [Serve(c, b, times[0]).1] + Play(c, Some(Serve(c, b, times[0]).0), times[1..])
  }

  function After(c: Limits, b: Option<Bucket>, times: seq<real>): Option<Bucket>
    decreases |times|
  {
    if times == [] then b else After(c, Some(Serve(c, b, times[0]).0), times[1..])
  }

  predicate AllTrue(answers: seq<bool>) {
    forall i :: 0 <= i < |answers| ==> answers[i]
  }

  function Count(answers: seq<bool>): nat {
    if answers == [] then 0 else (if answers[0] then 1 else 0) + Count(answers[1..])
  }

  lemma {:induction false} PlayAppend(c: Limits, b: Option<Bucket>, x: seq<real>, y: seq<real>)
    ensures Play(c, b, x + y) == Play(c, b, x) + Play(c, After(c, b, x), y)
    ensures After(c, b, x + y) == After(c, After(c, b, x), y)
    decreases |x|
  {
    if x == [] {
      assert x + y == y;
    } else {
      assert (x + y)[1..] == x[1..] + y;
      PlayAppend(c, Some(Serve(c, b, x[0]).0), x[1..], y);
    }
  }

  function Potential(c: Limits, b: Bucket): real {
    b.tokens - Gain(c, b.last)
  }

  lemma {:induction false} ServeDropsPotential(c: Limits, b: Bucket, now: real)
    ensures var (b', ok) := Serve(c, Some(b), now);
      Potential(c, b') <= Potential(c, b) - (if ok then 1.0 else 0.0)
  {
    GainOfDifference(c, now, b.last);
  }

  /** tokens - rps*last never increases, whatever the order of the clock values, and every admission costs 1. */
  lemma {:induction false} PotentialPaysForAdmissions(c: Limits, b: Bucket, times: seq<real>)
    ensures After(c, Some(b), times).Some?
    ensures Potential(c, After(c, Some(b), times).value) <= Potential(c, b) - Count(Play(c, Some(b), times)) as real
    decreases |times|
  {
    if times != [] {
      ServeDropsPotential(c, b, times[0]);
      PotentialPaysForAdmissions(c, Serve(c, Some(b), times[0]).0, times[1..]);
    }
  }

  lemma {:induction false} LastAdmittedLeavesCredit(c: Limits, b: Option<Bucket>, times: seq<real>)
    requires times != [] && Play(c, b, times)[|times| - 1]
    ensures After(c, b, times).Some?
    ensures var e := After(c, b, times).value; e.tokens >= 0.0 && e.last == times[|times| - 1]
    decreases |times|
  {
    if |times| > 1 {
      LastAdmittedLeavesCredit(c, Some(Serve(c, b, times[0]).0), times[1..]);
    }
  }

  lemma {:induction false} FirstCallPays(c: Limits, b: Option<Bucket>, now: real)
    ensures var (b', ok) := Serve(c, b, now);
      Potential(c, b') <= c.burst as real - Gain(c, now) - (if ok then 1.0 else 0.0)
  {
  }

  /** What a window from `first` to `last` may admit. */
  function Allowance(c: Limits, first: real, last: real): real {
    c.burst as real + Gain(c, last - first)
  }

  lemma {:induction false} CreditBounds(c: Limits, start: real, first: real, e: Bucket, paid: nat)
    requires start <= c.burst as real - Gain(c, first)
    requires Potential(c, e) <= start - paid as real && e.tokens >= 0.0
    ensures paid as real <= Allowance(c, first, e.last)
  {
    GainOfDifference(c, e.last, first);
  }

  lemma {:induction false} CountHead(c: Limits, b: Option<Bucket>, times: seq<real>)
    requires times != []
    ensures var (b1, ok) := Serve(c, b, times[0]);
      Count(Play(c, b, times)) == (if ok then 1 else 0) + Count(Play(c, Some(b1), times[1..]))
  {
    assert Play(c, b, times)[1..] == Play(c, Some(Serve(c, b, times[0]).0), times[1..]);
  }

  lemma {:induction false} WindowBound(c: Limits, b: Option<Bucket>, times: seq<real>)
    requires times != [] && Play(c, b, times)[|times| - 1]
    ensures Count(Play(c, b, times)) as real <= Allowance(c, times[0], times[|times| - 1])
  {
    var (b1, ok) := Serve(c, b, times[0]);
    var paid := if ok then 1 else 0;
    FirstCallPays(c, b, times[0]);
    PotentialPaysForAdmissions(c, b1, times[1..]);
    LastAdmittedLeavesCredit(c, b, times);
    CountHead(c, b, times);
    CreditBounds(c, Potential(c, b1) + paid as real, times[0], After(c, b, times).value, Count(Play(c, b, times)));
  }

  lemma {:induction false} WindowIsPlay(c: Limits, times: seq<real>, i: nat, j: nat)
    requires i <= j <= |times|
    ensures Play(c, None, times)[i..j] == Play(c, After(c, None, times[..i]), times[i..j])
  {
    var x, y, z := times[..i], times[i..j], times[j..];
    assert times == x + (y + z);
    PlayAppend(c, None, x, y + z);
    PlayAppend(c, After(c, None, x), y, z);
  }

  /**
   * The rate bound. From call i through an admitted call j on one key, at most burst + rps * (t_j - t_i)
   * calls are admitted, for any clock values in any order.
   */
  lemma {:induction false} RateBound(c: Limits, times: seq<real>, i: nat, j: nat)
    requires i <= j < |times| && Play(c, None, times)[j]
    ensures Count(Play(c, None, times)[i..j + 1]) as real <= Allowance(c, times[i], times[j])
  {
    var window, b := times[i..j + 1], After(c, None, times[..i]);
    WindowIsPlay(c, times, i, j + 1);
    assert Play(c, b, window)[j - i] == Play(c, None, times)[i..j + 1][j - i] == Play(c, None, times)[j];
    WindowBound(c, b, window);
  }

  // ---- refusals, exactly ----

  /** What is left of a burst granted at call i, in terms of the potential, after the calls admitted since. */
  function Left(c: Limits, times: seq<real>, answers: seq<bool>, i: nat): real
    requires i < |times| == |answers|
  {
    c.burst as real - Gain(c, times[i]) - Count(answers[i..]) as real
  }

  /** v is the least of them. */
  ghost predicate IsLeast(c: Limits, times: seq<real>, answers: seq<bool>, v: real)
    requires |times| == |answers|
  {
    && (forall i: nat :: i < |times| ==> v <= Left(c, times, answers, i))
    && exists i: nat :: i < |times| && v == Left(c, times, answers, i)
  }

  lemma {:induction false} CountSnoc(answers: seq<bool>, ok: bool)
    ensures Count(answers + [ok]) == Count(answers) + (if ok then 1 else 0)
  {
    if answers == [] {
      assert answers + [ok] == [ok] && [ok][1..] == [];
    } else {
      assert (answers + [ok])[0] == answers[0] && (answers + [ok])[1..] == answers[1..] + [ok];
      CountSnoc(answers[1..], ok);
    }
  }

  /** One call lowers the potential to that of a full bucket, if it is above it, and by 1 if it is admitted. */
  lemma {:induction false} ServePotential(c: Limits, b: Bucket, now: real)
    ensures var (b', ok) := Serve(c, Some(b), now);
      && Potential(c, b') == Earlier(Potential(c, b), c.burst as real - Gain(c, now)) - (if ok then 1.0 else 0.0)
      && (ok <==> Potential(c, b) + Gain(c, now) >= 1.0)
  {
    GainOfDifference(c, now, b.last);
    assert c.burst as real >= 1.0;
  }

  lemma {:induction false} LeftSnoc(c: Limits, times: seq<real>, answers: seq<bool>, t: real, ok: bool, i: nat)
    requires |times| == |answers| && i <= |times|
    ensures Left(c, times + [t], answers + [ok], i) ==
      (if i < |times| then Left(c, times, answers, i) else c.burst as real - Gain(c, t)) - (if ok then 1.0 else 0.0)
  {
    CountSnoc(answers[i..], ok);
    assert (answers + [ok])[i..] == answers[i..] + [ok];
  }

  lemma {:induction false} LeastSnoc(c: Limits, times: seq<real>, answers: seq<bool>, v: real, t: real, ok: bool)
    requires |times| == |answers| && (times == [] || IsLeast(c, times, answers, v))
    ensures var full := c.burst as real - Gain(c, t);
      IsLeast(c, times + [t], answers + [ok], (if times == [] then full else Earlier(v, full)) - (if ok then 1.0 else 0.0))
  {
    var n := |times|;
    forall i: nat | i <= n
      ensures Left(c, times + [t], answers + [ok], i) ==
        (if i < n then Left(c, times, answers, i) else c.burst as real - Gain(c, t)) - (if ok then 1.0 else 0.0)
    {
      LeftSnoc(c, times, answers, t, ok, i);
    }
    assert n < |times + [t]|;
    if times != [] {
      var least: nat :| least < n && v == Left(c, times, answers, least);
      assert Left(c, times + [t], answers + [ok], least) == v - (if ok then 1.0 else 0.0);
    }
    assert Left(c, times + [t], answers + [ok], n) == c.burst as real - Gain(c, t) - (if ok then 1.0 else 0.0);
  }

  lemma {:induction false} AfterSnoc(c: Limits, times: seq<real>, t: real)
    ensures Play(c, None, times + [t]) == Play(c, None, times) + [Serve(c, After(c, None, times), t).1]
    ensures After(c, None, times + [t]) == Some(Serve(c, After(c, None, times), t).0)
  {
    PlayAppend(c, None, times, [t]);
    assert [t][1..] == [];
    assert Play(c, Some(Serve(c, After(c, None, times), t).0), []) == [];
  }

  /** The potential of the bucket is the least of what is left of the bursts granted at the calls so far. */
  lemma {:induction false} PotentialIsLeast(c: Limits, times: seq<real>)
    requires times != []
    ensures After(c, None, times).Some?
    ensures IsLeast(c, times, Play(c, None, times), Potential(c, After(c, None, times).value))
    decreases |times|
  {
    var xs, t := times[..|times| - 1], times[|times| - 1];
    assert times == xs + [t];
    AfterSnoc(c, xs, t);
    var ok := Serve(c, After(c, None, xs), t).1;
    if xs == [] {
      LeastSnoc(c, xs, [], 0.0, t, ok);
    } else {
      PotentialIsLeast(c, xs);
      ServePotential(c, After(c, None, xs).value, t);
      LeastSnoc(c, xs, Play(c, None, xs), Potential(c, After(c, None, xs).value), t, ok);
    }
  }

  /** The calls admitted from i up to j and one more would exceed what the window from i to j allows. */
  predicate Exceeds(c: Limits, times: seq<real>, i: nat, j: nat)
    requires i <= j < |times|
  {
    (Count(Play(c, None, times)[i..j]) + 1) as real > Allowance(c, times[i], times[j])
  }

  /**
   * Refusals are exact: a call is refused if and only if, for some earlier call, the calls admitted from there on
   * and this one would exceed burst + rps * (t_j - t_i). So nothing earned is ever forfeited but at the cap.
   */
  lemma {:induction false} RefusedExactly(c: Limits, times: seq<real>, j: nat)
    requires j < |times|
    ensures !Play(c, None, times)[j] <==> exists i: nat :: i <= j && Exceeds(c, times, i, j)
  {
    var xs, t := times[..j], times[j];
    var answers := Play(c, None, xs);
    assert times[..j + 1] == xs + [t] && times == (xs + [t]) + times[j + 1..];
    PlayAppend(c, None, xs + [t], times[j + 1..]);
    AfterSnoc(c, xs, t);
    assert Play(c, None, times)[..j] == answers && Play(c, None, times)[j] == Serve(c, After(c, None, xs), t).1;
    assert !Exceeds(c, times, j, j) by {
      assert Play(c, None, times)[j..j] == [];
      GainOfDifference(c, t, t);
    }
    if j > 0 {
      PotentialIsLeast(c, xs);
      var b := After(c, None, xs).value;
      ServePotential(c, b, t);
      forall i: nat | i < j ensures Exceeds(c, times, i, j) <==> Left(c, xs, answers, i) + Gain(c, t) < 1.0 {
        assert Play(c, None, times)[i..j] == answers[i..];
        GainOfDifference(c, t, times[i]);
      }
      var least: nat :| least < |xs| && Potential(c, b) == Left(c, xs, answers, least);
      if !Play(c, None, times)[j] {
        assert Exceeds(c, times, least, j);
      }
    }
  }

  /** And the limiter is no stricter than that: a key left alone for 1/rps seconds is served again. */
  lemma {:induction false} SpacedCallsAdmitted(c: Limits, b: Bucket, now: real)
    requires b.tokens >= 0.0 && Gain(c, now - b.last) >= 1.0
    ensures Serve(c, Some(b), now).1
  {
    assert c.burst as real >= 1.0;
  }

  // ---- many keys, no cleanup: keys do not interact ----

  function PureStep(c: Limits, m: map<string, Bucket>, call: Call): map<string, Bucket> {
    if call.key == "" then m else m[call.key := Serve(c, Get(m, call.key), call.now).0]
  }

  function PureAnswers(c: Limits, m: map<string, Bucket>, calls: seq<Call>): (r: seq<bool>)
    ensures |r| == |calls|
    decreases |calls|
  {
    if calls == [] then [] else [Answer(c, m, calls[0])] + PureAnswers(c, PureStep(c, m, calls[0]), calls[1..])
  }

  function TimesOf(calls: seq<Call>, key: string): seq<real> {
    if calls == [] then []
    else (if calls[0].key == key then [calls[0].now] else []) + TimesOf(calls[1..], key)
  }

  function AnswersOf(calls: seq<Call>, answers: seq<bool>, key: string): seq<bool>
    requires |calls| == |answers|
  {
    if calls == [] then []
    else (if calls[0].key == key then [answers[0]] else []) + AnswersOf(calls[1..], answers[1..], key)
  }

  /** What a key is told depends on that key's own calls only. */
  lemma {:induction false} KeysAreIsolated(c: Limits, m: map<string, Bucket>, calls: seq<Call>, key: string)
    requires key != ""
    ensures AnswersOf(calls, PureAnswers(c, m, calls), key) == Play(c, Get(m, key), TimesOf(calls, key))
    decreases |calls|
  {
    if calls != [] {
      var m1 := PureStep(c, m, calls[0]);
      KeysAreIsolated(c, m1, calls[1..], key);
      if calls[0].key == key {
        assert TimesOf(calls, key)[1..] == TimesOf(calls[1..], key);
      } else {
        assert TimesOf(calls, key) == TimesOf(calls[1..], key);
      }
    }
  }

  // ---- cleanup ----

  function Later(x: real, y: real): real {
    if x < y then y else x
  }

  function Earlier(x: real, y: real): real {
    if x < y then x else y
  }

  /**
   * Clock readings lag the latest one so far by at most `lag`: a call reads the clock before it takes the lock,
   * and others may overtake it there. Lag 0 is a clock that never goes back.
   */
  predicate Skewed(lag: real, latest: real, calls: seq<Call>)
    decreases |calls|
  {
    calls == [] || (latest - lag <= calls[0].now && Skewed(lag, Later(latest, calls[0].now), calls[1..]))
  }

  /** A bucket that has refilled to the top by `now`. */
  predicate Full(c: Limits, b: Bucket, now: real) {
    b.tokens + Gain(c, now - b.last) >= c.burst as real
  }

  /** The bucket was not in debt at some moment at most `lag` after its last refill. */
  predicate Backed(c: Limits, lag: real, b: Bucket, latest: real) {
    b.last <= latest && Potential(c, b) + Gain(c, Earlier(b.last + lag, latest)) >= 0.0
  }

  /** The cleaned-up map lacks only buckets that are full at every reading still to come. */
  ghost predicate Similar(c: Limits, lag: real, s: State, m: map<string, Bucket>, latest: real) {
    && s.buckets.Keys <= m.Keys
    && (forall k :: k in s.buckets ==> s.buckets[k] == m[k])
    && (forall k :: k in m ==> Backed(c, lag, m[k], latest))
    && (forall k :: k in m && k !in s.buckets ==> Full(c, m[k], latest - lag))
  }

  lemma {:induction false} FullStaysFull(c: Limits, b: Bucket, now: real, later: real)
    requires Full(c, b, now) && now <= later
    ensures Full(c, b, later)
  {
    GainIsMonotone(c, now - b.last, later - b.last);
  }

  /** Serving a full bucket is serving a key without one. */
  lemma {:induction false} FullIsFresh(c: Limits, b: Bucket, now: real)
    requires Full(c, b, now)
    ensures Serve(c, Some(b), now) == Serve(c, None, now)
  {
  }

  /** A bucket idle for more than 600 s by some reading is full at every later reading that lags it. */
  lemma {:induction false} IdleIsFull(c: Limits, lag: real, b: Bucket, now: real, latest: real)
    requires lag >= 0.0 && c.burst as real <= (IDLE - 2.0 * lag) * c.rps
    requires Backed(c, lag, b, latest) && b.last < now - IDLE && now <= latest
    ensures Full(c, b, latest - lag)
  {
    var m := Earlier(b.last + lag, latest);
    GainIsMonotone(c, m, b.last + lag);
    GainIsMonotone(c, IDLE - 2.0 * lag, latest - lag - (b.last + lag));
    GainOfDifference(c, latest - lag, b.last + lag);
    GainOfDifference(c, latest - lag, b.last);
  }

  lemma {:induction false} BackedStays(c: Limits, lag: real, b: Bucket, latest: real, later: real)
    requires Backed(c, lag, b, latest) && latest <= later
    ensures Backed(c, lag, b, later)
  {
    GainIsMonotone(c, Earlier(b.last + lag, latest), Earlier(b.last + lag, later));
  }

  lemma {:induction false} ServeStaysBacked(c: Limits, lag: real, b: Option<Bucket>, latest: real, now: real)
    requires lag >= 0.0 && latest - lag <= now && (b.Some? ==> Backed(c, lag, b.value, latest))
    ensures Backed(c, lag, Serve(c, b, now).0, Later(latest, now))
  {
    var (b', ok) := Serve(c, b, now);
    var m' := Earlier(now + lag, Later(latest, now));
    if ok {
      GainIsMonotone(c, now, m');
    } else {
      GainOfDifference(c, now, b.value.last);
      assert Potential(c, b') == Potential(c, b.value);
      GainIsMonotone(c, Earlier(b.value.last + lag, latest), m');
    }
  }

  lemma {:induction false} ServeKeepsSimilar(c: Limits, lag: real, s: State, m: map<string, Bucket>, latest: real, call: Call)
    requires lag >= 0.0 && Similar(c, lag, s, m, latest) && latest - lag <= call.now && call.key != ""
    ensures Answer(c, s.buckets, call) == Answer(c, m, call)
    ensures var s1 := s.(buckets := s.buckets[call.key := Serve(c, Get(s.buckets, call.key), call.now).0]);
      Similar(c, lag, s1, PureStep(c, m, call), Later(latest, call.now))
  {
    var later := Later(latest, call.now);
    forall k | k in m && k !in s.buckets ensures Full(c, m[k], later - lag) && Full(c, m[k], call.now) {
      FullStaysFull(c, m[k], latest - lag, later - lag);
      FullStaysFull(c, m[k], latest - lag, call.now);
    }
    forall k | k in m ensures Backed(c, lag, m[k], later) {
      BackedStays(c, lag, m[k], latest, later);
    }
    if call.key in m && call.key !in s.buckets {
      FullIsFresh(c, m[call.key], call.now);
    }
    ServeStaysBacked(c, lag, Get(m, call.key), latest, call.now);
  }

  lemma {:induction false} CleanupKeepsSimilar(c: Limits, lag: real, s: State, m: map<string, Bucket>, latest: real, now: real)
    requires lag >= 0.0 && c.burst as real <= (IDLE - 2.0 * lag) * c.rps
    requires Similar(c, lag, s, m, latest) && now <= latest
    ensures Similar(c, lag, Cleanup(s, now), m, latest)
  {
    var s' := Cleanup(s, now);
    forall k | k in m && k !in s'.buckets ensures Full(c, m[k], latest - lag) {
      if k in s.buckets {
        IdleIsFull(c, lag, m[k], now, latest);
      }
    }
  }

  lemma {:induction false} StepKeepsSimilar(c: Limits, lag: real, s: State, m: map<string, Bucket>, latest: real, call: Call)
    requires lag >= 0.0 && c.burst as real <= (IDLE - 2.0 * lag) * c.rps
    requires Similar(c, lag, s, m, latest) && latest - lag <= call.now
    ensures Answer(c, s.buckets, call) == Answer(c, m, call)
    ensures Similar(c, lag, Step(c, s, call), PureStep(c, m, call), Later(latest, call.now))
  {
    if call.key == "" {
      EmptyKeyKeepsSimilar(c, lag, s, m, latest, Later(latest, call.now));
    } else {
      ServeKeepsSimilar(c, lag, s, m, latest, call);
      var s1 := s.(buckets := s.buckets[call.key := Serve(c, Get(s.buckets, call.key), call.now).0]);
      CleanupKeepsSimilar(c, lag, s1, PureStep(c, m, call), Later(latest, call.now), call.now);
    }
  }

  lemma {:induction false} EmptyKeyKeepsSimilar(c: Limits, lag: real, s: State, m: map<string, Bucket>, latest: real, later: real)
    requires Similar(c, lag, s, m, latest) && latest <= later
    ensures Similar(c, lag, s, m, later)
  {
    forall k | k in m ensures Backed(c, lag, m[k], later) {
      BackedStays(c, lag, m[k], latest, later);
    }
    forall k | k in m && k !in s.buckets ensures Full(c, m[k], later - lag) {
      FullStaysFull(c, m[k], latest - lag, later - lag);
    }
  }

  lemma {:induction false} SimilarAnswersAgree(
    c: Limits, lag: real, s: State, m: map<string, Bucket>, latest: real, calls: seq<Call>)
    requires lag >= 0.0 && c.burst as real <= (IDLE - 2.0 * lag) * c.rps
    requires Similar(c, lag, s, m, latest) && Skewed(lag, latest, calls)
    ensures Answers(c, s, calls) == PureAnswers(c, m, calls)
    decreases |calls|
  {
    if calls != [] {
      StepKeepsSimilar(c, lag, s, m, latest, calls[0]);
      SimilarAnswersAgree(
        c, lag, Step(c, s, calls[0]), PureStep(c, m, calls[0]), Later(latest, calls[0].now), calls[1..]);
    }
  }

  /** On every run whose readings lag by at most `lag`, dropping idle buckets changes no answer on any key. */
  ghost predicate CleanupInvisible(c: Limits, lag: real) {
    forall start: real, calls: seq<Call> :: Skewed(lag, start, calls) ==>
      Answers(c, State(map[], start), calls) == PureAnswers(c, map[], calls)
  }

  // a run that shows the difference when burst > (600 - 2 * lag) * rps

  function Repeat(key: string, now: real, n: nat): seq<Call> {
    if n == 0 then [] else [Call(key, now)] + Repeat(key, now, n - 1)
  }

  function Same(now: real, n: nat): seq<real> {
    if n == 0 then [] else [now] + Same(now, n - 1)
  }

  function StateAfter(c: Limits, s: State, calls: seq<Call>): State
    decreases |calls|
  {
    if calls == [] then s else StateAfter(c, Step(c, s, calls[0]), calls[1..])
  }

  function PureAfter(c: Limits, m: map<string, Bucket>, calls: seq<Call>): map<string, Bucket>
    decreases |calls|
  {
    if calls == [] then m else PureAfter(c, PureStep(c, m, calls[0]), calls[1..])
  }

  lemma {:induction false} AnswersAppend(c: Limits, s: State, x: seq<Call>, y: seq<Call>)
    ensures Answers(c, s, x + y) == Answers(c, s, x) + Answers(c, StateAfter(c, s, x), y)
    ensures |Answers(c, s, x)| == |x|
    decreases |x|
  {
    if x == [] {
      assert x + y == y;
    } else {
      assert (x + y)[1..] == x[1..] + y;
      AnswersAppend(c, Step(c, s, x[0]), x[1..], y);
    }
  }

  lemma {:induction false} PureAppend(c: Limits, m: map<string, Bucket>, x: seq<Call>, y: seq<Call>)
    ensures PureAnswers(c, m, x + y) == PureAnswers(c, m, x) + PureAnswers(c, PureAfter(c, m, x), y)
    ensures |PureAnswers(c, m, x)| == |x|
    decreases |x|
  {
    if x == [] {
      assert x + y == y;
    } else {
      assert (x + y)[1..] == x[1..] + y;
      PureAppend(c, PureStep(c, m, x[0]), x[1..], y);
    }
  }

  /** k <= tokens calls at the instant of the last refill are all admitted and cost one token each. */
  lemma {:induction false} BurstIsServed(c: Limits, b: Bucket, k: nat)
    requires k as real <= b.tokens <= c.burst as real
    ensures AllTrue(Play(c, Some(b), Same(b.last, k)))
    ensures After(c, Some(b), Same(b.last, k)) == Some(Bucket(b.tokens - k as real, b.last))
    decreases k
  {
    if k > 0 {
      var b' := Bucket(b.tokens - 1.0, b.last);
      ServedAtOnce(c, b);
      BurstIsServed(c, b', k - 1);
      assert Same(b.last, k)[0] == b.last && Same(b.last, k)[1..] == Same(b.last, k - 1);
      assert Play(c, Some(b), Same(b.last, k)) == [true] + Play(c, Some(b'), Same(b.last, k - 1));
    }
  }

  lemma ServedAtOnce(c: Limits, b: Bucket)
    requires 1.0 <= b.tokens <= c.burst as real
    ensures Serve(c, Some(b), b.last) == (Bucket(b.tokens - 1.0, b.last), true)
  {
    GainOfDifference(c, b.last, b.last);
  }

  lemma {:induction false} RepeatIsPlay(c: Limits, s: State, key: string, now: real, n: nat)
    requires key != "" && key in s.buckets
    ensures Answers(c, s, Repeat(key, now, n)) == Play(c, Some(s.buckets[key]), Same(now, n))
    ensures After(c, Some(s.buckets[key]), Same(now, n)).Some?
    ensures StateAfter(c, s, Repeat(key, now, n)) ==
      s.(buckets := s.buckets[key := After(c, Some(s.buckets[key]), Same(now, n)).value])
    decreases n
  {
    if n > 0 {
      var s1 := Step(c, s, Call(key, now));
      RepeatIsPlay(c, s1, key, now, n - 1);
      assert Repeat(key, now, n)[1..] == Repeat(key, now, n - 1) && Same(now, n)[1..] == Same(now, n - 1);
    } else {
      assert s.buckets[key := s.buckets[key]] == s.buckets;
    }
  }

  lemma {:induction false} PureRepeatIsPlay(c: Limits, m: map<string, Bucket>, key: string, now: real, n: nat)
    requires key != "" && key in m
    ensures PureAnswers(c, m, Repeat(key, now, n)) == Play(c, Some(m[key]), Same(now, n))
    ensures After(c, Some(m[key]), Same(now, n)).Some?
    ensures PureAfter(c, m, Repeat(key, now, n)) == m[key := After(c, Some(m[key]), Same(now, n)).value]
    decreases n
  {
    if n > 0 {
      PureRepeatIsPlay(c, PureStep(c, m, Call(key, now)), key, now, n - 1);
      assert Repeat(key, now, n)[1..] == Repeat(key, now, n - 1) && Same(now, n)[1..] == Same(now, n - 1);
    } else {
      assert m[key := m[key]] == m;
    }
  }

  lemma {:induction false} RepeatSkewed(lag: real, latest: real, key: string, now: real, n: nat, rest: seq<Call>)
    requires latest - lag <= now && n > 0 && lag >= 0.0 && Skewed(lag, Later(latest, now), rest)
    ensures Skewed(lag, latest, Repeat(key, now, n) + rest)
    decreases n
  {
    var calls := Repeat(key, now, n) + rest;
    assert calls[0] == Call(key, now) && calls[1..] == Repeat(key, now, n - 1) + rest;
    if n == 1 {
      assert calls[1..] == rest;
    } else {
      RepeatSkewed(lag, Later(latest, now), key, now, n - 1, rest);
    }
  }

  lemma {:induction false} AllCounted(answers: seq<bool>)
    requires AllTrue(answers)
    ensures Count(answers) == |answers|
  {
    if answers != [] {
      AllCounted(answers[1..]);
    }
  }

  lemma {:induction false} SameEnds(now: real, n: nat)
    requires n > 0
    ensures |Same(now, n)| == n && Same(now, n)[n - 1] == now
  {
    if n > 1 {
      SameEnds(now, n - 1);
    }
  }

  lemma {:induction false} PaidInFull(c: Limits, start: real, e: Bucket, paid: nat)
    requires Potential(c, e) <= start - paid as real && e.tokens >= 0.0
    ensures paid as real <= start + Gain(c, e.last)
  {
  }

  /** A bucket that holds less than a burst at time t cannot serve a whole burst then. */
  lemma {:induction false} DrainedRefuses(c: Limits, b: Bucket, t: real)
    requires Potential(c, b) + Gain(c, t) < c.burst as real
    ensures !AllTrue(Play(c, Some(b), Same(t, c.burst)))
  {
    var times := Same(t, c.burst);
    var answers := Play(c, Some(b), times);
    SameEnds(t, c.burst);
    PotentialPaysForAdmissions(c, b, times);
    if AllTrue(answers) {
      AllCounted(answers);
      LastAdmittedLeavesCredit(c, Some(b), times);
      PaidInFull(c, Potential(c, b), After(c, Some(b), times).value, c.burst);
    }
  }

  /** The moment of the cleanup: past the 600 s, and `lag` before it the bucket is still short of a burst. */
  function Between(c: Limits, lag: real): real {
    (Later(IDLE - 2.0 * lag, CLEANUP_EVERY - lag) + c.burst as real / c.rps) / 2.0 + 2.0 * lag
  }

  lemma {:induction false} BetweenSpec(c: Limits, lag: real)
    requires lag >= 0.0 && c.burst as real > (IDLE - 2.0 * lag) * c.rps
    ensures var t := Between(c, lag);
      t > IDLE && t - lag >= CLEANUP_EVERY && Gain(c, t - 2.0 * lag) < c.burst as real
  {
    var q, low := c.burst as real / c.rps, Later(IDLE - 2.0 * lag, CLEANUP_EVERY - lag);
    assert q * c.rps == c.burst as real;
    Unscale(c.rps, IDLE - 2.0 * lag, q);
    Unscale(c.rps, 0.0, q);
    assert low < q;
    assert Between(c, lag) - 2.0 * lag == (low + q) / 2.0;
    Scale(c.rps, (low + q) / 2.0, q);
  }

  lemma {:induction false} Scale(k: real, x: real, y: real)
    requires k > 0.0 && x < y
    ensures k * x < k * y
  {
  }

  lemma {:induction false} Unscale(k: real, x: real, y: real)
    requires k > 0.0 && x * k < y * k
    ensures x < y
  {
  }

  /**
   * Drain key "a", let a late reading move its last refill `lag` back, let key "b" trigger the cleanup at t, and
   * ask for a whole burst on "a" again with a reading that lags by `lag`.
   */
  function Probe(c: Limits, lag: real, t: real): seq<Call> {
    Repeat("a", lag, c.burst) + ([Call("a", 0.0), Call("b", t)] + Repeat("a", t - lag, c.burst))
  }

  lemma {:induction false} ProbeSkewed(c: Limits, lag: real, t: real)
    requires lag >= 0.0 && t >= lag
    ensures Skewed(lag, lag, Probe(c, lag, t))
  {
    var last := Repeat("a", t - lag, c.burst);
    RepeatSkewed(lag, t, "a", t - lag, c.burst, []);
    assert last + [] == last;
    var middle := [Call("a", 0.0), Call("b", t)] + last;
    assert middle[1..] == [Call("b", t)] + last && middle[1..][1..] == last;
    assert Skewed(lag, lag, middle);
    RepeatSkewed(lag, lag, "a", lag, c.burst, middle);
  }

  lemma {:induction false} FreshBurst(c: Limits, s: State, t: real)
    requires "a" !in s.buckets && t - s.lastCleanup < CLEANUP_EVERY
    ensures AllTrue(Answers(c, s, Repeat("a", t, c.burst)))
    ensures StateAfter(c, s, Repeat("a", t, c.burst)) == s.(buckets := s.buckets["a" := Bucket(0.0, t)])
  {
    var s1 := Step(c, s, Call("a", t));
    assert Repeat("a", t, c.burst)[1..] == Repeat("a", t, c.burst - 1);
    assert s1.buckets["a"] == Bucket(c.burst as real - 1.0, t);
    RepeatIsPlay(c, s1, "a", t, c.burst - 1);
    BurstIsServed(c, Bucket(c.burst as real - 1.0, t), c.burst - 1);
    assert s1.buckets["a" := Bucket(0.0, t)] == s.buckets["a" := Bucket(0.0, t)];
  }

  lemma {:induction false} PureFreshBurst(c: Limits, m: map<string, Bucket>, t: real)
    requires "a" !in m
    ensures PureAfter(c, m, Repeat("a", t, c.burst)) == m["a" := Bucket(0.0, t)]
  {
    var m1 := PureStep(c, m, Call("a", t));
    assert Repeat("a", t, c.burst)[1..] == Repeat("a", t, c.burst - 1);
    PureRepeatIsPlay(c, m1, "a", t, c.burst - 1);
    BurstIsServed(c, Bucket(c.burst as real - 1.0, t), c.burst - 1);
    assert m1["a" := Bucket(0.0, t)] == m["a" := Bucket(0.0, t)];
  }

  /** The late reading is refused and moves the last refill back without earning anything. */
  lemma {:induction false} LateReading(c: Limits, lag: real)
    requires lag >= 0.0
    ensures Serve(c, Some(Bucket(0.0, lag)), 0.0) == (Bucket(Gain(c, 0.0 - lag), 0.0), false)
  {
    GainIsMonotone(c, 0.0 - lag, 0.0);
  }

  lemma {:induction false} RepeatLength(key: string, now: real, n: nat)
    ensures |Repeat(key, now, n)| == n
  {
    if n > 0 {
      RepeatLength(key, now, n - 1);
    }
  }

  /** The answers to the last part of a run are those given from where the first part and two calls lead. */
  lemma {:induction false} TailAnswers(c: Limits, s: State, x: seq<Call>, p: Call, q: Call, y: seq<Call>)
    ensures var all := Answers(c, s, x + ([p, q] + y)); var s' := Step(c, Step(c, StateAfter(c, s, x), p), q);
      forall i :: |x| + 2 <= i < |all| ==> all[i] == Answers(c, s', y)[i - |x| - 2]
  {
    AnswersAppend(c, s, x, [p, q] + y);
    assert ([p, q] + y)[1..] == [q] + y && ([q] + y)[1..] == y;
  }

  lemma {:induction false} TailPureAnswers(c: Limits, m: map<string, Bucket>, x: seq<Call>, p: Call, q: Call, y: seq<Call>)
    ensures var all := PureAnswers(c, m, x + ([p, q] + y)); var m' := PureStep(c, PureStep(c, PureAfter(c, m, x), p), q);
      forall i :: 0 <= i < |y| ==> all[|x| + 2 + i] == PureAnswers(c, m', y)[i]
  {
    PureAppend(c, m, x, [p, q] + y);
    assert ([p, q] + y)[1..] == [q] + y && ([q] + y)[1..] == y;
  }

  lemma {:induction false} ProbeClears(c: Limits, lag: real, t: real, s: State)
    requires lag >= 0.0 && t > IDLE && t - lag >= CLEANUP_EVERY
    requires s == State(map["a" := Bucket(0.0, lag)], lag)
    ensures var s' := Step(c, Step(c, s, Call("a", 0.0)), Call("b", t)); "a" !in s'.buckets && s'.lastCleanup == t
  {
    LateReading(c, lag);
    var s1 := Step(c, s, Call("a", 0.0));
    assert s1.buckets["a"].last == 0.0 && s1.lastCleanup == lag && "b" !in s1.buckets;
  }

  lemma {:induction false} ProbeWithCleanup(c: Limits, lag: real, t: real)
    requires lag >= 0.0 && t > IDLE && t - lag >= CLEANUP_EVERY
    ensures var all := Answers(c, State(map[], lag), Probe(c, lag, t));
      |all| == 2 * c.burst + 2 && forall i :: c.burst + 2 <= i < |all| ==> all[i]
  {
    var s0, a, b := State(map[], lag), Call("a", 0.0), Call("b", t);
    var x, y := Repeat("a", lag, c.burst), Repeat("a", t - lag, c.burst);
    RepeatLength("a", lag, c.burst);
    RepeatLength("a", t - lag, c.burst);
    FreshBurst(c, s0, lag);
    var s1 := StateAfter(c, s0, x);
    var s3 := Step(c, Step(c, s1, a), b);
    ProbeClears(c, lag, t, s1);
    FreshBurst(c, s3, t - lag);
    TailAnswers(c, s0, x, a, b, y);
  }

  lemma {:induction false} LateStays(c: Limits, lag: real, t: real, m: map<string, Bucket>)
    requires lag >= 0.0 && m == map["a" := Bucket(0.0, lag)]
    ensures var m' := PureStep(c, PureStep(c, m, Call("a", 0.0)), Call("b", t));
      "a" in m' && m'["a"] == Bucket(Gain(c, 0.0 - lag), 0.0)
  {
    LateReading(c, lag);
  }

  lemma {:induction false} LateIsShort(c: Limits, lag: real, t: real)
    ensures Potential(c, Bucket(Gain(c, 0.0 - lag), 0.0)) + Gain(c, t - lag) == Gain(c, t - 2.0 * lag)
  {
    GainOfDifference(c, t - lag, lag);
    GainOfDifference(c, 0.0, lag);
  }

  lemma {:induction false} LateRefuses(c: Limits, lag: real, t: real, m: map<string, Bucket>)
    requires Gain(c, t - 2.0 * lag) < c.burst as real
    requires "a" in m && m["a"] == Bucket(Gain(c, 0.0 - lag), 0.0)
    ensures !AllTrue(PureAnswers(c, m, Repeat("a", t - lag, c.burst)))
  {
    LateIsShort(c, lag, t);
    PureRepeatIsPlay(c, m, "a", t - lag, c.burst);
    DrainedRefuses(c, m["a"], t - lag);
  }

  lemma {:induction false} ProbeWithoutCleanup(c: Limits, lag: real, t: real)
    requires lag >= 0.0 && Gain(c, t - 2.0 * lag) < c.burst as real
    ensures var all := PureAnswers(c, map[], Probe(c, lag, t));
      |all| == 2 * c.burst + 2 && exists i :: c.burst + 2 <= i < |all| && !all[i]
  {
    var m0: map<string, Bucket> := map[];
    var a, b := Call("a", 0.0), Call("b", t);
    var x, y := Repeat("a", lag, c.burst), Repeat("a", t - lag, c.burst);
    RepeatLength("a", lag, c.burst);
    RepeatLength("a", t - lag, c.burst);
    PureFreshBurst(c, m0, lag);
    var m1 := PureAfter(c, m0, x);
    LateStays(c, lag, t, m1);
    var m3 := PureStep(c, PureStep(c, m1, a), b);
    LateRefuses(c, lag, t, m3);
    TailPureAnswers(c, m0, x, a, b, y);
    var i :| 0 <= i < |y| && !PureAnswers(c, m3, y)[i];
    assert !PureAnswers(c, m0, Probe(c, lag, t))[c.burst + 2 + i];
  }

  lemma {:induction false} NoneYet(c: Limits, lag: real, start: real)
    ensures Similar(c, lag, State(map[], start), map[], start)
  {
  }

  /**
   * For readings that lag the latest one by at most `lag`, the cleanup is invisible if and only if a burst is
   * refilled within 600 s less twice the lag. From a lag of 300 s on it never is.
   */
  lemma {:induction false} CleanupInvisibleExactly(c: Limits, lag: real)
    requires lag >= 0.0
    ensures CleanupInvisible(c, lag) <==> c.burst as real <= (IDLE - 2.0 * lag) * c.rps
  {
    if c.burst as real <= (IDLE - 2.0 * lag) * c.rps {
      forall start: real, calls: seq<Call> | Skewed(lag, start, calls)
        ensures Answers(c, State(map[], start), calls) == PureAnswers(c, map[], calls)
      {
        NoneYet(c, lag, start);
        SimilarAnswersAgree(c, lag, State(map[], start), map[], start, calls);
      }
    } else {
      var t := Between(c, lag);
      BetweenSpec(c, lag);
      ProbeWithCleanup(c, lag, t);
      ProbeWithoutCleanup(c, lag, t);
      ProbeSkewed(c, lag, t);
      var i :| c.burst + 2 <= i < 2 * c.burst + 2 && !PureAnswers(c, map[], Probe(c, lag, t))[i];
      assert Answers(c, State(map[], lag), Probe(c, lag, t))[i];
    }
  }

  /** So the limiter as shipped, cleanup included, gives each key what its own calls alone would get. */
  lemma {:induction false} LimiterIsolatesKeys(c: Limits, lag: real, start: real, calls: seq<Call>, key: string)
    requires lag >= 0.0 && c.burst as real <= (IDLE - 2.0 * lag) * c.rps && Skewed(lag, start, calls) && key != ""
    ensures AnswersOf(calls, Answers(c, State(map[], start), calls), key) == Play(c, None, TimesOf(calls, key))
  {
    NoneYet(c, lag, start);
    SimilarAnswersAgree(c, lag, State(map[], start), map[], start, calls);
    KeysAreIsolated(c, map[], calls, key);
  }

  /** The rate bound of the limiter as shipped: other keys and the cleanup cannot buy a key extra calls. */
  lemma {:induction false} ShippedRateBound(
    c: Limits, lag: real, start: real, calls: seq<Call>, key: string, i: nat, j: nat)
    requires lag >= 0.0 && c.burst as real <= (IDLE - 2.0 * lag) * c.rps && Skewed(lag, start, calls) && key != ""
    requires var answers := AnswersOf(calls, Answers(c, State(map[], start), calls), key);
      i <= j < |answers| && answers[j]
    ensures var answers := AnswersOf(calls, Answers(c, State(map[], start), calls), key); var times := TimesOf(calls, key);
      |answers| == |times| && Count(answers[i..j + 1]) as real <= Allowance(c, times[i], times[j])
  {
    LimiterIsolatesKeys(c, lag, start, calls, key);
    RateBound(c, TimesOf(calls, key), i, j);
  }

  /** And so are the refusals of the limiter as shipped, on every key. */
  lemma {:induction false} ShippedRefusedExactly(c: Limits, lag: real, start: real, calls: seq<Call>, key: string, j: nat)
    requires lag >= 0.0 && c.burst as real <= (IDLE - 2.0 * lag) * c.rps && Skewed(lag, start, calls) && key != ""
    requires j < |AnswersOf(calls, Answers(c, State(map[], start), calls), key)|
    ensures var answers := AnswersOf(calls, Answers(c, State(map[], start), calls), key); var times := TimesOf(calls, key);
      |answers| == |times| && (!answers[j] <==> exists i: nat :: i <= j && Exceeds(c, times, i, j))
  {
    LimiterIsolatesKeys(c, lag, start, calls, key);
    RefusedExactly(c, TimesOf(calls, key), j);
  }

  /** At most one cleanup in 300 s, and it removes exactly the buckets idle for more than 600 s. */
  lemma CleanupIsExact(s: State, now: real, key: string)
    ensures key in Cleanup(s, now).buckets <==>
      key in s.buckets && (now < s.lastCleanup + 300.0 || s.buckets[key].last >= now - 600.0)
    ensures Cleanup(s, now).lastCleanup == (if now < s.lastCleanup + 300.0 then s.lastCleanup else now)
    ensures key in Cleanup(s, now).buckets ==> Cleanup(s, now).buckets[key] == s.buckets[key]
  {
  }

  class Limiter {
    var enabled: bool
    var limits: Limits
    var buckets: map<string, Bucket>
    var lastCleanup: real

    ghost function Abs(): State
      reads this
    {
      State(buckets, lastCleanup)
    }

    /** Settings that are not positive give 20 calls a second and a burst of 40. */
    constructor (enabled: bool, perIPRPS: real, perIPBurst: int, now: real)
      ensures limits.rps == (if perIPRPS <= 0.0 then 20.0 else perIPRPS)
      ensures limits.burst == (if perIPBurst <= 0 then 40 else perIPBurst)
      ensures this.enabled == enabled && limits == NewLimits(perIPRPS, perIPBurst)
      ensures Abs() == State(map[], now)
    {
      this.enabled := enabled;
      limits := NewLimits(perIPRPS, perIPBurst);
      buckets, lastCleanup := map[], now;
    }

    method Allow(key: string, now: real) returns (ok: bool)
      modifies this`buckets, this`lastCleanup
      ensures ok == (!enabled || Answer(limits, old(buckets), Call(key, now)))
      ensures Abs() == if enabled then Step(limits, old(Abs()), Call(key, now)) else old(Abs())
    {
      if !enabled || key == "" {
        return true;
      }
      if key !in buckets {
        buckets := buckets[key := Bucket(limits.burst as real - 1.0, now)];
        MaybeCleanup(now);
        return true;
      }
      var b := buckets[key];
      var elapsed := now - b.last;
      var tokens := b.tokens + elapsed * limits.rps;
      if tokens > limits.burst as real {
        tokens := limits.burst as real;
      }
      assert elapsed * limits.rps == Gain(limits, now - b.last);
      if tokens < 1.0 {
        buckets := buckets[key := Bucket(tokens, now)];
        return false;
      }
      buckets := buckets[key := Bucket(tokens - 1.0, now)];
      return true;
    }

    method MaybeCleanup(now: real)
      modifies this`buckets, this`lastCleanup
      ensures Abs() == Cleanup(old(Abs()), now)
    {
      if now - lastCleanup < CLEANUP_EVERY {
        return;
      }
      lastCleanup := now;
      var cutoff := now - IDLE;
      var todo := buckets.Keys;
      while todo != {}
        invariant todo <= old(buckets).Keys && lastCleanup == now
        invariant buckets == map k | k in old(buckets) && (k in todo || !(old(buckets)[k].last < cutoff)) :: old(buckets)[k]
        decreases |todo|
      {
        var k :| k in todo;
        todo := todo - {k};
        if buckets[k].last < cutoff {
          buckets := buckets - {k};
        }
      }
    }

    method Reset()
      modifies this`buckets
      ensures buckets == map[]
    {
      buckets := map[];
    }

    method Update(enabled: bool, perIPRPS: real, perIPBurst: int)
      modifies this`enabled, this`limits, this`buckets
      ensures this.enabled == enabled && limits == NewLimits(perIPRPS, perIPBurst) && buckets == map[]
      ensures limits.rps == (if perIPRPS <= 0.0 then 20.0 else perIPRPS)
      ensures limits.burst == (if perIPBurst <= 0 then 40 else perIPBurst)
    {
      this.enabled := enabled;
      limits := NewLimits(perIPRPS, perIPBurst);
      buckets := map[];
    }
  }
}
