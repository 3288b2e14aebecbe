/** What internal/record/queue.go promises, for every interleaving from a new queue. */
module QueueGuarantees {
  import opened Common
  import opened Record
  import opened QueueProtocol

  lemma {:induction false} RunAppend(p: Params, s: State, a: seq<Step>, b: seq<Step>)
    ensures Run(p, s, a + b) == Run(p, Run(p, s, a), b)
    decreases |a|
  {
    if a == [] {
      assert a + b == b;
    } else {
      assert (a + b)[1..] == a[1..] + b;
      RunAppend(p, Apply(p, s, a[0]), a[1..], b);
    }
  }

  lemma RunSnoc(p: Params, s: State, a: seq<Step>, x: Step)
    ensures Run(p, s, a + [x]) == Apply(p, Run(p, s, a), x)
  {
    RunAppend(p, s, a, [x]);
    var s1 := Run(p, s, a);
    assert Run(p, s1, [x]) == Run(p, Apply(p, s1, x), []);
  }

  lemma ReachableInv(p: Params, steps: seq<Step>)
    ensures Inv(p, Run(p, INIT, steps))
  {
    InitInv(p);
    RunKeeps(p, INIT, steps);
  }

  lemma {:induction false} EventsSize(bs: seq<Settled>)
    ensures |Events(bs)| == Volume(bs, true) + Volume(bs, false)
  {
    if bs != [] {
      EventsSize(bs[..|bs| - 1]);
    }
  }

  /**
   * Conservation and exact FIFO. Settled batches, the batch being written, the pending batch and the
   * channel spell out the enqueued events in order; every Emit that saw the queue open is written,
   * dropped or still in one of the later stages; no batch is empty or larger than batchN, and no batch is
   * given up before its last attempt.
   */
  lemma Conservation(p: Params, steps: seq<Step>)
    ensures var w := Run(p, INIT, steps).w;
      && Events(w.settled) + InFlight(w.worker) + w.batch + w.ch == w.enqueued
      && |w.accepted| == w.written + w.dropped + |InFlight(w.worker)| + |w.batch| + |w.ch|
      && multiset(w.accepted) == multiset(w.enqueued) + multiset(w.overflow)
      && |w.batch| < p.batchN && |w.ch| <= p.buffer
      && (forall b :: b in w.settled ==> 1 <= |b.events| <= p.batchN && TriesFit(p, b.ok, b.tries))
  {
    var w := Run(p, INIT, steps).w;
    ReachableInv(p, steps);
    EventsSize(w.settled);
    assert |w.accepted| == |multiset(w.accepted)| == |w.enqueued| + |w.overflow|;
  }

  /** The counters: what the sink took, in order, is what `written` counts, up to one batch not yet added. */
  lemma CountersMeanBatches(p: Params, steps: seq<Step>)
    ensures var w := Run(p, INIT, steps).w;
      var pending := if w.worker.Counting? && w.worker.ok then w.worker.out else [];
      && |Flatten(w.sunk)| == w.written + |pending|
      && (!p.hasSink ==> w.sunk == [])
  {
    var w := Run(p, INIT, steps).w;
    ReachableInv(p, steps);
    TakenSize(w.settled);
    if w.worker.Counting? && w.worker.ok {
      FlattenSnoc(Taken(w.settled), w.worker.out);
    } else {
      assert w.sunk == Taken(w.settled) + [] == Taken(w.settled);
    }
    if !p.hasSink {
      NothingTaken(p, w.settled);
    }
  }

  lemma {:induction false} TakenSize(bs: seq<Settled>)
    ensures |Flatten(Taken(bs))| == Volume(bs, true)
  {
    if bs != [] {
      TakenSize(bs[..|bs| - 1]);
      var before := Taken(bs[..|bs| - 1]);
      if bs[|bs| - 1].ok {
        FlattenSnoc(before, bs[|bs| - 1].events);
      } else {
        assert Taken(bs) == before + [] == before;
      }
    }
  }

  lemma {:induction false} NothingTaken(p: Params, bs: seq<Settled>)
    requires !p.hasSink && forall b :: b in bs ==> TriesFit(p, b.ok, b.tries)
    ensures Taken(bs) == []
  {
    if bs != [] {
      assert bs[|bs| - 1] in bs;
      NothingTaken(p, bs[..|bs| - 1]);
    }
  }

  /** No interleaving sends on the closed channel, closes it twice, or drives the WaitGroup negative. */
  lemma NeverPanics(p: Params, steps: seq<Step>)
    ensures !Run(p, INIT, steps).panicked
  {
    ReachableInv(p, steps);
  }

  lemma HolderLeaves(c: Control, wg: int, wg': int, t: Tid, now: int)
    requires ControlInv(c) && c.lock == Some(t)
    ensures var c1 := CallerControl(c, wg, t, now);
      c1.lock == None || CallerControl(c1, wg', t, now).lock == None
  {
    assert Local(c, t, PcOf(c, t));
  }

  /** emitMu is free again after at most two actions of its owner, so Emit never waits on the sink. */
  lemma LockIsShort(p: Params, steps: seq<Step>, t: Tid, now: int)
    requires Run(p, INIT, steps).c.lock == Some(t)
    ensures var s := Run(p, INIT, steps);
      var s1 := Apply(p, s, Advance(t, now));
      s1.c.lock == None || Apply(p, s1, Advance(t, now)).c.lock == None
  {
    var s := Run(p, INIT, steps);
    ReachableInv(p, steps);
    var s1 := Apply(p, s, Advance(t, now));
    HolderLeaves(s.c, s.w.wg, s1.w.wg, t, now);
    CallerKeepsControl(s.c, s.w.wg, t, now);
    CallerKeepsControl(s1.c, s1.w.wg, t, now);
  }

  // ---- after Close ----

  lemma ClosedCaller(p: Params, s: State, t: Tid, now: int)
    requires ControlInv(s.c) && s.c.closed
    ensures CallerPipe(p, s.w, PcOf(s.c, t)) == s.w
    ensures var c' := CallerControl(s.c, s.w.wg, t, now);
      c'.closed && (s.c.chClosed ==> c'.chClosed) && (s.c.stopOnce == Finished ==> c'.stopOnce == Finished)
  {
    assert Local(s.c, t, PcOf(s.c, t));
  }

  lemma WorkerAcceptsNothing(p: Params, w: Pipe, chClosed: bool, step: Step)
    ensures var w' := WorkerStep(p, w, chClosed, step);
      && w'.accepted == w.accepted
      && (w.worker.NotStarted? || w.worker.Exited? ==> w' == w)
  {
  }

  lemma ClosedStep(p: Params, s: State, step: Step)
    requires Inv(p, s) && s.c.closed
    ensures var s' := Apply(p, s, step);
      && s'.c.closed
      && (s.c.chClosed ==> s'.c.chClosed)
      && s'.w.accepted == s.w.accepted
      && (s.w.worker.NotStarted? ==> s'.w.worker.NotStarted?)
      && (step.Invoke? || step.Advance? ==> s'.w == s.w)
      && (s.c.stopOnce == Finished ==> s'.c.stopOnce == Finished && s'.w == s.w)
  {
    if step.Advance? {
      CallerKeepsControl(s.c, s.w.wg, step.t, step.now);
      ClosedCaller(p, s, step.t, step.now);
    } else if !step.Invoke? {
      WorkerAcceptsNothing(p, s.w, s.c.chClosed, step);
    }
  }

  /** Once `closed` is stored nothing more is accepted and no worker starts. */
  lemma {:induction false} ClosedRun(p: Params, s: State, steps: seq<Step>)
    requires Inv(p, s) && s.c.closed
    ensures var s' := Run(p, s, steps);
      && s'.c.closed
      && s'.w.accepted == s.w.accepted
      && (s.w.worker.NotStarted? ==> s'.w.worker.NotStarted?)
      && (s.c.stopOnce == Finished ==> s'.w == s.w)
    decreases |steps|
  {
    if steps != [] {
      ClosedStep(p, s, steps[0]);
      StepKeeps(p, s, steps[0]);
      ClosedRun(p, Apply(p, s, steps[0]), steps[1..]);
    }
  }

  lemma NothingAcceptedLater(p: Params, before: seq<Step>, after: seq<Step>)
    requires Run(p, INIT, before).c.closed
    ensures Run(p, INIT, before + after).w.accepted == Run(p, INIT, before).w.accepted
  {
    ReachableInv(p, before);
    ClosedRun(p, Run(p, INIT, before), after);
    RunAppend(p, INIT, before, after);
  }

  /**
   * Shutdown. When Close has returned, either a worker ran: then channel and batch are empty and every
   * Emit accepted before Close is written or dropped; or none ever started: then nothing was written and
   * what sits in the channel is in no counter. Whatever is called afterwards changes none of this.
   */
  lemma Shutdown(p: Params, steps: seq<Step>, later: seq<Step>)
    requires Run(p, INIT, steps).c.stopOnce == Finished
    ensures var w := Run(p, INIT, steps).w;
      && Run(p, INIT, steps + later).w == w
      && w.wg == 0 && w.batch == [] && InFlight(w.worker) == []
      && (w.worker.Exited? || w.worker.NotStarted?)
      && (w.worker.Exited? ==> w.ch == [] && w.written + w.dropped == |w.accepted|)
      && (w.worker.NotStarted? ==>
            w.written == 0 && w.dropped == |w.overflow| && |w.accepted| == w.dropped + |w.ch|)
  {
    var s := Run(p, INIT, steps);
    ReachableInv(p, steps);
    Conservation(p, steps);
    ClosedRun(p, s, later);
    RunAppend(p, INIT, steps, later);
  }

  lemma NeverTaken(p: Params, steps: seq<Step>)
    requires Run(p, INIT, steps).w.worker.NotStarted?
    ensures Run(p, INIT, steps).w.ch == Run(p, INIT, steps).w.enqueued
  {
    ReachableInv(p, steps);
    var w := Run(p, INIT, steps).w;
    assert Events(w.settled) + InFlight(w.worker) + w.batch + w.ch == w.ch;
  }

  /** A returned Close has accounted for every accepted event if and only if a worker ran or nothing was ever enqueued. */
  lemma CloseAccountsExactly(p: Params, steps: seq<Step>)
    requires Run(p, INIT, steps).c.stopOnce == Finished
    ensures var w := Run(p, INIT, steps).w;
      w.written + w.dropped == |w.accepted| <==> w.worker.Exited? || w.enqueued == []
  {
    Shutdown(p, steps, []);
    Conservation(p, steps);
    if Run(p, INIT, steps).w.worker.NotStarted? {
      NeverTaken(p, steps);
    }
  }

  lemma {:induction false} StartedStays(p: Params, s: State, steps: seq<Step>)
    requires !s.w.worker.NotStarted?
    ensures !Run(p, s, steps).w.worker.NotStarted?
    decreases |steps|
  {
    if steps != [] {
      StartedStays(p, Apply(p, s, steps[0]), steps[1..]);
    }
  }

  /** If a worker ran before Close returned, Close drained everything: `written` and `dropped` cover every Emit. */
  lemma CloseDrainsAfterStart(p: Params, before: seq<Step>, after: seq<Step>)
    requires !Run(p, INIT, before).w.worker.NotStarted?
    requires Run(p, INIT, before + after).c.stopOnce == Finished
    ensures var w := Run(p, INIT, before + after).w;
      w.ch == [] && w.batch == [] && w.worker.Exited? && w.written + w.dropped == |w.accepted|
  {
    RunAppend(p, INIT, before, after);
    StartedStays(p, Run(p, INIT, before), after);
    Shutdown(p, before + after, []);
  }

  // ---- calls that run without interruption ----

  function EmitSteps(t: Tid, e: Event, now: int): seq<Step> {
    [Invoke(t, Emit(e)), Advance(t, now), Advance(t, now), Advance(t, now)]
  }

  /** Start's four actions. */
  function StartSteps(t: Tid): seq<Step> {
    [Invoke(t, Start), Advance(t, 0), Advance(t, 0), Advance(t, 0), Advance(t, 0)]
  }

  /** Close up to wg.Wait. */
  function CloseSteps(t: Tid): seq<Step> {
    [Invoke(t, Close), Advance(t, 0), Advance(t, 0), Advance(t, 0), Advance(t, 0)]
  }

  lemma Run4(p: Params, s: State, a: Step, b: Step, c: Step, d: Step)
    ensures Run(p, s, [a, b, c, d]) == Apply(p, Apply(p, Apply(p, Apply(p, s, a), b), c), d)
  {
    RunSnoc(p, s, [], a);
    RunSnoc(p, s, [a], b);
    RunSnoc(p, s, [a, b], c);
    RunSnoc(p, s, [a, b, c], d);
    assert [] + [a] == [a] && [a] + [b] == [a, b] && [a, b] + [c] == [a, b, c] && [a, b, c] + [d] == [a, b, c, d];
  }

  lemma Run5(p: Params, s: State, a: Step, b: Step, c: Step, d: Step, e: Step)
    ensures Run(p, s, [a, b, c, d, e]) == Apply(p, Apply(p, Apply(p, Apply(p, Apply(p, s, a), b), c), d), e)
  {
    Run4(p, s, a, b, c, d);
    RunSnoc(p, s, [a, b, c, d], e);
    assert [a, b, c, d] + [e] == [a, b, c, d, e];
  }

  /** emitMu is free and goroutine t is between calls. */
  ghost predicate Quiet(s: State, t: Tid) {
    !s.panicked && s.c.lock == None && PcOf(s.c, t) == Idle
  }

  function AtIdle(c: Control, t: Tid): Control {
    Goto(c, t, Idle)
  }

  lemma EmitAlone(p: Params, s: State, t: Tid, e: Event, now: int)
    requires Quiet(s, t) && (s.c.chClosed ==> s.c.closed)
    ensures Run(p, s, EmitSteps(t, e, now)) ==
      State(AtIdle(s.c, t), if s.c.closed then s.w else Select(p, s.w, Stamp(e, now)), false)
  {
    var c := s.c;
    Run4(p, s, Invoke(t, Emit(e)), Advance(t, now), Advance(t, now), Advance(t, now));
    var s1 := Apply(p, s, Invoke(t, Emit(e)));
    assert s1 == s.(c := Goto(c, t, EmitLock(e)));
    var s2 := Apply(p, s1, Advance(t, now));
    assert s2.c.pc == c.pc[t := EmitCheck(e)];
    assert s2 == s.(c := Goto(c, t, EmitCheck(e)).(lock := Some(t)));
    var s3 := Apply(p, s2, Advance(t, now));
    if !c.closed {
      assert s3.c.pc == c.pc[t := EmitSelect(Stamp(e, now))];
      assert Apply(p, s3, Advance(t, now)).c.pc == c.pc[t := Idle];
    } else {
      assert s3.c.pc == c.pc[t := Idle];
    }
  }

  lemma StartAlone(p: Params, s: State, t: Tid)
    requires Quiet(s, t) && s.c.startOnce in {Fresh, Finished}
    ensures Run(p, s, StartSteps(t)) ==
      if s.c.startOnce == Finished then State(AtIdle(s.c, t), s.w, false)
      else State(AtIdle(s.c, t).(startOnce := Finished),
                 if s.c.closed then s.w else s.w.(wg := s.w.wg + 1, worker := Selecting), false)
  {
    var c := s.c;
    Run5(p, s, Invoke(t, Start), Advance(t, 0), Advance(t, 0), Advance(t, 0), Advance(t, 0));
    var s1 := Apply(p, s, Invoke(t, Start));
    var s2 := Apply(p, s1, Advance(t, 0));
    var s3 := Apply(p, s2, Advance(t, 0));
    if c.startOnce == Finished {
      assert s2.c.pc == c.pc[t := Idle];
    } else {
      assert s2.c.pc == c.pc[t := StartLock];
      assert s3.c.pc == c.pc[t := StartCheck];
      var s4 := Apply(p, s3, Advance(t, 0));
      if c.closed {
        assert s4.c.pc == c.pc[t := Idle];
      } else {
        assert s4.c.pc == c.pc[t := StartSpawn];
        assert Apply(p, s4, Advance(t, 0)).c.pc == c.pc[t := Idle];
      }
    }
  }

  /** The same from a reachable state, where a Once not yet used means there is no worker. */
  lemma StartTakes(p: Params, steps: seq<Step>, t: Tid)
    requires Quiet(Run(p, INIT, steps), t) && Run(p, INIT, steps).c.startOnce in {Fresh, Finished}
    ensures var s := Run(p, INIT, steps); var s' := Run(p, INIT, steps + StartSteps(t));
      && !s'.panicked && s'.c == AtIdle(s.c, t).(startOnce := Finished)
      && s'.w == (if s.c.startOnce == Finished || s.c.closed then s.w else s.w.(wg := 1, worker := Selecting))
      && (s.c.startOnce == Fresh ==> s.w.wg == 0)
  {
    ReachableInv(p, steps);
    RunAppend(p, INIT, steps, StartSteps(t));
    StartAlone(p, Run(p, INIT, steps), t);
  }

  /** A second Close finds the Once finished and returns. */
  lemma SecondClose(p: Params, s: State, t: Tid)
    requires Quiet(s, t) && s.c.stopOnce == Finished
    ensures Run(p, s, [Invoke(t, Close), Advance(t, 0)]) == State(AtIdle(s.c, t), s.w, false)
  {
    RunSnoc(p, s, [], Invoke(t, Close));
    RunSnoc(p, s, [Invoke(t, Close)], Advance(t, 0));
    assert [] + [Invoke(t, Close)] == [Invoke(t, Close)];
    assert [Invoke(t, Close)] + [Advance(t, 0)] == [Invoke(t, Close), Advance(t, 0)];
    var s2 := Apply(p, Apply(p, s, Invoke(t, Close)), Advance(t, 0));
    assert s2.c.pc == s.c.pc[t := Idle];
  }

  lemma CloseAlone(p: Params, s: State, t: Tid)
    requires Quiet(s, t) && s.c.stopOnce == Fresh && !s.c.chClosed
    ensures Run(p, s, CloseSteps(t)) ==
      State(Goto(s.c, t, CloseWait).(stopOnce := Running(t), closed := true, chClosed := true), s.w, false)
  {
    var c := s.c;
    Run5(p, s, Invoke(t, Close), Advance(t, 0), Advance(t, 0), Advance(t, 0), Advance(t, 0));
    var s2 := Apply(p, Apply(p, s, Invoke(t, Close)), Advance(t, 0));
    assert s2.c.pc == c.pc[t := CloseLock];
    var s3 := Apply(p, s2, Advance(t, 0));
    assert s3.c.pc == c.pc[t := CloseFlag];
    var s4 := Apply(p, s3, Advance(t, 0));
    assert s4.c.pc == c.pc[t := CloseChan];
    assert Apply(p, s4, Advance(t, 0)).c.pc == c.pc[t := CloseWait];
  }

  lemma WaitOver(p: Params, s: State, t: Tid)
    requires !s.panicked && PcOf(s.c, t) == CloseWait && s.w.wg == 0
    ensures Apply(p, s, Advance(t, 0)) == s.(c := AtIdle(s.c, t).(stopOnce := Finished))
  {
  }

  /** Close without Start leaves events behind, counted nowhere: the comment on Close promises a drain. */
  lemma CloseWithoutStartLosesEvents(p: Params, e: Event) returns (steps: seq<Step>)
    ensures var s := Run(p, INIT, steps);
      s.c.stopOnce == Finished && s.w.written + s.w.dropped < |s.w.accepted|
  {
    var emit, close := EmitSteps(0, e, 0), CloseSteps(0);
    EmitAlone(p, INIT, 0, e, 0);
    var s1 := Run(p, INIT, emit);
    CloseAlone(p, s1, 0);
    var s2 := Run(p, s1, close);
    WaitOver(p, s2, 0);
    steps := emit + close + [Advance(0, 0)];
    RunAppend(p, INIT, emit, close);
    RunSnoc(p, INIT, emit + close, Advance(0, 0));
  }

  // ---- how much work is left once the channel is closed ----

  predicate Busy(p: Params, s: State, step: Step) {
    !step.Invoke? && !step.Advance? && Apply(p, s, step) != s
  }

  /** Effective worker actions in a run; a tick on an empty batch is not one. */
  function BusySteps(p: Params, s: State, steps: seq<Step>): nat
    decreases |steps|
  {
    if steps == [] then 0
    else (if Busy(p, s, steps[0]) then 1 else 0) + BusySteps(p, Apply(p, s, steps[0]), steps[1..])
  }

  function Receives(p: Params, s: State, steps: seq<Step>): nat
    decreases |steps|
  {
    if steps == [] then 0
    else (if steps[0].Receive? && Busy(p, s, steps[0]) then 1 else 0) + Receives(p, Apply(p, s, steps[0]), steps[1..])
  }

  function ReceivesLeft(w: Pipe): nat {
    if w.worker.NotStarted? || w.worker.Exited? || (!w.worker.Selecting? && w.worker.last) then 0
    else |w.ch| + 1
  }

  /** One receive per buffered event and one for the close; a tick, maxAttempts writes and a count per flush. */
  function WorkLeft(p: Params, w: Pipe): int {
    match w.worker
    case NotStarted => 0
    case Exited => 0
    case Selecting => ReceivesLeft(w) + (p.maxAttempts + 2) * (|w.ch| + |w.batch|)
    case Writing(_, k, _) => p.maxAttempts - k + 2 + ReceivesLeft(w) + (p.maxAttempts + 2) * |w.ch|
    case Counting(_, _, _, _) => 1 + ReceivesLeft(w) + (p.maxAttempts + 2) * |w.ch|
  }

  lemma FlushCosts(f: int, n: int, m: int)
    requires f >= 1 && n >= 1 && m >= 0
    ensures f * (m + n) >= f * m + f && f * m >= 0
  {
    assert f * (m + n) == f * m + f * n;
    assert f * n == f + f * (n - 1);
  }

  lemma ReceiveDecreases(p: Params, w: Pipe)
    requires BatchInv(p, w) && w.worker.Selecting?
    ensures var w' := WorkerStep(p, w, true, Receive);
      WorkLeft(p, w') < WorkLeft(p, w) && ReceivesLeft(w') < ReceivesLeft(w)
  {
    var w' := WorkerStep(p, w, true, Receive);
    if w.ch != [] {
      assert |w.ch| + |w.batch| == |w'.ch| + (|w.batch| + 1);
      FlushCosts(p.maxAttempts + 2, |w.batch| + 1, |w'.ch|);
    } else if |w.batch| > 0 {
      FlushCosts(p.maxAttempts + 2, |w.batch|, |w.ch|);
    }
  }

  lemma TickDecreases(p: Params, w: Pipe)
    requires BatchInv(p, w) && w.worker.Selecting? && w.batch != []
    ensures var w' := WorkerStep(p, w, true, Tick);
      WorkLeft(p, w') < WorkLeft(p, w) && ReceivesLeft(w') <= ReceivesLeft(w)
  {
    FlushCosts(p.maxAttempts + 2, |w.batch|, |w.ch|);
  }

  lemma FlushDecreases(p: Params, w: Pipe, step: Step)
    requires BatchInv(p, w) && (w.worker.Writing? || w.worker.Counting?) && WorkerStep(p, w, true, step) != w
    ensures var w' := WorkerStep(p, w, true, step);
      WorkLeft(p, w') < WorkLeft(p, w) && ReceivesLeft(w') <= ReceivesLeft(w) && !step.Receive?
  {
  }

  lemma BusyDecreases(p: Params, s: State, step: Step)
    requires Inv(p, s) && s.c.chClosed && Busy(p, s, step)
    ensures var w' := Apply(p, s, step).w;
      && WorkLeft(p, w') < WorkLeft(p, s.w)
      && ReceivesLeft(w') <= ReceivesLeft(s.w) - (if step.Receive? then 1 else 0)
  {
    WorkerKeepsBatches(p, s, step);
    assert WorkerStep(p, s.w, true, step) != s.w;
    if step.Receive? {
      ReceiveDecreases(p, s.w);
    } else if step.Tick? {
      TickDecreases(p, s.w);
    } else {
      FlushDecreases(p, s.w, step);
    }
  }

  lemma ProductNonneg(f: int, n: int)
    requires f >= 0 && n >= 0
    ensures f * n >= 0
  {
  }

  lemma WorkLeftNonneg(p: Params, w: Pipe)
    requires BatchInv(p, w)
    ensures WorkLeft(p, w) >= 0
  {
    ProductNonneg(p.maxAttempts + 2, |w.ch|);
    ProductNonneg(p.maxAttempts + 2, |w.ch| + |w.batch|);
  }

  /**
   * The drain is bounded in every interleaving: once the channel is closed the worker makes at most
   * |channel| + 1 more receives, and at most WorkLeft actions in all.
   */
  lemma {:induction false} DrainBound(p: Params, s: State, steps: seq<Step>)
    requires Inv(p, s) && s.c.chClosed
    ensures Receives(p, s, steps) <= ReceivesLeft(s.w) <= |s.w.ch| + 1
    ensures BusySteps(p, s, steps) <= WorkLeft(p, s.w)
    decreases |steps|
  {
    WorkLeftNonneg(p, s.w);
    if steps != [] {
      var s1 := Apply(p, s, steps[0]);
      StepKeeps(p, s, steps[0]);
      ClosedStep(p, s, steps[0]);
      if Busy(p, s, steps[0]) {
        BusyDecreases(p, s, steps[0]);
      }
      assert ReceivesLeft(s1.w) <= ReceivesLeft(s.w) && WorkLeft(p, s1.w) <= WorkLeft(p, s.w);
      DrainBound(p, s1, steps[1..]);
    }
  }

  function NextWorkerStep(w: Pipe): Step {
    if w.worker.Writing? then Attempt(false) else if w.worker.Counting? then Count else Receive
  }

  /** A live worker can always act once the channel is closed, whatever the sink answers. */
  lemma WorkerNotStuck(p: Params, s: State)
    requires Inv(p, s) && s.c.chClosed && !s.w.worker.NotStarted? && !s.w.worker.Exited?
    ensures Busy(p, s, NextWorkerStep(s.w))
    ensures s.w.worker.Writing? ==> Busy(p, s, Attempt(true))
  {
    var w := s.w;
    if w.worker.Selecting? && w.ch != [] {
      assert |Apply(p, s, Receive).w.ch| < |w.ch|;
    }
  }

  /** So a Close waiting for the worker returns, after at most WorkLeft further worker actions. */
  lemma {:induction false} CloseFinishes(p: Params, s: State, t: Tid) returns (steps: seq<Step>)
    requires Inv(p, s) && PcOf(s.c, t) == CloseWait
    ensures |steps| <= WorkLeft(p, s.w) + 1
    ensures Run(p, s, steps).c.stopOnce == Finished && PcOf(Run(p, s, steps).c, t) == Idle
    decreases WorkLeft(p, s.w)
  {
    assert Local(s.c, t, PcOf(s.c, t));
    WorkLeftNonneg(p, s.w);
    if s.w.worker.NotStarted? || s.w.worker.Exited? {
      steps := [Advance(t, 0)];
      RunSnoc(p, s, [], Advance(t, 0));
      assert [] + [Advance(t, 0)] == steps;
    } else {
      var step := NextWorkerStep(s.w);
      WorkerNotStuck(p, s);
      BusyDecreases(p, s, step);
      StepKeeps(p, s, step);
      var rest := CloseFinishes(p, Apply(p, s, step), t);
      steps := [step] + rest;
    }
  }
}
