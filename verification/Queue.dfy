/**
 * internal/record/queue.go, method by method, each run without interruption.
 * `trace` records which steps of QueueProtocol a method takes; the fields always show the protocol state
 * that this trace leads to, so what is proved there for every interleaving holds of the object.
 */
module Queue {
  import opened Common
  import opened Record
  import opened QueueProtocol
  import opened QueueGuarantees

  class Queue {
    const p: Params
    /** Whether the n-th call of sink.WriteBatch succeeds. */
    const answers: nat -> bool

    var ch: seq<Event>
    var closed: bool
    var chClosed: bool
    var started: bool
    var stopped: bool
    var wg: int
    var batch: seq<Event>
    var written: int
    var dropped: int
    var sinkCalls: nat
    ghost var trace: seq<Step>

    ghost function M(): State
      reads this
    {
      Run(p, INIT, trace)
    }

    ghost predicate Matches(w: Pipe)
      reads this
    {
      && ch == w.ch && batch == w.batch && wg == w.wg
      && written == w.written && dropped == w.dropped
    }

    /** No call is under way and the worker, if any, is at its select. */
    ghost predicate Valid()
      reads this
    {
      && Matches(M().w)
      && closed == M().c.closed && chClosed == M().c.chClosed == closed
      && M().c.startOnce == (if started then Finished else Fresh)
      && M().c.stopOnce == (if stopped then Finished else Fresh)
      && stopped == closed
      && !M().w.worker.Writing? && !M().w.worker.Counting?
      && Quiet(M(), 0)
    }

    constructor (buffer: int, batchSize: int, maxAttempts: int, hasSink: bool, answers: nat -> bool)
      ensures Valid() && trace == []
      ensures p.buffer == (if buffer <= 0 then 4096 else buffer)
      ensures p.batchN == (if batchSize <= 0 then 200 else batchSize)
      ensures p.maxAttempts == (if maxAttempts <= 0 then 3 else maxAttempts)
      ensures p.hasSink == hasSink && this.answers == answers
    {
      p := Options(
        if buffer <= 0 then 4096 else buffer,
        if batchSize <= 0 then 200 else batchSize,
        if maxAttempts <= 0 then 3 else maxAttempts,
        hasSink);
      this.answers := answers;
      ch, closed, chClosed, started, stopped := [], false, false, false, false;
      wg, batch, written, dropped, sinkCalls := 0, [], 0, 0, 0;
      trace := [];
    }

    method Start()
      requires Valid()
      modifies this
      ensures Valid()
      ensures trace == old(trace) + StartSteps(0)
      ensures started && wg == (if old(started) || closed then old(wg) else 1)
      ensures M().w.worker == (if old(started) || closed then old(M()).w.worker else Selecting)
    {
      StartTakes(p, trace, 0);
      if !started {
        started := true;
        if !closed {
          wg := wg + 1;
        }
      }
      trace := trace + StartSteps(0);
    }

    /** Emit never blocks: it sends, counts a drop on a full channel, or does nothing after Close. */
    method Emit(e: Event, now: int)
      requires Valid()
      modifies this
      ensures Valid()
      ensures trace == old(trace) + EmitSteps(0, e, now)
      ensures ch == if closed || |old(ch)| >= p.buffer then old(ch) else old(ch) + [Stamp(e, now)]
      ensures |ch| > |old(ch)| ==> ch[|ch| - 1] == e.(ts := Some(if e.ts.Some? then e.ts.value else now))
      ensures dropped == old(dropped) + (if !closed && |old(ch)| >= p.buffer then 1 else 0)
      ensures closed == old(closed) && batch == old(batch) && written == old(written) && wg == old(wg)
    {
      EmitAlone(p, M(), 0, e, now);
      RunAppend(p, INIT, trace, EmitSteps(0, e, now));
      if !closed {
        var stamped := if e.ts.None? then e.(ts := Some(now)) else e;
        if |ch| < p.buffer {
          ch := ch + [stamped];
        } else {
          dropped := dropped + 1;
        }
      }
      trace := trace + EmitSteps(0, e, now);
    }

    ghost method Note(step: Step)
      requires !M().panicked && !step.Invoke? && !step.Advance?
      requires WorkerStep(p, M().w, M().c.chClosed, step).wg >= 0
      modifies this`trace
      ensures trace == old(trace) + [step] && !M().panicked && M().c == old(M()).c
      ensures M().w == WorkerStep(p, old(M()).w, M().c.chClosed, step)
    {
      RunSnoc(p, INIT, trace, step);
      trace := trace + [step];
    }

    /**
     * The protocol has just begun this flush from the pipe `w`. The batch goes to the sink until it is taken or
     * maxAttempts calls have failed, and then to one counter.
     */
    method Flush(ghost w: Pipe, ghost last: bool)
      requires Matches(w) && w.worker.Selecting? && w.wg == 1
      requires M().w == BeginFlush(p, w, last) && !M().panicked
      modifies this`batch, this`written, this`dropped, this`sinkCalls, this`trace
      ensures old(trace) <= trace && M().c == old(M()).c && !M().panicked
      ensures batch == [] && Matches(M().w.(wg := wg))
      ensures M().w.ch == w.ch && M().w.wg == (if last then 0 else 1)
      ensures M().w.worker == (if last then Exited else Selecting)
      ensures old(batch) == [] || !p.hasSink ==> sinkCalls == old(sinkCalls)
      ensures old(batch) != [] && p.hasSink ==>
        && old(sinkCalls) < sinkCalls <= old(sinkCalls) + p.maxAttempts
        && (forall n :: old(sinkCalls) <= n < sinkCalls - 1 ==> !answers(n))
        && (!answers(sinkCalls - 1) ==> sinkCalls == old(sinkCalls) + p.maxAttempts)
      ensures var taken := old(batch) != [] && p.hasSink && answers(sinkCalls - 1);
        && written == old(written) + (if taken then |old(batch)| else 0)
        && dropped == old(dropped) + (if taken then 0 else |old(batch)|)
        && M().w.sunk == w.sunk + (if taken then [old(batch)] else [])
    {
      if |batch| == 0 {
        return;
      }
      if !p.hasSink {
        dropped := dropped + |batch|;
        batch := [];
        Note(Count);
        return;
      }
      var out := batch;
      batch := [];
      Deliver(w, last, out);
    }

    /** The retry loop of flush: at most maxAttempts calls of the sink, the last of them decides the counter. */
    method Deliver(ghost w: Pipe, ghost last: bool, out: seq<Event>)
      requires written == w.written && dropped == w.dropped && w.wg == 1 && ch == w.ch && batch == []
      requires M().w == w.(worker := Writing(out, 1, last), batch := []) && !M().panicked
      modifies this`written, this`dropped, this`sinkCalls, this`trace
      ensures old(trace) <= trace && M().c == old(M()).c && !M().panicked
      ensures Matches(M().w.(wg := wg))
      ensures M().w.ch == w.ch && M().w.wg == (if last then 0 else 1)
      ensures M().w.worker == (if last then Exited else Selecting)
      ensures old(sinkCalls) < sinkCalls <= old(sinkCalls) + p.maxAttempts
      ensures forall n :: old(sinkCalls) <= n < sinkCalls - 1 ==> !answers(n)
      ensures !answers(sinkCalls - 1) ==> sinkCalls == old(sinkCalls) + p.maxAttempts
      ensures var taken := answers(sinkCalls - 1);
        && written == old(written) + (if taken then |out| else 0)
        && dropped == old(dropped) + (if taken then 0 else |out|)
        && M().w.sunk == w.sunk + (if taken then [out] else [])
    {
      var attempt := 1;
      while true
        invariant 1 <= attempt <= p.maxAttempts
        invariant sinkCalls == old(sinkCalls) + attempt - 1
        invariant forall n :: old(sinkCalls) <= n < sinkCalls ==> !answers(n)
        invariant batch == [] && written == old(written) && dropped == old(dropped)
        invariant old(trace) <= trace && !M().panicked && M().c == old(M()).c
        invariant M().w == w.(worker := Writing(out, attempt, last), batch := [])
        decreases p.maxAttempts - attempt
      {
        var ok := answers(sinkCalls);
        sinkCalls := sinkCalls + 1;
        Note(Attempt(ok));
        if !ok {
          if attempt == p.maxAttempts {
            dropped := dropped + |out|;
            Note(Count);
            return;
          }
          attempt := attempt + 1;
          continue;
        }
        written := written + |out|;
        Note(Count);
        return;
      }
    }

    /** One turn of the worker's select that receives; `more` is false when the worker has returned. */
    method Receive() returns (more: bool)
      requires Matches(M().w) && M().w.worker.Selecting? && wg == 1 && !M().panicked
      requires ch != [] || M().c.chClosed
      modifies this`ch, this`wg, this`batch, this`written, this`dropped, this`sinkCalls, this`trace
      ensures Matches(M().w) && !M().panicked && M().c == old(M()).c && old(trace) <= trace
      ensures more == (old(ch) != [])
      ensures more ==> ch == old(ch)[1..] && wg == 1 && M().w.worker.Selecting?
      ensures !more ==> ch == [] && batch == [] && wg == 0 && M().w.worker.Exited?
      ensures more && |old(batch)| + 1 < p.batchN ==>
        batch == old(batch) + [old(ch)[0]] && written == old(written) && dropped == old(dropped)
      ensures !more || |old(batch)| + 1 >= p.batchN ==>
        batch == [] && written + dropped == old(written) + old(dropped) + |old(batch)| + (if more then 1 else 0)
    {
      ghost var w := M().w;
      Note(QueueProtocol.Receive);
      if |ch| == 0 {
        Flush(w, true);
        wg := wg - 1;
        more := false;
      } else {
        var e := ch[0];
        ch := ch[1..];
        batch := batch + [e];
        if |batch| >= p.batchN {
          Flush(w.(ch := ch, batch := batch), false);
        }
        more := true;
      }
    }

    /** The ticker fires. */
    method Tick()
      requires Valid() && M().w.worker.Selecting?
      modifies this`batch, this`written, this`dropped, this`sinkCalls, this`trace
      ensures Valid() && batch == [] && old(trace) <= trace
      ensures written + dropped == old(written) + old(dropped) + |old(batch)|
    {
      ghost var w := M().w;
      assert w.wg == 1 by { ReachableInv(p, trace); }
      Note(QueueProtocol.Tick);
      Flush(w, false);
    }

    /** The rest of the worker's loop once the channel is closed. */
    method Drain()
      requires Matches(M().w) && M().w.worker.Selecting? && wg == 1 && !M().panicked && M().c.chClosed
      modifies this`ch, this`wg, this`batch, this`written, this`dropped, this`sinkCalls, this`trace
      ensures Matches(M().w) && !M().panicked && M().c == old(M()).c && old(trace) <= trace
      ensures ch == [] && batch == [] && wg == 0 && M().w.worker.Exited?
      ensures written + dropped == old(written) + old(dropped) + |old(batch)| + |old(ch)|
    {
      var more := true;
      while more
        invariant Matches(M().w) && !M().panicked && M().c == old(M()).c && old(trace) <= trace
        invariant more ==> M().w.worker.Selecting? && wg == 1
        invariant !more ==> ch == [] && batch == [] && wg == 0 && M().w.worker.Exited?
        invariant written + dropped + |batch| + |ch| == old(written) + old(dropped) + |old(batch)| + |old(ch)|
        decreases more, |ch|
      {
        more := Receive();
      }
    }

    /** The critical section of Close: store `closed`, close the channel. */
    method CloseChannel()
      requires Valid() && !stopped
      modifies this`closed, this`chClosed, this`trace
      ensures trace == old(trace) + CloseSteps(0) && closed && chClosed
      ensures M() == State(Goto(old(M()).c, 0, CloseWait).(stopOnce := Running(0), closed := true, chClosed := true),
                           old(M()).w, false)
      ensures wg == (if M().w.worker.Selecting? then 1 else 0)
      ensures M().w.worker.Exited? ==> ch == [] && batch == []
    {
      CloseAlone(p, M(), 0);
      RunAppend(p, INIT, trace, CloseSteps(0));
      assert M().w.wg == (if M().w.worker.Selecting? then 1 else 0)
          && (M().w.worker.Exited? ==> M().w.ch == [] && M().w.batch == []) by { ReachableInv(p, trace); }
      closed := true;
      chClosed := true;
      trace := trace + CloseSteps(0);
    }

    /** The body of stopOnce: close the channel, then wait for the worker. */
    method CloseOnce()
      requires Valid() && !stopped
      modifies this
      ensures Valid() && stopped && old(trace) + CloseSteps(0) <= trace
      ensures M().w.worker.Exited? ==> ch == [] && batch == []
      ensures old(M()).w.worker.Selecting? ==> M().w.worker.Exited?
      ensures !old(M()).w.worker.Selecting? ==> M().w == old(M()).w
    {
      CloseChannel();
      if wg > 0 {
        Drain();
      }
      stopped := true;
      WaitOver(p, M(), 0);
      RunSnoc(p, INIT, trace, Advance(0, 0));
      trace := trace + [Advance(0, 0)];
    }

    /**
     * Close: no further Emit is accepted, and a running worker empties the channel, writes what it can and
     * exits before Close returns.
     */
    method Close()
      requires Valid()
      modifies this
      ensures Valid() && closed && stopped && old(trace) <= trace
      ensures M().w.accepted == old(M()).w.accepted
      ensures old(M()).w.worker.Selecting? ==>
        ch == [] && batch == [] && written + dropped == |M().w.accepted|
      ensures !old(M()).w.worker.Selecting? ==>
        ch == old(ch) && batch == old(batch) && written == old(written) && dropped == old(dropped)
    {
      if stopped {
        SecondClose(p, M(), 0);
        RunAppend(p, INIT, trace, [Invoke(0, QueueProtocol.Close), Advance(0, 0)]);
        assert !M().w.worker.Selecting? by { Shutdown(p, trace, []); }
        trace := trace + [Invoke(0, QueueProtocol.Close), Advance(0, 0)];
        return;
      }
      ghost var shut := trace + CloseSteps(0);
      assert Run(p, INIT, shut).c.closed && Run(p, INIT, shut).w.accepted == M().w.accepted by {
        CloseAlone(p, M(), 0);
        RunAppend(p, INIT, trace, CloseSteps(0));
      }
      CloseOnce();
      NothingAcceptedLater(p, shut, trace[|shut|..]);
      assert shut + trace[|shut|..] == trace;
      assert M().w.worker.Exited? ==> written + dropped == |M().w.accepted| by { Shutdown(p, trace, []); }
    }
  }
}
