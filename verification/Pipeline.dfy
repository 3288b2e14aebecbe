/**
 * The event queue with the store as its sink: every interleaving of callers, worker, sink answers and
 * retention DELETEs, from an empty queue and an empty database.
 */
module Pipeline {
  import opened Common
  import opened Record
  import opened Tables
  import opened Retention
  import Q = QueueProtocol
  import G = QueueGuarantees

  datatype Sys = Sys(q: Q.State, l: Ledger)

  datatype Action = QueueStep(step: Q.Step, clock: nat -> int) | Delete(op: Op)

  const START := Sys(Q.INIT, NEW)

  /** An Attempt the sink answers with success is a committed WriteBatch; one it refuses was rolled back. */
  function Apply(p: Q.Params, c: Config, s: Sys, ev: Action): Sys {
    match ev
    case QueueStep(step, clock) =>
      Sys(Q.Apply(p, s.q, step),
          if !s.q.panicked && step == Q.Attempt(true) && s.q.w.worker.Writing?
          then Retention.Apply(c, s.l, Batch(s.q.w.worker.out, clock)) else s.l)
    case Delete(op) => if op.Batch? then s else s.(l := Retention.Apply(c, s.l, op))
  }

  function Run(p: Q.Params, c: Config, s: Sys, evs: seq<Action>): Sys
    decreases |evs|
  {
    if evs == [] then s else Run(p, c, Apply(p, c, s, evs[0]), evs[1..])
  }

  /** The queue's part of a run is a run of the queue. */
  function QueueSteps(evs: seq<Action>): seq<Q.Step> {
    if evs == [] then []
    else (if evs[0].QueueStep? then [evs[0].step] else []) + QueueSteps(evs[1..])
  }

  lemma {:induction false} QueueRuns(p: Q.Params, c: Config, s: Sys, evs: seq<Action>)
    ensures Run(p, c, s, evs).q == Q.Run(p, s.q, QueueSteps(evs))
    decreases |evs|
  {
    if evs != [] {
      QueueRuns(p, c, Apply(p, c, s, evs[0]), evs[1..]);
      if evs[0].QueueStep? {
        assert QueueSteps(evs)[1..] == QueueSteps(evs[1..]);
      } else {
        assert QueueSteps(evs) == QueueSteps(evs[1..]);
      }
    }
  }

  /** The row each taken event got: rowids count up from 1 in the order the sink took the events. */
  function Stored(es: seq<Event>): seq<Row> {
    if es == [] then []
    else
      var k := |es| - 1;
      var ts := Unix(es[k], 0);
      Stored(es[..k]) + [Row(k + 1, ts, Columns(es[k], ts))]
  }

  function Inserted(q: Q.State): seq<Row> {
    Stored(Flatten(q.w.sunk))
  }

  predicate Stamped(es: seq<Event>) {
    forall e :: e in es ==> e.ts.Some?
  }

  lemma {:induction false} TakenWithin(bs: seq<Q.Settled>)
    ensures forall e :: e in Flatten(Q.Taken(bs)) ==> e in Q.Events(bs)
  {
    if bs != [] {
      var k := |bs| - 1;
      TakenWithin(bs[..k]);
      if bs[k].ok {
        FlattenSnoc(Q.Taken(bs[..k]), bs[k].events);
      } else {
        assert Q.Taken(bs) == Q.Taken(bs[..k]);
      }
    }
  }

  /** Everything on its way to the sink carries a time, so WriteBatch never reads its own clock for it. */
  lemma QueueStamps(p: Q.Params, q: Q.State)
    requires Q.Inv(p, q)
    ensures Stamped(Flatten(q.w.sunk)) && Stamped(Q.InFlight(q.w.worker))
  {
    var w := q.w;
    forall e | e in w.enqueued ensures e.ts.Some? {
      assert e in multiset(w.enqueued) && multiset(w.enqueued) <= multiset(w.accepted);
    }
    assert Stamped(w.enqueued);
    assert Q.Stages(w) == w.enqueued;
    TakenWithin(w.settled);
    if w.worker.Counting? && w.worker.ok {
      FlattenSnoc(Q.Taken(w.settled), w.worker.out);
    } else {
      assert w.sunk == Q.Taken(w.settled);
    }
  }

  ghost predicate Inv(p: Q.Params, s: Sys) {
    && Q.Inv(p, s.q)
    && ViewsCorrect(s.l)
    && ComesFrom(s.l, Flatten(s.q.w.sunk))
  }

  /** No DELETE has run: everything inserted is still in all three tables. */
  ghost predicate Complete(s: Sys) {
    AllOf(s.l, Flatten(s.q.w.sunk))
  }

  /** Everything in the three tables comes from `all`, whose events took the rowids 1 .. |all|. */
  ghost predicate ComesFrom(l: Ledger, all: seq<Event>) {
    && l.db.nextId == |all| + 1
    && Sub(l.db.events, Stored(all)) && Sub(l.inDaily, Stored(all)) && Sub(l.inClients, Stored(all))
  }

  ghost predicate AllOf(l: Ledger, all: seq<Event>) {
    l.db.events == l.inDaily == l.inClients == Stored(all)
  }

  lemma InsertExtends(l: Ledger, all: seq<Event>, e: Event, now: int)
    requires ComesFrom(l, all) && e.ts.Some?
    ensures ComesFrom(Insert1(l, e, now), all + [e]) && (AllOf(l, all) ==> AllOf(Insert1(l, e, now), all + [e]))
  {
    var r := RowFor(l.db, e, now);
    assert (all + [e])[..|all|] == all;
    assert Stored(all + [e]) == Stored(all) + [r];
    SubAppend(l.db.events, Stored(all), [r]);
    SubAppend(l.inDaily, Stored(all), [r]);
    SubAppend(l.inClients, Stored(all), [r]);
  }

  lemma {:induction false} WriteExtends(l: Ledger, all: seq<Event>, es: seq<Event>, clock: nat -> int)
    requires ComesFrom(l, all) && Stamped(es)
    ensures var l' := WriteAll(l, es, clock); ComesFrom(l', all + es) && (AllOf(l, all) ==> AllOf(l', all + es))
  {
    if es == [] {
      assert all + es == all;
    } else {
      var k := |es| - 1;
      assert es[k] in es;
      WriteExtends(l, all, es[..k], clock);
      InsertExtends(WriteAll(l, es[..k], clock), all + es[..k], es[k], clock(k));
      JoinLast(all, es);
    }
  }

  lemma JoinLast<T>(xs: seq<T>, ys: seq<T>)
    requires ys != []
    ensures xs + ys[..|ys| - 1] + [ys[|ys| - 1]] == xs + ys
  {
  }

  lemma TakeBatch(p: Q.Params, c: Config, s: Sys, clock: nat -> int)
    requires Inv(p, s) && s.q.w.worker.Writing?
    ensures var s' := Apply(p, c, s, QueueStep(Q.Attempt(true), clock));
      Inv(p, s') && (Complete(s) ==> Complete(s'))
  {
    var out := s.q.w.worker.out;
    QueueStamps(p, s.q);
    Q.StepKeeps(p, s.q, Q.Attempt(true));
    FlattenSnoc(s.q.w.sunk, out);
    WriteKeepsViews(s.l, out, clock);
    WriteExtends(s.l, Flatten(s.q.w.sunk), out, clock);
  }

  lemma OtherWorkerStep(p: Q.Params, w: Q.Pipe, chClosed: bool, step: Q.Step)
    requires !(step == Q.Attempt(true) && w.worker.Writing?)
    ensures Q.WorkerStep(p, w, chClosed, step).sunk == w.sunk
  {
  }

  lemma OtherQueueStep(p: Q.Params, q: Q.State, step: Q.Step)
    requires !(step == Q.Attempt(true) && q.w.worker.Writing?)
    ensures Q.Apply(p, q, step).w.sunk == q.w.sunk
  {
    if !step.Invoke? && !step.Advance? {
      OtherWorkerStep(p, q.w, q.c.chClosed, step);
    }
  }

  lemma StepKeeps(p: Q.Params, c: Config, s: Sys, ev: Action)
    requires Inv(p, s)
    ensures Inv(p, Apply(p, c, s, ev))
    ensures Complete(s) && ev.QueueStep? ==> Complete(Apply(p, c, s, ev))
  {
    match ev
    case QueueStep(step, clock) =>
      if step == Q.Attempt(true) && s.q.w.worker.Writing? {
        TakeBatch(p, c, s, clock);
      } else {
        Q.StepKeeps(p, s.q, step);
        OtherQueueStep(p, s.q, step);
      }
    case Delete(op) =>
      if !op.Batch? {
        ApplyKeepsViews(c, s.l, op);
        SubDrops(s.l.db.events, Inserted(s.q), EventCutoff(c, op.now));
        SubDrops(s.l.inDaily, Inserted(s.q), AggregateFloor(c, op.now));
        SubDrops(s.l.inClients, Inserted(s.q), AggregateFloor(c, op.now));
      }
  }

  lemma {:induction false} RunKeeps(p: Q.Params, c: Config, s: Sys, evs: seq<Action>)
    requires Inv(p, s)
    ensures Inv(p, Run(p, c, s, evs))
    ensures Complete(s) && (forall ev :: ev in evs ==> ev.QueueStep?) ==> Complete(Run(p, c, s, evs))
    decreases |evs|
  {
    if evs != [] {
      StepKeeps(p, c, s, evs[0]);
      RunKeeps(p, c, Apply(p, c, s, evs[0]), evs[1..]);
    }
  }

  lemma StartInv(p: Q.Params)
    ensures Inv(p, START) && Complete(START)
  {
    Q.InitInv(p);
    NewIsCorrect();
  }

  /** Row k shows event k, under rowid k + 1 and at the event's own time. */
  ghost predicate AllShown(rows: seq<Row>, es: seq<Event>) {
    |rows| == |es| && forall k: nat :: k < |es| ==> es[k].ts.Some? && Shows(rows[k], k + 1, es[k].ts.value, es[k])
  }

  lemma ShownSnoc(rows: seq<Row>, es: seq<Event>, r: Row, e: Event)
    requires AllShown(rows, es) && e.ts.Some? && Shows(r, |es| + 1, e.ts.value, e)
    ensures AllShown(rows + [r], es + [e])
  {
  }

  lemma {:induction false} StoredShows(es: seq<Event>)
    requires Stamped(es)
    ensures AllShown(Stored(es), es)
  {
    if es != [] {
      var front, e := es[..|es| - 1], es[|es| - 1];
      assert e in es && forall d :: d in front ==> d in es;
      StoredShows(front);
      var r := Stored(es)[|Stored(es)| - 1];
      assert Stored(es) == Stored(front) + [r];
      ShownSnoc(Stored(front), front, r, e);
      assert es == front + [e];
    }
  }

  /**
   * End to end, whatever the interleaving and whichever writes fail: rowids 1, 2, 3, ... went to the events
   * the sink took, each once and in the order they were enqueued; `written` counts exactly these, up to one
   * batch committed but not yet added; the log and both aggregates hold nothing else.
   */
  lemma EachEventOnce(p: Q.Params, c: Config, evs: seq<Action>)
    ensures var s := Run(p, c, START, evs);
      var pending := if s.q.w.worker.Counting? && s.q.w.worker.ok then |s.q.w.worker.out| else 0;
      && s.l.db.nextId - 1 == s.q.w.written + pending
      && Sub(Flatten(s.q.w.sunk), s.q.w.enqueued)
      && Sub(s.l.db.events, Inserted(s.q))
      && IsDailyView(s.l.db.daily, s.l.inDaily) && Sub(s.l.inDaily, Inserted(s.q))
      && IsClientView(s.l.db.clients, s.l.inClients) && Sub(s.l.inClients, Inserted(s.q))
      && AllShown(Inserted(s.q), Flatten(s.q.w.sunk))
  {
    var s := Run(p, c, START, evs);
    StartInv(p);
    RunKeeps(p, c, START, evs);
    QueueStamps(p, s.q);
    StoredShows(Flatten(s.q.w.sunk));
    QueueRuns(p, c, START, evs);
    G.CountersMeanBatches(p, QueueSteps(evs));
    SunkInOrder(p, s.q);
  }

  /** No DELETE of the run has a bound beyond these: event times below `bound`, days below `day`. */
  ghost predicate DeletesBelow(c: Config, evs: seq<Action>, bound: int, day: int) {
    forall ev :: ev in evs && ev.Delete? ==>
      && (ev.op.DeleteEvents? ==> EventCutoff(c, ev.op.now) <= bound)
      && (ev.op.DeleteDaily? || ev.op.DeleteClients? ==> AggregateFloor(c, ev.op.now) <= day)
  }

  /** From these bounds on, the three tables hold exactly the taken rows. */
  ghost predicate RecentTaken(l: Ledger, all: seq<Event>, bound: int, day: int) {
    && KeepEvents(l.db.events, bound) == KeepEvents(Stored(all), bound)
    && KeepRows(l.inDaily, day) == KeepRows(Stored(all), day)
    && KeepRows(l.inClients, day) == KeepRows(Stored(all), day)
  }

  lemma InsertKeepsRecent(l: Ledger, all: seq<Event>, e: Event, now: int, bound: int, day: int)
    requires l.db.nextId == |all| + 1 && e.ts.Some? && RecentTaken(l, all, bound, day)
    ensures RecentTaken(Insert1(l, e, now), all + [e], bound, day)
  {
    var r := RowFor(l.db, e, now);
    assert (all + [e])[..|all|] == all;
    assert Stored(all + [e]) == Stored(all) + [r];
    KeepEventsAppend(l.db.events, [r], bound);
    KeepEventsAppend(Stored(all), [r], bound);
    KeepRowsAppend(l.inDaily, [r], day);
    KeepRowsAppend(l.inClients, [r], day);
    KeepRowsAppend(Stored(all), [r], day);
  }

  lemma {:induction false} WriteKeepsRecent(
    l: Ledger, all: seq<Event>, es: seq<Event>, clock: nat -> int, bound: int, day: int)
    requires l.db.nextId == |all| + 1 && Stamped(es) && RecentTaken(l, all, bound, day)
    ensures var l' := WriteAll(l, es, clock); l'.db.nextId == |all + es| + 1 && RecentTaken(l', all + es, bound, day)
  {
    if es == [] {
      assert all + es == all;
    } else {
      var k := |es| - 1;
      assert es[k] in es;
      WriteKeepsRecent(l, all, es[..k], clock, bound, day);
      InsertKeepsRecent(WriteAll(l, es[..k], clock), all + es[..k], es[k], clock(k), bound, day);
      JoinLast(all, es);
    }
  }

  lemma DeleteKeepsRecent(c: Config, l: Ledger, all: seq<Event>, op: Op, bound: int, day: int)
    requires !op.Batch? && RecentTaken(l, all, bound, day)
    requires op.DeleteEvents? ==> EventCutoff(c, op.now) <= bound
    requires op.DeleteDaily? || op.DeleteClients? ==> AggregateFloor(c, op.now) <= day
    ensures RecentTaken(Retention.Apply(c, l, op), all, bound, day)
  {
    match op
    case DeleteEvents(now) => KeepEventsTwice(l.db.events, EventCutoff(c, now), bound);
    case DeleteDaily(now) => KeepTwice(l.inDaily, AggregateFloor(c, now), day);
    case DeleteClients(now) => KeepTwice(l.inClients, AggregateFloor(c, now), day);
  }

  lemma TakeKeepsRecent(p: Q.Params, c: Config, s: Sys, clock: nat -> int, bound: int, day: int)
    requires Inv(p, s) && s.q.w.worker.Writing? && RecentTaken(s.l, Flatten(s.q.w.sunk), bound, day)
    ensures var s' := Apply(p, c, s, QueueStep(Q.Attempt(true), clock));
      RecentTaken(s'.l, Flatten(s'.q.w.sunk), bound, day)
  {
    QueueStamps(p, s.q);
    FlattenSnoc(s.q.w.sunk, s.q.w.worker.out);
    WriteKeepsRecent(s.l, Flatten(s.q.w.sunk), s.q.w.worker.out, clock, bound, day);
  }

  lemma StepKeepsRecent(p: Q.Params, c: Config, s: Sys, ev: Action, bound: int, day: int)
    requires Inv(p, s) && RecentTaken(s.l, Flatten(s.q.w.sunk), bound, day) && DeletesBelow(c, [ev], bound, day)
    ensures var s' := Apply(p, c, s, ev); RecentTaken(s'.l, Flatten(s'.q.w.sunk), bound, day)
  {
    assert ev in [ev];
    match ev
    case QueueStep(step, clock) =>
      if step == Q.Attempt(true) && s.q.w.worker.Writing? {
        TakeKeepsRecent(p, c, s, clock, bound, day);
      } else {
        OtherQueueStep(p, s.q, step);
      }
    case Delete(op) =>
      if !op.Batch? {
        DeleteKeepsRecent(c, s.l, Flatten(s.q.w.sunk), op, bound, day);
      }
  }

  lemma {:induction false} RunKeepsRecent(p: Q.Params, c: Config, s: Sys, evs: seq<Action>, bound: int, day: int)
    requires Inv(p, s) && RecentTaken(s.l, Flatten(s.q.w.sunk), bound, day) && DeletesBelow(c, evs, bound, day)
    ensures var s' := Run(p, c, s, evs); RecentTaken(s'.l, Flatten(s'.q.w.sunk), bound, day)
    decreases |evs|
  {
    if evs != [] {
      assert evs[0] in evs && forall ev :: ev in evs[1..] ==> ev in evs;
      StepKeeps(p, c, s, evs[0]);
      StepKeepsRecent(p, c, s, evs[0], bound, day);
      RunKeepsRecent(p, c, Apply(p, c, s, evs[0]), evs[1..], bound, day);
    }
  }

  /**
   * With retention running, nothing recent is missing: from the largest event cutoff used on the log is exactly the
   * rows the sink took, and from the largest floor used on so is what either aggregate counts.
   */
  lemma RecentTablesAreTaken(p: Q.Params, c: Config, evs: seq<Action>, bound: int, day: int)
    requires DeletesBelow(c, evs, bound, day)
    ensures var s := Run(p, c, START, evs);
      && KeepEvents(s.l.db.events, bound) == KeepEvents(Inserted(s.q), bound)
      && IsDailyView(KeepDaily(s.l.db.daily, day), KeepRows(Inserted(s.q), day))
      && IsClientView(KeepClients(s.l.db.clients, day), KeepRows(Inserted(s.q), day))
  {
    StartInv(p);
    RunKeeps(p, c, START, evs);
    RunKeepsRecent(p, c, START, evs, bound, day);
    var s := Run(p, c, START, evs);
    DeleteKeepsViews(s.l.db.daily, s.l.db.clients, s.l.inDaily, day);
    DeleteKeepsViews(s.l.db.daily, s.l.db.clients, s.l.inClients, day);
  }

  /** Without retention the tables are exactly one WriteBatch of everything the sink took. */
  lemma TablesAreFoldOfTaken(p: Q.Params, c: Config, evs: seq<Action>)
    requires forall ev :: ev in evs ==> ev.QueueStep?
    ensures var s := Run(p, c, START, evs);
      && s.l.db.events == Inserted(s.q)
      && IsDailyView(s.l.db.daily, Inserted(s.q))
      && IsClientView(s.l.db.clients, Inserted(s.q))
  {
    StartInv(p);
    RunKeeps(p, c, START, evs);
  }

  /** Once Close has returned after a Start, every accepted event is a row ever inserted or a counted drop. */
  lemma NothingLostUncounted(p: Q.Params, c: Config, evs: seq<Action>)
    requires Run(p, c, START, evs).q.c.stopOnce == Q.Finished
    requires !Run(p, c, START, evs).q.w.worker.NotStarted?
    ensures var s := Run(p, c, START, evs);
      s.l.db.nextId - 1 + s.q.w.dropped == |s.q.w.accepted|
  {
    EachEventOnce(p, c, evs);
    QueueRuns(p, c, START, evs);
    G.Shutdown(p, QueueSteps(evs), []);
  }

  lemma {:induction false} TakenInOrder(bs: seq<Q.Settled>)
    ensures Sub(Flatten(Q.Taken(bs)), Q.Events(bs))
  {
    if bs != [] {
      var k := |bs| - 1;
      TakenInOrder(bs[..k]);
      var taken := Q.Taken(bs[..k]);
      SubAppend(Flatten(taken), Q.Events(bs[..k]), bs[k].events);
      if bs[k].ok {
        FlattenSnoc(taken, bs[k].events);
      } else {
        assert Q.Taken(bs) == taken;
        SubExtend(Flatten(taken), Q.Events(bs[..k]), bs[k].events);
      }
    }
  }

  lemma SunkInOrder(p: Q.Params, q: Q.State)
    requires Q.Inv(p, q)
    ensures Sub(Flatten(q.w.sunk), q.w.enqueued)
  {
    var w := q.w;
    var settled, rest := Q.Events(w.settled), w.batch + w.ch;
    TakenInOrder(w.settled);
    Assoc(settled + Q.InFlight(w.worker), w.batch, w.ch);
    if w.worker.Counting? && w.worker.ok {
      FlattenSnoc(Q.Taken(w.settled), w.worker.out);
      SubAppend(Flatten(Q.Taken(w.settled)), settled, w.worker.out);
      SubExtend(Flatten(w.sunk), settled + w.worker.out, rest);
    } else {
      assert w.sunk == Q.Taken(w.settled);
      SubExtend(Flatten(w.sunk), settled, Q.InFlight(w.worker));
      SubExtend(Flatten(w.sunk), settled + Q.InFlight(w.worker), rest);
    }
  }
}
