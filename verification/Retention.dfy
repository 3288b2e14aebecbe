/**
 * PurgeExpired against WriteBatch (internal/store/store.go). PurgeExpired runs three separate DELETEs
 * and stops at the first that fails, so the steps here are single statements in any order: a committed
 * batch, or one DELETE with the clock value its PurgeExpired read.
 */
module Retention {
  import opened Common
  import opened Record
  import opened Tables

  datatype Config = Config(eventDays: int, aggregateDays: int)

  /** Open's defaults for non-positive settings. */
  function NewConfig(eventDays: int, aggregateDays: int): (c: Config)
    ensures c.eventDays > 0 && c.aggregateDays > 0
  {
    Config(if eventDays <= 0 then 30 else eventDays, if aggregateDays <= 0 then 365 else aggregateDays)
  }

  function EventCutoff(c: Config, now: int): int {
    now - c.eventDays * SECONDS_PER_DAY
  }

  function AggregateFloor(c: Config, now: int): int {
    Day(now - c.aggregateDays * SECONDS_PER_DAY)
  }

  datatype Op =
    | Batch(es: seq<Event>, clock: nat -> int)
    | DeleteEvents(now: int)
    | DeleteDaily(now: int)
    | DeleteClients(now: int)

  /** The tables, and which inserted rows the two aggregates still count. */
  datatype Ledger = Ledger(db: DB, inDaily: seq<Row>, inClients: seq<Row>)

  const NEW := Ledger(EMPTY, [], [])

  function Insert1(l: Ledger, e: Event, now: int): Ledger {
    var r := RowFor(l.db, e, now);
    Ledger(Insert(l.db, e, now), l.inDaily + [r], l.inClients + [r])
  }

  /** WriteBatch on the ledger. */
  function WriteAll(l: Ledger, es: seq<Event>, clock: nat -> int): (l': Ledger)
    ensures l'.db == Write(l.db, es, clock)
  {
    if es == [] then l
    else Insert1(WriteAll(l, es[..|es| - 1], clock), es[|es| - 1], clock(|es| - 1))
  }

  function Apply(c: Config, l: Ledger, op: Op): Ledger {
    match op
    case Batch(es, clock) => WriteAll(l, es, clock)
    case DeleteEvents(now) =>
      l.(db := l.db.(events := KeepEvents(l.db.events, EventCutoff(c, now))))
    case DeleteDaily(now) =>
      var f := AggregateFloor(c, now);
      l.(db := l.db.(daily := KeepDaily(l.db.daily, f)), inDaily := KeepRows(l.inDaily, f))
    case DeleteClients(now) =>
      var f := AggregateFloor(c, now);
      l.(db := l.db.(clients := KeepClients(l.db.clients, f)), inClients := KeepRows(l.inClients, f))
  }

  function Run(c: Config, l: Ledger, ops: seq<Op>): Ledger
    decreases |ops|
  {
    if ops == [] then l else Run(c, Apply(c, l, ops[0]), ops[1..])
  }

  lemma {:induction false} RunAppend(c: Config, l: Ledger, a: seq<Op>, b: seq<Op>)
    ensures Run(c, l, a + b) == Run(c, Run(c, l, a), b)
    decreases |a|
  {
    if a == [] {
      assert a + b == b;
    } else {
      assert (a + b)[1..] == a[1..] + b;
      RunAppend(c, Apply(c, l, a[0]), a[1..], b);
    }
  }

  // ---- the aggregates are materialized views ----

  ghost predicate ViewsCorrect(l: Ledger) {
    IsDailyView(l.db.daily, l.inDaily) && IsClientView(l.db.clients, l.inClients)
  }

  lemma {:induction false} WriteKeepsViews(l: Ledger, es: seq<Event>, clock: nat -> int)
    requires ViewsCorrect(l)
    ensures ViewsCorrect(WriteAll(l, es, clock))
  {
    if es != [] {
      var k := |es| - 1;
      WriteKeepsViews(l, es[..k], clock);
      var before := WriteAll(l, es[..k], clock);
      InsertKeepsViews(before.db, es[k], clock(k), before.inDaily, before.inClients);
    }
  }

  lemma ApplyKeepsViews(c: Config, l: Ledger, op: Op)
    requires ViewsCorrect(l)
    ensures ViewsCorrect(Apply(c, l, op))
  {
    match op
    case Batch(es, clock) => WriteKeepsViews(l, es, clock);
    case DeleteEvents(_) =>
    case DeleteDaily(now) => DeleteKeepsViews(l.db.daily, [], l.inDaily, AggregateFloor(c, now));
    case DeleteClients(now) => DeleteKeepsViews([], l.db.clients, l.inClients, AggregateFloor(c, now));
  }

  /** In every interleaving of batches and DELETEs both aggregates are the GROUP BY of the rows they count. */
  lemma {:induction false} AggregatesAreViews(c: Config, l: Ledger, ops: seq<Op>)
    requires ViewsCorrect(l)
    ensures ViewsCorrect(Run(c, l, ops))
    decreases |ops|
  {
    if ops != [] {
      ApplyKeepsViews(c, l, ops[0]);
      AggregatesAreViews(c, Apply(c, l, ops[0]), ops[1..]);
    }
  }

  lemma NewIsCorrect()
    ensures ViewsCorrect(NEW)
  {
  }

  // ---- recent days: view == log ----

  lemma {:induction false} KeepRowsAppend(a: seq<Row>, b: seq<Row>, floor: int)
    ensures KeepRows(a + b, floor) == KeepRows(a, floor) + KeepRows(b, floor)
  {
    if a == [] {
      assert a + b == b;
    } else {
      KeepRowsAppend(a[1..], b, floor);
      var whole := a + b;
      assert whole[1..] == a[1..] + b && whole[0] == a[0];
      Assoc(if Day(a[0].ts) >= floor then [a[0]] else [], KeepRows(a[1..], floor), KeepRows(b, floor));
    }
  }

  lemma {:induction false} KeepEventsAppend(a: seq<Row>, b: seq<Row>, cutoff: int)
    ensures KeepEvents(a + b, cutoff) == KeepEvents(a, cutoff) + KeepEvents(b, cutoff)
  {
    if a == [] {
      assert a + b == b;
    } else {
      KeepEventsAppend(a[1..], b, cutoff);
      var whole := a + b;
      assert whole[1..] == a[1..] + b && whole[0] == a[0];
      Assoc(if a[0].ts >= cutoff then [a[0]] else [], KeepEvents(a[1..], cutoff), KeepEvents(b, cutoff));
    }
  }

  lemma {:induction false} KeepEventsTwice(t: seq<Row>, low: int, high: int)
    requires low <= high
    ensures KeepEvents(KeepEvents(t, low), high) == KeepEvents(t, high)
  {
    if t != [] {
      KeepEventsTwice(t[1..], low, high);
      KeepEventsAppend(if t[0].ts >= low then [t[0]] else [], KeepEvents(t[1..], low), high);
    }
  }

  lemma {:induction false} KeepTwice(t: seq<Row>, low: int, high: int)
    requires low <= high
    ensures KeepRows(KeepRows(t, low), high) == KeepRows(t, high)
  {
    if t != [] {
      KeepTwice(t[1..], low, high);
      KeepRowsAppend(if Day(t[0].ts) >= low then [t[0]] else [], KeepRows(t[1..], low), high);
    }
  }

  lemma {:induction false} KeepEventsThenDay(t: seq<Row>, cutoff: int, day: int)
    requires cutoff <= day * SECONDS_PER_DAY
    ensures KeepRows(KeepEvents(t, cutoff), day) == KeepRows(t, day)
  {
    if t != [] {
      KeepEventsThenDay(t[1..], cutoff, day);
      KeepRowsAppend(if t[0].ts >= cutoff then [t[0]] else [], KeepEvents(t[1..], cutoff), day);
    }
  }

  /** No DELETE has used a clock whose event cutoff lies past the start of `day`. */
  ghost predicate CutoffsBefore(c: Config, ops: seq<Op>, day: int) {
    forall op :: op in ops && !op.Batch? ==> EventCutoff(c, op.now) <= day * SECONDS_PER_DAY
  }

  ghost predicate SameFrom(l: Ledger, day: int) {
    KeepRows(l.db.events, day) == KeepRows(l.inDaily, day) == KeepRows(l.inClients, day)
  }

  lemma {:induction false} WriteKeepsSame(l: Ledger, es: seq<Event>, clock: nat -> int, day: int)
    ensures var l' := WriteAll(l, es, clock);
      && (KeepRows(l.db.events, day) == KeepRows(l.inDaily, day) ==>
            KeepRows(l'.db.events, day) == KeepRows(l'.inDaily, day))
      && (KeepRows(l.inDaily, day) == KeepRows(l.inClients, day) ==>
            KeepRows(l'.inDaily, day) == KeepRows(l'.inClients, day))
      && (l.inDaily == l.inClients ==> l'.inDaily == l'.inClients)
  {
    if es != [] {
      var k := |es| - 1;
      WriteKeepsSame(l, es[..k], clock, day);
      var before := WriteAll(l, es[..k], clock);
      var r := RowFor(before.db, es[k], clock(k));
      KeepRowsAppend(before.db.events, [r], day);
      KeepRowsAppend(before.inDaily, [r], day);
      KeepRowsAppend(before.inClients, [r], day);
    }
  }

  lemma ApplyKeepsSame(c: Config, l: Ledger, op: Op, day: int)
    requires ViewsCorrect(l) && SameFrom(l, day) && CutoffsBefore(c, [op], day)
    requires c.eventDays <= c.aggregateDays
    ensures SameFrom(Apply(c, l, op), day)
  {
    assert op in [op];
    match op
    case Batch(es, clock) => WriteKeepsSame(l, es, clock, day);
    case DeleteEvents(now) => KeepEventsThenDay(l.db.events, EventCutoff(c, now), day);
    case DeleteDaily(now) => KeepTwice(l.inDaily, AggregateFloor(c, now), day);
    case DeleteClients(now) => KeepTwice(l.inClients, AggregateFloor(c, now), day);
  }

  lemma {:induction false} RunKeepsSame(c: Config, l: Ledger, ops: seq<Op>, day: int)
    requires ViewsCorrect(l) && SameFrom(l, day) && CutoffsBefore(c, ops, day)
    requires c.eventDays <= c.aggregateDays
    ensures SameFrom(Run(c, l, ops), day)
    decreases |ops|
  {
    if ops != [] {
      assert ops[0] in ops;
      ApplyKeepsSame(c, l, ops[0], day);
      ApplyKeepsViews(c, l, ops[0]);
      RunKeepsSame(c, Apply(c, l, ops[0]), ops[1..], day);
    }
  }

  /**
   * For every day that starts at or after all event cutoffs used so far, whatever the interleaving and
   * wherever a purge stopped, both aggregates are exactly the GROUP BY of what pull_events holds.
   */
  lemma RecentDaysMatchLog(c: Config, ops: seq<Op>, day: int)
    requires c.eventDays <= c.aggregateDays && CutoffsBefore(c, ops, day)
    ensures var db := Run(c, NEW, ops).db;
      && (forall k: DailyKey :: k.day >= day ==> (k in DailyKeys(db.daily) <==> k in LogKeys(db.events)))
      && (forall k: ClientKey :: k.day >= day ==> (k in ClientKeys(db.clients) <==> k in LogClientKeys(db.events)))
      && (forall s: Slice, m :: s.lo >= day ==> DailyTotal(db.daily, s, m) == LogTotal(db.events, s, m))
      && (forall s: ClientSlice, m :: s.lo >= day && m != Errors ==>
            ClientTotal(db.clients, s, m) == LogClientTotal(db.events, s, m))
  {
    var l := Run(c, NEW, ops);
    NewIsCorrect();
    AggregatesAreViews(c, NEW, ops);
    RunKeepsSame(c, NEW, ops, day);
    KeepRowsSpec(l.db.events, day);
    KeepRowsSpec(l.inDaily, day);
    KeepRowsSpec(l.inClients, day);
    forall s: Slice, m | s.lo >= day ensures DailyTotal(l.db.daily, s, m) == LogTotal(l.db.events, s, m) {
      assert From(s, day) == s;
    }
    forall s: ClientSlice, m | s.lo >= day && m != Errors
      ensures ClientTotal(l.db.clients, s, m) == LogClientTotal(l.db.events, s, m)
    {
      assert ClientFrom(s, day) == s;
    }
  }

  // ---- every row still in the log is still counted ----

  /** Both aggregates count every row of pull_events, each once. */
  predicate AllCounted(l: Ledger) {
    Sub(l.db.events, l.inDaily) && Sub(l.db.events, l.inClients)
  }

  /** Deleting rows from a subsequence leaves a subsequence. */
  lemma {:induction false} SubDrops(xs: seq<Row>, ys: seq<Row>, bound: int)
    requires Sub(xs, ys)
    ensures Sub(KeepEvents(xs, bound), ys) && Sub(KeepRows(xs, bound), ys)
    decreases |ys|
  {
    if xs != [] {
      if xs[0] == ys[0] && Sub(xs[1..], ys[1..]) {
        SubDrops(xs[1..], ys[1..], bound);
        var events, rows := KeepEvents(xs[1..], bound), KeepRows(xs[1..], bound);
        assert KeepEvents(xs, bound) == if xs[0].ts >= bound then [xs[0]] + events else events;
        assert KeepRows(xs, bound) == if Day(xs[0].ts) >= bound then [xs[0]] + rows else rows;
        assert ([xs[0]] + events)[1..] == events && ([xs[0]] + rows)[1..] == rows;
      } else {
        SubDrops(xs, ys[1..], bound);
      }
    }
  }

  lemma {:induction false} SubKeepRows(xs: seq<Row>, ys: seq<Row>, floor: int)
    requires Sub(xs, ys) && forall x :: x in xs ==> Day(x.ts) >= floor
    ensures Sub(xs, KeepRows(ys, floor))
    decreases |ys|
  {
    if xs != [] {
      var rest := KeepRows(ys[1..], floor);
      assert KeepRows(ys, floor) == if Day(ys[0].ts) >= floor then [ys[0]] + rest else rest;
      assert ([ys[0]] + rest)[1..] == rest;
      if xs[0] == ys[0] && Sub(xs[1..], ys[1..]) {
        SubKeepRows(xs[1..], ys[1..], floor);
      } else {
        SubKeepRows(xs, ys[1..], floor);
      }
    }
  }

  lemma {:induction false} KeepRowsMembers(t: seq<Row>, floor: int)
    ensures forall r :: r in KeepRows(t, floor) <==> r in t && Day(r.ts) >= floor
  {
    if t != [] {
      KeepRowsMembers(t[1..], floor);
    }
  }

  lemma {:induction false} KeepDailyMembers(t: seq<DailyRow>, floor: int)
    ensures forall d :: d in KeepDaily(t, floor) <==> d in t && d.day >= floor
  {
    if t != [] {
      KeepDailyMembers(t[1..], floor);
    }
  }

  lemma {:induction false} KeepClientsMembers(t: seq<ClientRow>, floor: int)
    ensures forall d :: d in KeepClients(t, floor) <==> d in t && d.day >= floor
  {
    if t != [] {
      KeepClientsMembers(t[1..], floor);
    }
  }

  lemma {:induction false} KeepEventsMembers(t: seq<Row>, cutoff: int)
    ensures forall r :: r in KeepEvents(t, cutoff) <==> r in t && r.ts >= cutoff
  {
    if t != [] {
      KeepEventsMembers(t[1..], cutoff);
    }
  }

  /** A DELETE on an aggregate finds no log row older than its floor. */
  predicate Timely(c: Config, l: Ledger, op: Op) {
    (op.DeleteDaily? || op.DeleteClients?) ==>
      forall r :: r in l.db.events ==> Day(r.ts) >= AggregateFloor(c, op.now)
  }

  /** Exactly the timely statements keep every log row counted. */
  lemma TimelyIsExact(c: Config, l: Ledger, op: Op)
    requires AllCounted(l)
    ensures AllCounted(Apply(c, l, op)) <==> Timely(c, l, op)
  {
    var l' := Apply(c, l, op);
    match op
    case Batch(es, clock) => WriteCountedExactly(l, es, clock);
    case DeleteEvents(now) =>
      SubDrops(l.db.events, l.inDaily, EventCutoff(c, now));
      SubDrops(l.db.events, l.inClients, EventCutoff(c, now));
    case DeleteDaily(now) => DeleteIsExact(l.db.events, l.inDaily, AggregateFloor(c, now));
    case DeleteClients(now) => DeleteIsExact(l.db.events, l.inClients, AggregateFloor(c, now));
  }

  lemma DeleteIsExact(log: seq<Row>, counted: seq<Row>, floor: int)
    requires Sub(log, counted)
    ensures Sub(log, KeepRows(counted, floor)) <==> forall r :: r in log ==> Day(r.ts) >= floor
  {
    if Sub(log, KeepRows(counted, floor)) {
      SubMembers(log, KeepRows(counted, floor));
      KeepRowsMembers(counted, floor);
    } else if forall r :: r in log ==> Day(r.ts) >= floor {
      SubKeepRows(log, counted, floor);
    }
  }

  /** One PurgeExpired with batches arriving between its statements; `stop` of the three statements succeed. */
  function PurgeOps(now: int, first: seq<Op>, second: seq<Op>, stop: nat): seq<Op> {
    if stop == 0 then []
    else if stop == 1 then [DeleteEvents(now)]
    else if stop == 2 then [DeleteEvents(now)] + first + [DeleteDaily(now)]
    else [DeleteEvents(now)] + first + [DeleteDaily(now)] + second + [DeleteClients(now)]
  }

  predicate AllBatches(ops: seq<Op>) {
    forall i :: 0 <= i < |ops| ==> ops[i].Batch?
  }

  predicate FreshEvents(es: seq<Event>, clock: nat -> int, floor: int) {
    forall k :: 0 <= k < |es| ==> Day(Unix(es[k], clock(k))) >= floor
  }

  /** No batch brings an event of a day below the floor. */
  predicate FreshBatches(ops: seq<Op>, floor: int)
    requires AllBatches(ops)
  {
    forall i :: 0 <= i < |ops| ==> FreshEvents(ops[i].es, ops[i].clock, floor)
  }

  predicate LogFrom(rows: seq<Row>, floor: int) {
    forall r :: r in rows ==> Day(r.ts) >= floor
  }

  lemma {:induction false} WriteLogFrom(l: Ledger, es: seq<Event>, clock: nat -> int, floor: int)
    ensures LogFrom(WriteAll(l, es, clock).db.events, floor) <==> LogFrom(l.db.events, floor) && FreshEvents(es, clock, floor)
  {
    if es != [] {
      var front, k := es[..|es| - 1], |es| - 1;
      WriteLogFrom(l, front, clock, floor);
      InsertLogFrom(WriteAll(l, front, clock), es[k], clock(k), floor);
      FreshSnoc(front, es[k], clock, floor);
      assert es == front + [es[k]];
    }
  }

  lemma InsertLogFrom(l: Ledger, e: Event, now: int, floor: int)
    ensures LogFrom(Insert1(l, e, now).db.events, floor) <==> LogFrom(l.db.events, floor) && Day(Unix(e, now)) >= floor
  {
    LogFromSnoc(l.db.events, RowFor(l.db, e, now), floor);
  }

  lemma LogFromSnoc(rows: seq<Row>, r: Row, floor: int)
    ensures LogFrom(rows + [r], floor) <==> LogFrom(rows, floor) && Day(r.ts) >= floor
  {
    assert r in rows + [r];
    assert forall q :: q in rows ==> q in rows + [r];
  }

  lemma FreshSnoc(es: seq<Event>, e: Event, clock: nat -> int, floor: int)
    ensures FreshEvents(es + [e], clock, floor) <==> FreshEvents(es, clock, floor) && Day(Unix(e, clock(|es|))) >= floor
  {
    assert (es + [e])[|es|] == e;
    assert forall k :: 0 <= k < |es| ==> (es + [e])[k] == es[k];
  }

  lemma FreshCons(ops: seq<Op>, floor: int)
    requires ops != [] && AllBatches(ops)
    ensures AllBatches(ops[1..])
    ensures FreshBatches(ops, floor) <==> FreshEvents(ops[0].es, ops[0].clock, floor) && FreshBatches(ops[1..], floor)
  {
    if FreshBatches(ops, floor) {
      assert forall i :: 0 <= i < |ops[1..]| ==> ops[1..][i] == ops[i + 1];
    }
  }

  /** Batches keep the log counted, and keep it above a floor exactly when all their events are. */
  lemma {:induction false} BatchesRun(c: Config, l: Ledger, ops: seq<Op>, floor: int)
    requires AllBatches(ops)
    ensures var l' := Run(c, l, ops);
      && (AllCounted(l') <==> AllCounted(l))
      && (LogFrom(l'.db.events, floor) <==> LogFrom(l.db.events, floor) && FreshBatches(ops, floor))
    decreases |ops|
  {
    if ops != [] {
      var op := ops[0];
      WriteCountedExactly(l, op.es, op.clock);
      WriteLogFrom(l, op.es, op.clock, floor);
      FreshCons(ops, floor);
      BatchesRun(c, Apply(c, l, op), ops[1..], floor);
    }
  }

  lemma {:induction false} WriteCountedExactly(l: Ledger, es: seq<Event>, clock: nat -> int)
    ensures AllCounted(WriteAll(l, es, clock)) <==> AllCounted(l)
  {
    if es != [] {
      var k := |es| - 1;
      WriteCountedExactly(l, es[..k], clock);
      var before := WriteAll(l, es[..k], clock);
      var r := RowFor(before.db, es[k], clock(k));
      SubSnocExactly(before.db.events, before.inDaily, r);
      SubSnocExactly(before.db.events, before.inClients, r);
    }
  }

  lemma SubSnocExactly(xs: seq<Row>, ys: seq<Row>, r: Row)
    ensures Sub(xs + [r], ys + [r]) <==> Sub(xs, ys)
  {
    if Sub(xs, ys) {
      SubAppend(xs, ys, [r]);
    }
    SubCancel(xs, ys, r);
  }

  lemma CutoffCoversFloor(c: Config, now: int, ts: int)
    requires c.eventDays <= c.aggregateDays && ts >= EventCutoff(c, now)
    ensures Day(ts) >= AggregateFloor(c, now)
  {
  }

  /** The first DELETE leaves a log whose rows all lie above the floor of the other two. */
  lemma EventsDeleted(c: Config, l: Ledger, now: int)
    requires c.eventDays <= c.aggregateDays && AllCounted(l)
    ensures var l' := Apply(c, l, DeleteEvents(now)); AllCounted(l') && LogFrom(l'.db.events, AggregateFloor(c, now))
  {
    TimelyIsExact(c, l, DeleteEvents(now));
    KeepEventsMembers(l.db.events, EventCutoff(c, now));
    forall r | r in KeepEvents(l.db.events, EventCutoff(c, now)) ensures Day(r.ts) >= AggregateFloor(c, now) {
      CutoffCoversFloor(c, now, r.ts);
    }
  }

  /** A DELETE on one aggregate keeps the log counted exactly if it was and all its rows lie above the floor. */
  lemma AggregateDelete(c: Config, l: Ledger, op: Op, now: int)
    requires op in {DeleteDaily(now), DeleteClients(now)}
    ensures Apply(c, l, op).db.events == l.db.events
    ensures AllCounted(Apply(c, l, op)) <==> AllCounted(l) && LogFrom(l.db.events, AggregateFloor(c, now))
  {
    if AllCounted(l) {
      TimelyIsExact(c, l, op);
    }
    if Sub(l.db.events, KeepRows(l.inDaily, AggregateFloor(c, now))) {
      KeptIsWithin(l.db.events, l.inDaily, AggregateFloor(c, now));
    }
    if Sub(l.db.events, KeepRows(l.inClients, AggregateFloor(c, now))) {
      KeptIsWithin(l.db.events, l.inClients, AggregateFloor(c, now));
    }
  }

  lemma {:induction false} KeptIsWithin(xs: seq<Row>, ys: seq<Row>, floor: int)
    requires Sub(xs, KeepRows(ys, floor))
    ensures Sub(xs, ys)
    decreases |ys|
  {
    if ys != [] && xs != [] {
      var rest := KeepRows(ys[1..], floor);
      if Day(ys[0].ts) >= floor {
        assert KeepRows(ys, floor) == [ys[0]] + rest && ([ys[0]] + rest)[1..] == rest;
        if xs[0] == ys[0] && Sub(xs[1..], rest) {
          KeptIsWithin(xs[1..], ys[1..], floor);
        } else {
          KeptIsWithin(xs, ys[1..], floor);
        }
      } else {
        assert KeepRows(ys, floor) == rest;
        KeptIsWithin(xs, ys[1..], floor);
      }
    }
  }

  lemma PurgeTwo(c: Config, l: Ledger, now: int, first: seq<Op>)
    ensures Run(c, l, PurgeOps(now, first, [], 2)) ==
      Apply(c, Run(c, Apply(c, l, DeleteEvents(now)), first), DeleteDaily(now))
  {
    var l1 := Apply(c, l, DeleteEvents(now));
    RunOne(c, l, DeleteEvents(now));
    RunAppend(c, l, [DeleteEvents(now)], first);
    RunAppend(c, l, [DeleteEvents(now)] + first, [DeleteDaily(now)]);
    RunOne(c, Run(c, l1, first), DeleteDaily(now));
  }

  lemma PurgeThree(c: Config, l: Ledger, now: int, first: seq<Op>, second: seq<Op>)
    ensures Run(c, l, PurgeOps(now, first, second, 3)) ==
      Apply(c, Run(c, Run(c, l, PurgeOps(now, first, [], 2)), second), DeleteClients(now))
  {
    var two := PurgeOps(now, first, [], 2);
    assert PurgeOps(now, first, second, 3) == (two + second) + [DeleteClients(now)];
    RunAppend(c, l, two, second);
    RunAppend(c, l, two + second, [DeleteClients(now)]);
    RunOne(c, Run(c, Run(c, l, two), second), DeleteClients(now));
  }

  /**
   * With event retention at most aggregate retention, a purge that stops after any of its statements leaves
   * every log row counted if and only if no batch that slipped in before a DELETE on an aggregate brought an
   * event below that DELETE's floor.
   */
  lemma PurgeKeepsCounted(c: Config, l: Ledger, now: int, first: seq<Op>, second: seq<Op>, stop: nat)
    requires c.eventDays <= c.aggregateDays && AllCounted(l) && AllBatches(first) && AllBatches(second)
    ensures AllCounted(Run(c, l, PurgeOps(now, first, second, stop))) <==>
      && (stop >= 2 ==> FreshBatches(first, AggregateFloor(c, now)))
      && (stop >= 3 ==> FreshBatches(second, AggregateFloor(c, now)))
  {
    var f := AggregateFloor(c, now);
    if stop > 0 {
      var l1 := Apply(c, l, DeleteEvents(now));
      EventsDeleted(c, l, now);
      RunOne(c, l, DeleteEvents(now));
      if stop > 1 {
        var l2 := Run(c, l1, first);
        var l3 := Apply(c, l2, DeleteDaily(now));
        BatchesRun(c, l1, first, f);
        AggregateDelete(c, l2, DeleteDaily(now), now);
        PurgeTwo(c, l, now, first);
        assert AllCounted(l3) <==> FreshBatches(first, f);
        if stop > 2 {
          var l4 := Run(c, l3, second);
          BatchesRun(c, l3, second, f);
          AggregateDelete(c, l4, DeleteClients(now), now);
          PurgeThree(c, l, now, first, second);
        }
      }
    }
  }

  // ---- every run from an empty store ----

  /** What the program does to its store: batches, and purges that batches interleave and failures cut short. */
  datatype Call =
    | WriteBatch(es: seq<Event>, clock: nat -> int)
    | PurgeExpired(now: int, first: seq<Op>, second: seq<Op>, stop: nat)

  /** Batches that slip between the statements of a purge bring nothing below its aggregate floor. */
  predicate Fresh(c: Config, call: Call) {
    call.PurgeExpired? ==>
      && AllBatches(call.first) && FreshBatches(call.first, AggregateFloor(c, call.now))
      && AllBatches(call.second) && FreshBatches(call.second, AggregateFloor(c, call.now))
  }

  ghost predicate AllFresh(c: Config, calls: seq<Call>) {
    forall call :: call in calls ==> Fresh(c, call)
  }

  function CallOps(call: Call): seq<Op> {
    match call
    case WriteBatch(es, clock) => [Batch(es, clock)]
    case PurgeExpired(now, first, second, stop) => PurgeOps(now, first, second, stop)
  }

  function RunCalls(c: Config, l: Ledger, calls: seq<Call>): Ledger
    decreases |calls|
  {
    if calls == [] then l else RunCalls(c, Run(c, l, CallOps(calls[0])), calls[1..])
  }

  lemma CallKeepsCounted(c: Config, l: Ledger, call: Call)
    requires c.eventDays <= c.aggregateDays && AllCounted(l) && Fresh(c, call)
    ensures AllCounted(Run(c, l, CallOps(call)))
  {
    match call
    case WriteBatch(es, clock) =>
      RunOne(c, l, Batch(es, clock));
      WriteCountedExactly(l, es, clock);
    case PurgeExpired(now, first, second, stop) => PurgeKeepsCounted(c, l, now, first, second, stop);
  }

  lemma {:induction false} CallsKeepCounted(c: Config, l: Ledger, calls: seq<Call>)
    requires c.eventDays <= c.aggregateDays && AllCounted(l) && AllFresh(c, calls)
    ensures AllCounted(RunCalls(c, l, calls))
    decreases |calls|
  {
    if calls != [] {
      assert calls[0] in calls;
      CallKeepsCounted(c, l, calls[0]);
      CallsKeepCounted(c, Run(c, l, CallOps(calls[0])), calls[1..]);
    }
  }

  lemma {:induction false} CallsKeepViews(c: Config, l: Ledger, calls: seq<Call>)
    requires ViewsCorrect(l)
    ensures ViewsCorrect(RunCalls(c, l, calls))
    decreases |calls|
  {
    if calls != [] {
      AggregatesAreViews(c, l, CallOps(calls[0]));
      CallsKeepViews(c, Run(c, l, CallOps(calls[0])), calls[1..]);
    }
  }

  /** The run that loses a row when events outlive aggregates: an event on the cutoff, then two DELETEs. */
  function LosingRun(c: Config, e: Event): seq<Call> {
    [WriteBatch([e.(ts := Some(EventCutoff(c, 0)))], i => 0), PurgeExpired(0, [], [], 2)]
  }

  lemma TwoCalls(c: Config, l: Ledger, es: seq<Event>, clock: nat -> int, now: int)
    ensures RunCalls(c, l, [WriteBatch(es, clock), PurgeExpired(now, [], [], 2)]) ==
      Apply(c, Apply(c, WriteAll(l, es, clock), DeleteEvents(now)), DeleteDaily(now))
  {
    var calls := [WriteBatch(es, clock), PurgeExpired(now, [], [], 2)];
    var l1 := WriteAll(l, es, clock);
    RunOne(c, l, Batch(es, clock));
    PurgeTwo(c, l1, now, []);
    assert calls[1..] == [calls[1]] && calls[1..][1..] == [];
    assert RunCalls(c, l, calls) == RunCalls(c, l1, calls[1..]);
    assert RunCalls(c, l1, calls[1..]) == RunCalls(c, Run(c, l1, PurgeOps(now, [], [], 2)), []);
  }

  lemma LosingRunLoses(c: Config, e: Event)
    requires c.eventDays > c.aggregateDays
    ensures AllFresh(c, LosingRun(c, e)) && !AllCounted(RunCalls(c, NEW, LosingRun(c, e)))
  {
    var es, clock := LosingRun(c, e)[0].es, LosingRun(c, e)[0].clock;
    var l1 := WriteAll(NEW, es, clock);
    var l2 := Apply(c, l1, DeleteEvents(0));
    TwoCalls(c, NEW, es, clock, 0);
    AggregateDelete(c, l2, DeleteDaily(0), 0);
    assert WriteAll(NEW, es[..0], clock) == NEW;
    var r := RowFor(NEW.db, es[0], clock(0));
    assert l1.db.events == [r] && r.ts == EventCutoff(c, 0);
    assert KeepEvents([r], EventCutoff(c, 0)) == [r] + KeepEvents([], EventCutoff(c, 0));
    assert r in l2.db.events && Day(r.ts) == -c.eventDays && AggregateFloor(c, 0) == -c.aggregateDays;
  }

  /**
   * Every row still in the log is counted in both aggregates, after every run from an empty store, wherever its
   * purges stopped, if and only if events are kept no longer than aggregates.
   */
  lemma RetentionOrderIsExact(c: Config)
    ensures c.eventDays <= c.aggregateDays <==>
      forall calls :: AllFresh(c, calls) ==> AllCounted(RunCalls(c, NEW, calls))
  {
    if c.eventDays <= c.aggregateDays {
      forall calls | AllFresh(c, calls) ensures AllCounted(RunCalls(c, NEW, calls)) {
        CallsKeepCounted(c, NEW, calls);
      }
    } else {
      var e: Event :| true;
      LosingRunLoses(c, e);
    }
  }

  lemma RunOne(c: Config, l: Ledger, op: Op)
    ensures Run(c, l, [op]) == Apply(c, l, op)
  {
    assert Run(c, Apply(c, l, op), []) == Apply(c, l, op);
  }

  lemma {:induction false} SubTotals(xs: seq<Row>, ys: seq<Row>, s: Slice, m: Measure)
    requires Sub(xs, ys) && forall y :: y in ys ==> y.col.bytes >= 0
    ensures LogTotal(xs, s, m) <= LogTotal(ys, s, m) && 0 <= LogTotal(ys, s, m)
    decreases |ys|
  {
    if ys != [] {
      if xs != [] && xs[0] == ys[0] && Sub(xs[1..], ys[1..]) {
        SubTotals(xs[1..], ys[1..], s, m);
      } else {
        SubTotals(xs, ys[1..], s, m);
      }
    }
  }

  /** While every log row is counted, no dashboard sum is below what the remaining log alone would give. */
  lemma DashboardCoversLog(l: Ledger, s: Slice, m: Measure)
    requires ViewsCorrect(l) && AllCounted(l) && Nonneg(l.inDaily)
    ensures DailyTotal(l.db.daily, s, m) >= LogTotal(l.db.events, s, m)
  {
    SubTotals(l.db.events, l.inDaily, s, m);
  }

  predicate Nonneg(rows: seq<Row>) {
    forall r :: r in rows ==> r.col.bytes >= 0
  }

  ghost predicate NonnegOp(op: Op) {
    op.Batch? ==> forall e :: e in op.es ==> e.bytes >= 0
  }

  lemma {:induction false} WriteKeepsNonneg(l: Ledger, es: seq<Event>, clock: nat -> int)
    requires Nonneg(l.inDaily) && forall e :: e in es ==> e.bytes >= 0
    ensures Nonneg(WriteAll(l, es, clock).inDaily)
  {
    if es != [] {
      var k := |es| - 1;
      assert es[k] in es && forall e :: e in es[..k] ==> e in es;
      WriteKeepsNonneg(l, es[..k], clock);
    }
  }

  lemma {:induction false} RunKeepsNonneg(c: Config, l: Ledger, ops: seq<Op>)
    requires Nonneg(l.inDaily) && forall op :: op in ops ==> NonnegOp(op)
    ensures Nonneg(Run(c, l, ops).inDaily)
    decreases |ops|
  {
    if ops != [] {
      assert ops[0] in ops;
      match ops[0] {
        case Batch(es, clock) => WriteKeepsNonneg(l, es, clock);
        case DeleteEvents(_) =>
        case DeleteDaily(now) => KeepRowsMembers(l.inDaily, AggregateFloor(c, now));
        case DeleteClients(_) =>
      }
      RunKeepsNonneg(c, Apply(c, l, ops[0]), ops[1..]);
    }
  }

  lemma {:induction false} CallsKeepNonneg(c: Config, l: Ledger, calls: seq<Call>)
    requires Nonneg(l.inDaily) && forall call, op :: call in calls && op in CallOps(call) ==> NonnegOp(op)
    ensures Nonneg(RunCalls(c, l, calls).inDaily)
    decreases |calls|
  {
    if calls != [] {
      assert calls[0] in calls;
      RunKeepsNonneg(c, l, CallOps(calls[0]));
      CallsKeepNonneg(c, Run(c, l, CallOps(calls[0])), calls[1..]);
    }
  }

  /** So on every run from an empty store no dashboard sum is below the log's own. */
  lemma DashboardAlwaysCoversLog(c: Config, calls: seq<Call>, s: Slice, m: Measure)
    requires c.eventDays <= c.aggregateDays && AllFresh(c, calls)
    requires forall call, op :: call in calls && op in CallOps(call) ==> NonnegOp(op)
    ensures var db := RunCalls(c, NEW, calls).db; DailyTotal(db.daily, s, m) >= LogTotal(db.events, s, m)
  {
    NewIsCorrect();
    CallsKeepViews(c, NEW, calls);
    CallsKeepCounted(c, NEW, calls);
    CallsKeepNonneg(c, NEW, calls);
    DashboardCoversLog(RunCalls(c, NEW, calls), s, m);
  }

  // ---- the two aggregates against each other ----

  lemma {:induction false} SameRowsSameTotals(rows: seq<Row>, lo: int, hi: int, m: Measure)
    ensures LogTotal(rows, Slice(lo, hi, None, None), m) == LogClientTotal(rows, ClientSlice(lo, hi, None), m)
  {
    if rows != [] {
      SameRowsSameTotals(rows[1..], lo, hi, m);
    }
  }

  /** stats_daily and stats_daily_client show the same pulls and bytes on every day from `day` on. */
  ghost predicate AgreeFrom(db: DB, day: int) {
    forall lo, hi, m :: day <= lo && m != Errors ==>
      DailyTotal(db.daily, Slice(lo, hi, None, None), m) == ClientTotal(db.clients, ClientSlice(lo, hi, None), m)
  }

  ghost predicate Agree(db: DB) {
    forall day :: AgreeFrom(db, day)
  }

  ghost predicate FloorsBefore(c: Config, ops: seq<Op>, day: int) {
    forall op :: op in ops && (op.DeleteDaily? || op.DeleteClients?) ==> AggregateFloor(c, op.now) <= day
  }

  lemma {:induction false} RunKeepsAgreement(c: Config, l: Ledger, ops: seq<Op>, day: int)
    requires KeepRows(l.inDaily, day) == KeepRows(l.inClients, day) && FloorsBefore(c, ops, day)
    ensures var l' := Run(c, l, ops); KeepRows(l'.inDaily, day) == KeepRows(l'.inClients, day)
    decreases |ops|
  {
    if ops != [] {
      assert ops[0] in ops;
      match ops[0] {
        case Batch(es, clock) => WriteKeepsSame(l, es, clock, day);
        case DeleteEvents(_) =>
        case DeleteDaily(now) => KeepTwice(l.inDaily, AggregateFloor(c, now), day);
        case DeleteClients(now) => KeepTwice(l.inClients, AggregateFloor(c, now), day);
      }
      RunKeepsAgreement(c, Apply(c, l, ops[0]), ops[1..], day);
    }
  }

  lemma SameRowsAgree(l: Ledger, day: int)
    requires ViewsCorrect(l) && KeepRows(l.inDaily, day) == KeepRows(l.inClients, day)
    ensures AgreeFrom(l.db, day)
  {
    forall lo, hi, m | day <= lo && m != Errors
      ensures DailyTotal(l.db.daily, Slice(lo, hi, None, None), m) == ClientTotal(l.db.clients, ClientSlice(lo, hi, None), m)
    {
      KeepRowsSpec(l.inDaily, day);
      KeepRowsSpec(l.inClients, day);
      assert From(Slice(lo, hi, None, None), day) == Slice(lo, hi, None, None);
      assert ClientFrom(ClientSlice(lo, hi, None), day) == ClientSlice(lo, hi, None);
      SameRowsSameTotals(KeepRows(l.inDaily, day), lo, hi, m);
    }
  }

  /** Wherever purges stopped, the aggregates agree on every day not below a floor used so far. */
  lemma AggregatesAgreeAboveFloors(c: Config, ops: seq<Op>, day: int)
    requires FloorsBefore(c, ops, day)
    ensures AgreeFrom(Run(c, NEW, ops).db, day)
  {
    NewIsCorrect();
    AggregatesAreViews(c, NEW, ops);
    RunKeepsAgreement(c, NEW, ops, day);
    SameRowsAgree(Run(c, NEW, ops), day);
  }

  lemma PurgeAll(c: Config, l: Ledger, now: int)
    ensures Run(c, l, PurgeOps(now, [], [], 3)) ==
      Apply(c, Apply(c, Apply(c, l, DeleteEvents(now)), DeleteDaily(now)), DeleteClients(now))
  {
    assert PurgeOps(now, [], [], 3) == [DeleteEvents(now)] + ([DeleteDaily(now)] + [DeleteClients(now)]);
    var l1, l2 := Apply(c, l, DeleteEvents(now)), Apply(c, Apply(c, l, DeleteEvents(now)), DeleteDaily(now));
    RunAppend(c, l, [DeleteEvents(now)], [DeleteDaily(now)] + [DeleteClients(now)]);
    RunAppend(c, l1, [DeleteDaily(now)], [DeleteClients(now)]);
    RunOne(c, l, DeleteEvents(now));
    RunOne(c, l1, DeleteDaily(now));
    RunOne(c, l2, DeleteClients(now));
  }

  /** A purge whose three statements all ran, nothing in between. */
  predicate Completed(call: Call) {
    call.PurgeExpired? ==> |call.first| == 0 == |call.second| && call.stop >= 3
  }

  lemma {:induction false} CallsKeepAgreement(c: Config, l: Ledger, calls: seq<Call>)
    requires ViewsCorrect(l) && l.inDaily == l.inClients && forall call :: call in calls ==> Completed(call)
    ensures var l' := RunCalls(c, l, calls); ViewsCorrect(l') && l'.inDaily == l'.inClients
    decreases |calls|
  {
    if calls != [] {
      assert calls[0] in calls;
      AggregatesAreViews(c, l, CallOps(calls[0]));
      match calls[0] {
        case WriteBatch(es, clock) =>
          RunOne(c, l, Batch(es, clock));
          WriteKeepsSame(l, es, clock, 0);
        case PurgeExpired(now, _, _, _) => PurgeAll(c, l, now);
      }
      CallsKeepAgreement(c, Run(c, l, CallOps(calls[0])), calls[1..]);
    }
  }

  /** After any sequence of completed calls, at any clock, the aggregates agree on every day. */
  lemma CompletedCallsAgree(c: Config, calls: seq<Call>)
    requires forall call :: call in calls ==> Completed(call)
    ensures Agree(RunCalls(c, NEW, calls).db)
  {
    NewIsCorrect();
    CallsKeepAgreement(c, NEW, calls);
    forall day ensures AgreeFrom(RunCalls(c, NEW, calls).db, day) {
      SameRowsAgree(RunCalls(c, NEW, calls), day);
    }
  }

  /** A purge that stopped half-way is repaired by the next complete one whose floor is not lower. */
  lemma FullPurgeRealigns(c: Config, ops: seq<Op>, now: int)
    requires FloorsBefore(c, ops, AggregateFloor(c, now))
    ensures Agree(Run(c, NEW, ops + PurgeOps(now, [], [], 3)).db)
  {
    var l, f := Run(c, NEW, ops), AggregateFloor(c, now);
    var l' := Run(c, NEW, ops + PurgeOps(now, [], [], 3));
    NewIsCorrect();
    AggregatesAreViews(c, NEW, ops + PurgeOps(now, [], [], 3));
    RunKeepsAgreement(c, NEW, ops, f);
    RunAppend(c, NEW, ops, PurgeOps(now, [], [], 3));
    PurgeAll(c, l, now);
    forall day ensures AgreeFrom(l'.db, day) {
      SameRowsAgree(l', day);
    }
  }

  // ---- exactly when a purge that fails at its third statement shows ----

  function Days(lo: int, hi: int): Slice {
    Slice(lo, hi, None, None)
  }

  /** No day below the floor shows any pulls or bytes. */
  ghost predicate Worthless(t: seq<DailyRow>, floor: int) {
    forall day, m :: day < floor && m != Errors ==> DailyTotal(t, Days(day, day), m) == 0
  }

  lemma {:induction false} SplitDays(t: seq<DailyRow>, lo: int, hi: int, at: int, m: Measure)
    ensures DailyTotal(t, Days(lo, hi), m) ==
      DailyTotal(t, Days(lo, if hi < at then hi else at - 1), m) + DailyTotal(t, Days(Max(lo, at), hi), m)
  {
    if t != [] {
      SplitDays(t[1..], lo, hi, at, m);
    }
  }

  lemma {:induction false} NoDays(t: seq<DailyRow>, lo: int, hi: int, m: Measure)
    requires hi < lo
    ensures DailyTotal(t, Days(lo, hi), m) == 0
  {
    if t != [] {
      NoDays(t[1..], lo, hi, m);
    }
  }

  lemma {:induction false} WorthlessRange(t: seq<DailyRow>, lo: int, hi: int, floor: int, m: Measure)
    requires Worthless(t, floor) && hi < floor && m != Errors
    ensures DailyTotal(t, Days(lo, hi), m) == 0
    decreases hi - lo
  {
    if hi < lo {
      NoDays(t, lo, hi, m);
    } else {
      SplitDays(t, lo, hi, hi, m);
      WorthlessRange(t, lo, hi - 1, floor, m);
    }
  }

  /** What the days from `floor` on show is all there is, exactly when the days below it show nothing. */
  lemma CutShowsExactly(t: seq<DailyRow>, floor: int)
    ensures Worthless(t, floor) <==>
      forall lo, hi, m :: m != Errors ==> DailyTotal(t, Days(Max(lo, floor), hi), m) == DailyTotal(t, Days(lo, hi), m)
  {
    if Worthless(t, floor) {
      forall lo, hi, m | m != Errors
        ensures DailyTotal(t, Days(Max(lo, floor), hi), m) == DailyTotal(t, Days(lo, hi), m)
      {
        SplitDays(t, lo, hi, floor, m);
        WorthlessRange(t, lo, if hi < floor then hi else floor - 1, floor, m);
      }
    } else {
      var day, m :| day < floor && m != Errors && DailyTotal(t, Days(day, day), m) != 0;
      NoDays(t, Max(day, floor), day, m);
    }
  }

  /**
   * From agreement, deleting the old days of stats_daily alone keeps the two aggregates in agreement if and only
   * if no deleted day showed a pull or a byte.
   */
  lemma DailyDeleteAgreesExactly(c: Config, l: Ledger, now: int)
    requires Agree(l.db)
    ensures Agree(Apply(c, l, DeleteDaily(now)).db) <==> Worthless(l.db.daily, AggregateFloor(c, now))
  {
    var f, t, after := AggregateFloor(c, now), l.db.daily, Apply(c, l, DeleteDaily(now)).db;
    KeepDailySpec(t, f);
    CutShowsExactly(t, f);
    forall lo, hi, m | m != Errors
      ensures DailyTotal(t, Days(lo, hi), m) == ClientTotal(after.clients, ClientSlice(lo, hi, None), m)
      ensures DailyTotal(after.daily, Days(lo, hi), m) == DailyTotal(t, Days(Max(lo, f), hi), m)
    {
      assert AgreeFrom(l.db, lo);
      assert From(Days(lo, hi), f) == Days(Max(lo, f), hi);
    }
    if Agree(after) {
      forall lo, hi, m | m != Errors
        ensures DailyTotal(t, Days(Max(lo, f), hi), m) == DailyTotal(t, Days(lo, hi), m)
      {
        assert AgreeFrom(after, lo);
      }
    }
    if Worthless(t, f) {
      forall day ensures AgreeFrom(after, day) {
        forall lo, hi, m | day <= lo && m != Errors
          ensures DailyTotal(after.daily, Days(lo, hi), m) == ClientTotal(after.clients, ClientSlice(lo, hi, None), m)
        {
          assert DailyTotal(t, Days(Max(lo, f), hi), m) == DailyTotal(t, Days(lo, hi), m);
        }
      }
    }
  }

  /**
   * After any completed calls, a purge that fails at its third statement leaves the aggregates in agreement if
   * and only if the days it deleted from stats_daily showed no pulls and no bytes.
   */
  lemma PartialPurgeAgreesExactly(c: Config, calls: seq<Call>, now: int)
    requires forall call :: call in calls ==> Completed(call)
    ensures var l := RunCalls(c, NEW, calls);
      Agree(Run(c, l, PurgeOps(now, [], [], 2)).db) <==> Worthless(l.db.daily, AggregateFloor(c, now))
  {
    var l := RunCalls(c, NEW, calls);
    CompletedCallsAgree(c, calls);
    var l1 := Apply(c, l, DeleteEvents(now));
    forall day ensures AgreeFrom(l1.db, day) {
      assert AgreeFrom(l.db, day);
    }
    PurgeTwo(c, l, now, []);
    DailyDeleteAgreesExactly(c, l1, now);
  }

  lemma OneEventIs(e: Event, clock: nat -> int)
    ensures Write(EMPTY, [e], clock).daily == [OneRow(e, Unix(e, clock(0)))]
  {
    assert Write(EMPTY, [e][..0], clock) == EMPTY;
    assert Write(EMPTY, [e], clock) == Insert(EMPTY, e, clock(0));
  }

  function OneRow(e: Event, ts: int): DailyRow {
    DailyRow(Day(ts), e.registry, Columns(e, ts).repository, Pull(e), e.bytes, ManifestError(e))
  }

  lemma OneRowTotal(d: DailyRow, lo: int, hi: int, m: Measure)
    ensures DailyTotal([d], Days(lo, hi), m) == if lo <= d.day <= hi then DailyValue(d, m) else 0
  {
    assert [d][1..] == [];
  }

  lemma OneRowWorth(d: DailyRow, floor: int)
    requires d.day < floor
    ensures Worthless([d], floor) <==> d.pulls == 0 && d.bytes == 0
  {
    OneRowTotal(d, d.day, d.day, Pulls);
    OneRowTotal(d, d.day, d.day, Bytes);
    if d.pulls == 0 && d.bytes == 0 {
      forall day, m | day < floor && m != Errors ensures DailyTotal([d], Days(day, day), m) == 0 {
        OneRowTotal(d, day, day, m);
      }
    }
  }

  /** For one event older than the floor: they agree exactly when it was no pull and moved no bytes. */
  lemma PartialPurgeDisagrees(c: Config, e: Event, clock: nat -> int, now: int)
    requires Day(Unix(e, clock(0))) < AggregateFloor(c, now)
    ensures Agree(Run(c, RunCalls(c, NEW, [WriteBatch([e], clock)]), PurgeOps(now, [], [], 2)).db) <==>
              !e.IsPull() && e.bytes == 0
  {
    var calls := [WriteBatch([e], clock)];
    PartialPurgeAgreesExactly(c, calls, now);
    RunOne(c, NEW, Batch([e], clock));
    assert calls[1..] == [];
    assert RunCalls(c, NEW, calls) == WriteAll(NEW, [e], clock);
    OneEventIs(e, clock);
    OneRowWorth(OneRow(e, Unix(e, clock(0))), AggregateFloor(c, now));
  }
}
