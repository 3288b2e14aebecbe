/**
 * The three statistics tables of internal/store/store.go as values: pull_events, and the two aggregates
 * that WriteBatch keeps by upserts. A table is the sequence of its rows in rowid order; a day is a whole
 * number of 86400-second days since the Unix epoch (UTC), ordered as the YYYY-MM-DD text is.
 */
module Tables {
  import opened Common
  import opened Record

  const SECONDS_PER_DAY := 86400

  /** `col` holds the column values, with the defaults for an empty repository and client filled in. */
  datatype Row = Row(id: int, ts: int, col: Event)

  datatype DailyRow = DailyRow(day: int, registry: string, repository: string, pulls: int, bytes: int, errors: int)

  datatype ClientRow = ClientRow(day: int, ip: string, pulls: int, bytes: int)

  datatype DB = DB(events: seq<Row>, nextId: int, daily: seq<DailyRow>, clients: seq<ClientRow>)

  const EMPTY := DB([], 1, [], [])

  function Day(ts: int): int {
    ts / SECONDS_PER_DAY
  }

  function Unix(e: Event, now: int): int {
    if e.ts.None? then now else e.ts.value
  }

  function Columns(e: Event, ts: int): Event {
    e.(ts := Some(ts),
       repository := if e.repository == "" then "-" else e.repository,
       clientIP := if e.clientIP == "" then "unknown" else e.clientIP)
  }

  function Pull(e: Event): int {
    if e.IsPull() then 1 else 0
  }

  /** The error column of stats_daily counts failed manifest requests only. */
  function ManifestError(e: Event): int {
    if e.eventType == MANIFEST && e.IsError() then 1 else 0
  }

  function UpsertDaily(t: seq<DailyRow>, d: DailyRow): seq<DailyRow> {
    if t == [] then [d]
    else if t[0].day == d.day && t[0].registry == d.registry && t[0].repository == d.repository then
      [t[0].(pulls := t[0].pulls + d.pulls, bytes := t[0].bytes + d.bytes, errors := t[0].errors + d.errors)] + t[1..]
    else [t[0]] + UpsertDaily(t[1..], d)
  }

  function UpsertClient(t: seq<ClientRow>, c: ClientRow): seq<ClientRow> {
    if t == [] then [c]
    else if t[0].day == c.day && t[0].ip == c.ip then
      [t[0].(pulls := t[0].pulls + c.pulls, bytes := t[0].bytes + c.bytes)] + t[1..]
    else [t[0]] + UpsertClient(t[1..], c)
  }

  function RowFor(db: DB, e: Event, now: int): Row {
    Row(db.nextId, Unix(e, now), Columns(e, Unix(e, now)))
  }

  /** One turn of the loop in WriteBatch. */
  function Insert(db: DB, e: Event, now: int): DB {
    var r := RowFor(db, e, now);
    var day := Day(r.ts);
    DB(db.events + [r],
       db.nextId + 1,
       UpsertDaily(db.daily, DailyRow(day, e.registry, r.col.repository, Pull(e), e.bytes, ManifestError(e))),
       UpsertClient(db.clients, ClientRow(day, r.col.clientIP, Pull(e), e.bytes)))
  }

  /** A committed WriteBatch; `clock(i)` is the time read for event i, used only if it carries none. */
  function Write(db: DB, es: seq<Event>, clock: nat -> int): DB {
    if es == [] then db
    else Insert(Write(db, es[..|es| - 1], clock), es[|es| - 1], clock(|es| - 1))
  }

  /** What row r of pull_events shows of event e: its own columns, with two defaults. */
  predicate Shows(r: Row, id: int, ts: int, e: Event) {
    && r.id == id && r.ts == ts
    && r.col.repository == (if e.repository == "" then "-" else e.repository)
    && r.col.clientIP == (if e.clientIP == "" then "unknown" else e.clientIP)
    && r.col.registry == e.registry && r.col.host == e.host && r.col.eventType == e.eventType
    && r.col.reference == e.reference && r.col.verb == e.verb && r.col.status == e.status
    && r.col.bytes == e.bytes && r.col.durationMS == e.durationMS && r.col.userAgent == e.userAgent
    && r.col.error == e.error && r.col.pullUser == e.pullUser
  }

  /** Row k of the batch shows event k, under the next rowid and the event's own time or the one read for it. */
  ghost predicate Appended(before: DB, after: DB, es: seq<Event>, clock: nat -> int) {
    && |after.events| == |before.events| + |es| && after.nextId == before.nextId + |es|
    && after.events[..|before.events|] == before.events
    && forall k: nat :: k < |es| ==>
         Shows(after.events[|before.events| + k], before.nextId + k,
               if es[k].ts.Some? then es[k].ts.value else clock(k), es[k])
  }

  lemma {:induction false} WriteAppends(db: DB, es: seq<Event>, clock: nat -> int)
    ensures Appended(db, Write(db, es, clock), es, clock)
  {
    if es != [] {
      var k := |es| - 1;
      WriteAppends(db, es[..k], clock);
      var before, after := Write(db, es[..k], clock), Write(db, es, clock);
      assert after.events == before.events + [RowFor(before, es[k], clock(k))];
      forall i: nat | i < |es|
        ensures Shows(after.events[|db.events| + i], db.nextId + i, if es[i].ts.Some? then es[i].ts.value else clock(i), es[i])
      {
        if i < k {
          assert es[..k][i] == es[i] && after.events[|db.events| + i] == before.events[|db.events| + i];
        }
      }
    }
  }

  /** What one event adds to the columns of the aggregates, in the source's own terms. */
  lemma WhatCounts(e: Event)
    ensures EventValue(e, Bytes) == e.bytes
    ensures EventValue(e, Pulls) ==
      if e.eventType == "manifest" && 200 <= e.status <= 299 && ToUpper(TrimSpace(e.verb)) in {"", "GET"} then 1 else 0
    ensures EventValue(e, Errors) ==
      if e.eventType == "manifest" && (e.status >= 400 || (e.status == 0 && e.error != "")) then 1 else 0
  {
  }

  // DELETE ... WHERE ts < cutoff, and WHERE day < floor

  function KeepEvents(t: seq<Row>, cutoff: int): seq<Row> {
    if t == [] then []
    else (if t[0].ts >= cutoff then [t[0]] else []) + KeepEvents(t[1..], cutoff)
  }

  function KeepDaily(t: seq<DailyRow>, floor: int): seq<DailyRow> {
    if t == [] then []
    else (if t[0].day >= floor then [t[0]] else []) + KeepDaily(t[1..], floor)
  }

  function KeepClients(t: seq<ClientRow>, floor: int): seq<ClientRow> {
    if t == [] then []
    else (if t[0].day >= floor then [t[0]] else []) + KeepClients(t[1..], floor)
  }

  // ---- sums over slices: what every query of the dashboard reads ----

  datatype Measure = Pulls | Bytes | Errors

  /** WHERE day BETWEEN lo AND hi [AND registry = ?] [AND repository = ?] [AND client_ip = ?] */
  datatype Slice = Slice(lo: int, hi: int, registry: Option<string>, repository: Option<string>)

  datatype ClientSlice = ClientSlice(lo: int, hi: int, ip: Option<string>)

  predicate Selects(o: Option<string>, v: string) {
    o.Some? ==> o.value == v
  }

  predicate InSlice(s: Slice, day: int, registry: string, repository: string) {
    s.lo <= day <= s.hi && Selects(s.registry, registry) && Selects(s.repository, repository)
  }

  predicate InClientSlice(s: ClientSlice, day: int, ip: string) {
    s.lo <= day <= s.hi && Selects(s.ip, ip)
  }

  function DailyValue(d: DailyRow, m: Measure): int {
    match m
    case Pulls => d.pulls
    case Bytes => d.bytes
    case Errors => d.errors
  }

  function ClientValue(c: ClientRow, m: Measure): int {
    match m
    case Pulls => c.pulls
    case Bytes => c.bytes
    case Errors => 0
  }

  function EventValue(e: Event, m: Measure): int {
    match m
    case Pulls => Pull(e)
    case Bytes => e.bytes
    case Errors => ManifestError(e)
  }

  /** SELECT SUM(m) FROM stats_daily */
  function DailyTotal(t: seq<DailyRow>, s: Slice, m: Measure): int {
    if t == [] then 0
    else (if InSlice(s, t[0].day, t[0].registry, t[0].repository) then DailyValue(t[0], m) else 0)
         + DailyTotal(t[1..], s, m)
  }

  /** SELECT SUM(m) FROM stats_daily_client */
  function ClientTotal(t: seq<ClientRow>, s: ClientSlice, m: Measure): int {
    if t == [] then 0
    else (if InClientSlice(s, t[0].day, t[0].ip) then ClientValue(t[0], m) else 0) + ClientTotal(t[1..], s, m)
  }

  function RowValue(r: Row, s: Slice, m: Measure): int {
    if InSlice(s, Day(r.ts), r.col.registry, r.col.repository) then EventValue(r.col, m) else 0
  }

  function RowClientValue(r: Row, s: ClientSlice, m: Measure): int {
    if InClientSlice(s, Day(r.ts), r.col.clientIP) then EventValue(r.col, m) else 0
  }

  /** The same sums recomputed from the log. */
  function LogTotal(t: seq<Row>, s: Slice, m: Measure): int {
    if t == [] then 0 else RowValue(t[0], s, m) + LogTotal(t[1..], s, m)
  }

  function LogClientTotal(t: seq<Row>, s: ClientSlice, m: Measure): int {
    if t == [] then 0 else RowClientValue(t[0], s, m) + LogClientTotal(t[1..], s, m)
  }

  // ---- primary keys ----

  datatype DailyKey = DailyKey(day: int, registry: string, repository: string)

  datatype ClientKey = ClientKey(day: int, ip: string)

  function KeyOf(d: DailyRow): DailyKey {
    DailyKey(d.day, d.registry, d.repository)
  }

  function ClientKeyOf(c: ClientRow): ClientKey {
    ClientKey(c.day, c.ip)
  }

  function LogKeyOf(r: Row): DailyKey {
    DailyKey(Day(r.ts), r.col.registry, r.col.repository)
  }

  function LogClientKeyOf(r: Row): ClientKey {
    ClientKey(Day(r.ts), r.col.clientIP)
  }

  function DailyKeys(t: seq<DailyRow>): set<DailyKey> {
    if t == [] then {} else {KeyOf(t[0])} + DailyKeys(t[1..])
  }

  function ClientKeys(t: seq<ClientRow>): set<ClientKey> {
    if t == [] then {} else {ClientKeyOf(t[0])} + ClientKeys(t[1..])
  }

  function LogKeys(t: seq<Row>): set<DailyKey> {
    if t == [] then {} else {LogKeyOf(t[0])} + LogKeys(t[1..])
  }

  function LogClientKeys(t: seq<Row>): set<ClientKey> {
    if t == [] then {} else {LogClientKeyOf(t[0])} + LogClientKeys(t[1..])
  }

  /** PRIMARY KEY (day, registry, repository) */
  predicate DailyKeysDistinct(t: seq<DailyRow>) {
    t == [] || (KeyOf(t[0]) !in DailyKeys(t[1..]) && DailyKeysDistinct(t[1..]))
  }

  /** PRIMARY KEY (day, client_ip) */
  predicate ClientKeysDistinct(t: seq<ClientRow>) {
    t == [] || (ClientKeyOf(t[0]) !in ClientKeys(t[1..]) && ClientKeysDistinct(t[1..]))
  }

  /**
   * `t` is SELECT day, registry, repository, SUM(..) FROM rows GROUP BY day, registry, repository:
   * one row for each key that occurs, none for any other, and every sum over every slice is right.
   */
  ghost predicate IsDailyView(t: seq<DailyRow>, rows: seq<Row>) {
    && DailyKeysDistinct(t)
    && DailyKeys(t) == LogKeys(rows)
    && (forall s, m :: DailyTotal(t, s, m) == LogTotal(rows, s, m))
  }

  ghost predicate IsClientView(t: seq<ClientRow>, rows: seq<Row>) {
    && ClientKeysDistinct(t)
    && ClientKeys(t) == LogClientKeys(rows)
    && (forall s, m :: m != Errors ==> ClientTotal(t, s, m) == LogClientTotal(rows, s, m))
  }

  // ---- one upsert ----

  lemma {:induction false} UpsertDailyTotal(t: seq<DailyRow>, d: DailyRow, s: Slice, m: Measure)
    ensures DailyTotal(UpsertDaily(t, d), s, m) ==
      DailyTotal(t, s, m) + (if InSlice(s, d.day, d.registry, d.repository) then DailyValue(d, m) else 0)
  {
    if t != [] {
      UpsertDailyTotal(t[1..], d, s, m);
    }
  }

  lemma {:induction false} UpsertClientTotal(t: seq<ClientRow>, c: ClientRow, s: ClientSlice, m: Measure)
    ensures ClientTotal(UpsertClient(t, c), s, m) ==
      ClientTotal(t, s, m) + (if InClientSlice(s, c.day, c.ip) then ClientValue(c, m) else 0)
  {
    if t != [] {
      UpsertClientTotal(t[1..], c, s, m);
    }
  }

  lemma {:induction false} UpsertDailyKeys(t: seq<DailyRow>, d: DailyRow)
    ensures DailyKeys(UpsertDaily(t, d)) == DailyKeys(t) + {KeyOf(d)}
    ensures DailyKeysDistinct(t) ==> DailyKeysDistinct(UpsertDaily(t, d))
  {
    if t != [] {
      UpsertDailyKeys(t[1..], d);
    }
  }

  lemma {:induction false} UpsertClientKeys(t: seq<ClientRow>, c: ClientRow)
    ensures ClientKeys(UpsertClient(t, c)) == ClientKeys(t) + {ClientKeyOf(c)}
    ensures ClientKeysDistinct(t) ==> ClientKeysDistinct(UpsertClient(t, c))
  {
    if t != [] {
      UpsertClientKeys(t[1..], c);
    }
  }

  lemma {:induction false} LogSnoc(rows: seq<Row>, r: Row)
    ensures LogKeys(rows + [r]) == LogKeys(rows) + {LogKeyOf(r)}
    ensures LogClientKeys(rows + [r]) == LogClientKeys(rows) + {LogClientKeyOf(r)}
    ensures forall s, m :: LogTotal(rows + [r], s, m) == LogTotal(rows, s, m) + RowValue(r, s, m)
    ensures forall s, m :: LogClientTotal(rows + [r], s, m) == LogClientTotal(rows, s, m) + RowClientValue(r, s, m)
  {
    if rows != [] {
      assert (rows + [r])[1..] == rows[1..] + [r];
      LogSnoc(rows[1..], r);
    }
  }

  /** The upserts of one event keep both aggregates equal to the GROUP BY of the rows they have counted. */
  lemma InsertKeepsViews(db: DB, e: Event, now: int, inDaily: seq<Row>, inClients: seq<Row>)
    requires IsDailyView(db.daily, inDaily) && IsClientView(db.clients, inClients)
    ensures var db' := Insert(db, e, now); var r := RowFor(db, e, now);
      IsDailyView(db'.daily, inDaily + [r]) && IsClientView(db'.clients, inClients + [r])
  {
    var r := RowFor(db, e, now);
    var db' := Insert(db, e, now);
    var d := DailyRow(Day(r.ts), e.registry, r.col.repository, Pull(e), e.bytes, ManifestError(e));
    var c := ClientRow(Day(r.ts), r.col.clientIP, Pull(e), e.bytes);
    LogSnoc(inDaily, r);
    LogSnoc(inClients, r);
    UpsertDailyKeys(db.daily, d);
    UpsertClientKeys(db.clients, c);
    assert EventValue(r.col, Pulls) == Pull(e) && EventValue(r.col, Errors) == ManifestError(e);
    forall s, m ensures DailyTotal(db'.daily, s, m) == LogTotal(inDaily + [r], s, m) {
      UpsertDailyTotal(db.daily, d, s, m);
    }
    forall s, m | m != Errors ensures ClientTotal(db'.clients, s, m) == LogClientTotal(inClients + [r], s, m) {
      UpsertClientTotal(db.clients, c, s, m);
    }
  }

  // ---- one DELETE ----

  function KeepRows(t: seq<Row>, floor: int): seq<Row> {
    if t == [] then []
    else (if Day(t[0].ts) >= floor then [t[0]] else []) + KeepRows(t[1..], floor)
  }

  function From(s: Slice, floor: int): Slice {
    s.(lo := Max(s.lo, floor))
  }

  function ClientFrom(s: ClientSlice, floor: int): ClientSlice {
    s.(lo := Max(s.lo, floor))
  }

  lemma {:induction false} KeepDailySpec(t: seq<DailyRow>, floor: int)
    ensures forall k :: k in DailyKeys(KeepDaily(t, floor)) <==> k in DailyKeys(t) && k.day >= floor
    ensures DailyKeysDistinct(t) ==> DailyKeysDistinct(KeepDaily(t, floor))
    ensures forall s, m :: DailyTotal(KeepDaily(t, floor), s, m) == DailyTotal(t, From(s, floor), m)
  {
    if t != [] {
      KeepDailySpec(t[1..], floor);
      var rest := KeepDaily(t[1..], floor);
      assert KeepDaily(t, floor) == if t[0].day >= floor then [t[0]] + rest else rest;
      assert ([t[0]] + rest)[1..] == rest;
    }
  }

  lemma {:induction false} KeepClientsSpec(t: seq<ClientRow>, floor: int)
    ensures forall k :: k in ClientKeys(KeepClients(t, floor)) <==> k in ClientKeys(t) && k.day >= floor
    ensures ClientKeysDistinct(t) ==> ClientKeysDistinct(KeepClients(t, floor))
    ensures forall s, m :: ClientTotal(KeepClients(t, floor), s, m) == ClientTotal(t, ClientFrom(s, floor), m)
  {
    if t != [] {
      KeepClientsSpec(t[1..], floor);
      var rest := KeepClients(t[1..], floor);
      assert KeepClients(t, floor) == if t[0].day >= floor then [t[0]] + rest else rest;
      assert ([t[0]] + rest)[1..] == rest;
    }
  }

  lemma {:induction false} KeepRowsSpec(t: seq<Row>, floor: int)
    ensures forall k :: k in LogKeys(KeepRows(t, floor)) <==> k in LogKeys(t) && k.day >= floor
    ensures forall k :: k in LogClientKeys(KeepRows(t, floor)) <==> k in LogClientKeys(t) && k.day >= floor
    ensures forall s, m :: LogTotal(KeepRows(t, floor), s, m) == LogTotal(t, From(s, floor), m)
    ensures forall s, m :: LogClientTotal(KeepRows(t, floor), s, m) == LogClientTotal(t, ClientFrom(s, floor), m)
  {
    if t != [] {
      KeepRowsSpec(t[1..], floor);
      var rest := KeepRows(t[1..], floor);
      assert KeepRows(t, floor) == if Day(t[0].ts) >= floor then [t[0]] + rest else rest;
      assert ([t[0]] + rest)[1..] == rest;
    }
  }

  /** DELETE WHERE day < floor turns the view of `rows` into the view of the rows from day `floor` on. */
  lemma DeleteKeepsViews(daily: seq<DailyRow>, clients: seq<ClientRow>, rows: seq<Row>, floor: int)
    ensures IsDailyView(daily, rows) ==> IsDailyView(KeepDaily(daily, floor), KeepRows(rows, floor))
    ensures IsClientView(clients, rows) ==> IsClientView(KeepClients(clients, floor), KeepRows(rows, floor))
  {
    KeepDailySpec(daily, floor);
    KeepClientsSpec(clients, floor);
    KeepRowsSpec(rows, floor);
  }
}
