/** internal/store/store.go: WriteBatch and PurgeExpired as they change the database. */
module Store {
  import opened Common
  import opened Record
  import opened Tables
  import opened Retention

  /** One turn of the loop: the INSERT of an event and its two upserts; `now` is the time read if it carries none. */
  method InsertEvent(events: seq<Row>, nextId: int, daily: seq<DailyRow>, clients: seq<ClientRow>, e: Event, now: int)
    returns (events': seq<Row>, nextId': int, daily': seq<DailyRow>, clients': seq<ClientRow>)
    ensures DB(events', nextId', daily', clients') == Insert(DB(events, nextId, daily, clients), e, now)
  {
    var ts := if e.ts.None? then now else e.ts.value;
    var repo := if e.repository == "" then "-" else e.repository;
    var ip := if e.clientIP == "" then "unknown" else e.clientIP;
    events' := events + [Row(nextId, ts, e.(ts := Some(ts), repository := repo, clientIP := ip))];
    nextId' := nextId + 1;
    var pulls := if e.IsPull() then 1 else 0;
    var errors := if e.eventType == MANIFEST && e.IsError() then 1 else 0;
    daily' := UpsertDaily(daily, DailyRow(Day(ts), e.registry, repo, pulls, e.bytes, errors));
    clients' := UpsertClient(clients, ClientRow(Day(ts), ip, pulls, e.bytes));
  }

  class Store {
    const config: Config
    var events: seq<Row>
    var nextId: int
    var daily: seq<DailyRow>
    var clients: seq<ClientRow>

    ghost function Db(): DB
      reads this
    {
      DB(events, nextId, daily, clients)
    }

    constructor (eventDays: int, aggregateDays: int)
      ensures Db() == EMPTY && config == NewConfig(eventDays, aggregateDays)
      ensures config.eventDays == (if eventDays <= 0 then 30 else eventDays)
      ensures config.aggregateDays == (if aggregateDays <= 0 then 365 else aggregateDays)
    {
      config := NewConfig(eventDays, aggregateDays);
      events, nextId, daily, clients := [], 1, [], [];
    }

    /**
     * One transaction. `fault` is the turn at which a statement fails, |es| when the commit fails, and
     * anything larger when nothing does; on failure the deferred Rollback leaves the tables untouched.
     */
    method WriteBatch(es: seq<Event>, clock: nat -> int, fault: nat) returns (ok: bool)
      modifies this
      ensures ok == (es == [] || fault > |es|)
      ensures Db() == if ok then Write(old(Db()), es, clock) else old(Db())
      ensures ok ==> Appended(old(Db()), Db(), es, clock)
    {
      if |es| == 0 {
        WriteAppends(Db(), es, clock);
        return true;
      }
      var txEvents, txNext, txDaily, txClients := events, nextId, daily, clients;
      for i := 0 to |es|
        invariant unchanged(this) && i <= fault
        invariant DB(txEvents, txNext, txDaily, txClients) == Write(Db(), es[..i], clock)
      {
        assert es[..i + 1][..i] == es[..i];
        if fault == i {
          return false;
        }
        txEvents, txNext, txDaily, txClients := InsertEvent(txEvents, txNext, txDaily, txClients, es[i], clock(i));
      }
      assert es[..|es|] == es;
      if fault == |es| {
        return false;
      }
      events, nextId, daily, clients := txEvents, txNext, txDaily, txClients;
      WriteAppends(old(Db()), es, clock);
      return true;
    }

    /** Three independent DELETEs; the first `good` of them succeed. */
    method PurgeExpired(now: int, good: nat) returns (eventsDeleted: int, dailyDeleted: int, clientDeleted: int, ok: bool)
      modifies this
      ensures ok == (good >= 3)
      ensures forall l: Ledger :: l.db == old(Db()) ==> Db() == Run(config, l, PurgeOps(now, [], [], good)).db
      ensures eventsDeleted == |old(events)| - |events|
      ensures dailyDeleted == |old(daily)| - |daily|
      ensures clientDeleted == |old(clients)| - |clients|
      ensures forall r :: r in events <==> r in old(events) && (good < 1 || r.ts >= now - config.eventDays * 86400)
      ensures forall d :: d in daily <==>
        d in old(daily) && (good < 2 || d.day >= (now - config.aggregateDays * 86400) / 86400)
      ensures forall d :: d in clients <==>
        d in old(clients) && (good < 3 || d.day >= (now - config.aggregateDays * 86400) / 86400)
    {
      KeepEventsMembers(events, now - config.eventDays * 86400);
      KeepDailyMembers(daily, (now - config.aggregateDays * 86400) / 86400);
      KeepClientsMembers(clients, (now - config.aggregateDays * 86400) / 86400);
      eventsDeleted, dailyDeleted, clientDeleted := 0, 0, 0;
      var eventCutoff := now - config.eventDays * SECONDS_PER_DAY;
      var aggDay := Day(now - config.aggregateDays * SECONDS_PER_DAY);
      forall l: Ledger | l.db == Db()
        ensures good == 1 ==> Run(config, l, PurgeOps(now, [], [], good)) == Apply(config, l, DeleteEvents(now))
        ensures good == 2 ==> Run(config, l, PurgeOps(now, [], [], good)) ==
                              Apply(config, Apply(config, l, DeleteEvents(now)), DeleteDaily(now))
        ensures good >= 3 ==> Run(config, l, PurgeOps(now, [], [], good)) ==
                              Apply(config, Apply(config, Apply(config, l, DeleteEvents(now)), DeleteDaily(now)), DeleteClients(now))
      {
        PurgePrefixes(config, l, now, good);
      }
      if good < 1 {
        return eventsDeleted, dailyDeleted, clientDeleted, false;
      }
      var keptEvents := KeepEvents(events, eventCutoff);
      eventsDeleted := |events| - |keptEvents|;
      events := keptEvents;
      if good < 2 {
        return eventsDeleted, dailyDeleted, clientDeleted, false;
      }
      var keptDaily := KeepDaily(daily, aggDay);
      dailyDeleted := |daily| - |keptDaily|;
      daily := keptDaily;
      if good < 3 {
        return eventsDeleted, dailyDeleted, clientDeleted, false;
      }
      var keptClients := KeepClients(clients, aggDay);
      clientDeleted := |clients| - |keptClients|;
      clients := keptClients;
      return eventsDeleted, dailyDeleted, clientDeleted, true;
    }
  }

  lemma PurgePrefixes(c: Config, l: Ledger, now: int, good: nat)
    ensures good == 1 ==> Run(c, l, PurgeOps(now, [], [], good)) == Apply(c, l, DeleteEvents(now))
    ensures good == 2 ==> Run(c, l, PurgeOps(now, [], [], good)) ==
                          Apply(c, Apply(c, l, DeleteEvents(now)), DeleteDaily(now))
    ensures good >= 3 ==> Run(c, l, PurgeOps(now, [], [], good)) ==
                          Apply(c, Apply(c, Apply(c, l, DeleteEvents(now)), DeleteDaily(now)), DeleteClients(now))
  {
    if good == 1 {
      RunOne(c, l, DeleteEvents(now));
    } else if good == 2 {
      assert PurgeOps(now, [], [], good) == [DeleteEvents(now)] + [DeleteDaily(now)];
      RunAppend(c, l, [DeleteEvents(now)], [DeleteDaily(now)]);
      RunOne(c, l, DeleteEvents(now));
      RunOne(c, Apply(c, l, DeleteEvents(now)), DeleteDaily(now));
    } else if good >= 3 {
      assert PurgeOps(now, [], [], good) == PurgeOps(now, [], [], 3);
      PurgeAll(c, l, now);
    }
  }
}
