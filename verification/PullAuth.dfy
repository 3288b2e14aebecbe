/** Pull accounts and their credential cache (internal/store/pull_users.go). */
module PullAuth {
  import opened Common
  import opened Credentials

  const SECOND := 1_000_000_000
  const TTL := 30 * SECOND

  datatype Row = Row(username: string, hash: string, enabled: bool)

  /** `nextId` is the AUTOINCREMENT counter: an id is never given out twice. */
  datatype Table = Table(rows: map<nat, Row>, nextId: nat)

  predicate Taken(t: Table, name: string) {
    exists id :: id in t.rows && t.rows[id].username == name
  }

  /** What AuthenticatePull decides from the table alone. */
  predicate Accepts(t: Table, c: Crypto, name: string, password: string) {
    exists id :: id in t.rows && Opens(t.rows[id], c, name, password)
  }

  predicate Opens(r: Row, c: Crypto, name: string, password: string) {
    r.username == name && r.enabled && c.matches(r.hash, password)
  }

  /** `hash` is what bcrypt made of the password, None if it failed; `fault` is a statement the database refused. */
  datatype Mutation =
    | Create(username: string, password: string, enabled: bool, hash: Option<string>, fault: bool)
    | SetPassword(id: nat, password: string, hash: Option<string>, fault: bool)
    | SetEnabled(id: nat, enable: bool, fault: bool)
    | Delete(id: nat, fault: bool)

  function Outcome(t: Table, m: Mutation): Status {
    match m
    case Create(username, password, _, hash, fault) =>
      if TrimSpace(username) == "" then UsernameRequired
      else if Weak(password) then WeakPassword
      else if hash.None? || fault then Failed
      else if Taken(t, TrimSpace(username)) then UserExists
      else Done
    case SetPassword(id, password, hash, fault) =>
      if Weak(password) then WeakPassword
      else if hash.None? || fault then Failed
      else if id !in t.rows then NotFound
      else Done
    case SetEnabled(id, _, fault) => if fault then Failed else if id !in t.rows then NotFound else Done
    case Delete(id, fault) => if fault then Failed else if id !in t.rows then NotFound else Done
  }

  /** The statement a successful mutation runs; any other outcome leaves the table as it was. */
  function Mutate(t: Table, m: Mutation): Table {
    if Outcome(t, m) != Done then t
    else
      match m
      case Create(username, _, enabled, hash, _) =>
        Table(t.rows[t.nextId := Row(TrimSpace(username), hash.value, enabled)], t.nextId + 1)
      case SetPassword(id, _, hash, _) => t.(rows := t.rows[id := t.rows[id].(hash := hash.value)])
      case SetEnabled(id, enable, _) => t.(rows := t.rows[id := t.rows[id].(enabled := enable)])
      case Delete(id, _) => t.(rows := t.rows - {id})
  }

  ghost predicate TableOk(t: Table) {
    && (forall id :: id in t.rows ==> id < t.nextId)
    && (forall i, j :: i in t.rows && j in t.rows && t.rows[i].username == t.rows[j].username ==> i == j)
  }

  lemma MutateKeepsTable(t: Table, m: Mutation)
    requires TableOk(t)
    ensures TableOk(Mutate(t, m))
  {
  }

  datatype Entry = Entry(digest: string, expiresAt: int)

  datatype Accounts = Accounts(table: Table, cache: map<string, Entry>)

  predicate CacheHit(cache: map<string, Entry>, c: Crypto, name: string, password: string, now: int) {
    name != "" && name in cache && now < cache[name].expiresAt && cache[name].digest == c.sha(password)
  }

  function Filled(c: Crypto, password: string, now: int): Entry {
    Entry(c.sha(password), now + TTL)
  }

  // ---- whole operations, one after another ----

  /** A login reads the clock when it looks into the cache (`now`) and when it fills it (`later`). */
  datatype Op =
    | Change(m: Mutation)
    | Login(username: string, password: string, now: int, later: int, fault: bool)

  function Apply(c: Crypto, a: Accounts, op: Op): Accounts {
    match op
    case Change(m) =>
      Accounts(Mutate(a.table, m), if Outcome(a.table, m) == Done && !m.Create? then map[] else a.cache)
    case Login(username, password, now, later, fault) =>
      var name := TrimSpace(username);
      if CacheHit(a.cache, c, name, password, now) || fault || !Accepts(a.table, c, name, password) then a
      else a.(cache := a.cache[name := Filled(c, password, later)])
  }

  predicate LoginAnswer(c: Crypto, a: Accounts, op: Op)
    requires op.Login?
  {
    var name := TrimSpace(op.username);
    CacheHit(a.cache, c, name, op.password, op.now) || (!op.fault && Accepts(a.table, c, name, op.password))
  }

  function Run(c: Crypto, a: Accounts, ops: seq<Op>): Accounts
    decreases |ops|
  {
    if ops == [] then a else Run(c, Apply(c, a, ops[0]), ops[1..])
  }

  /** Whatever the clock says, a cached digest only opens what the table opens now. */
  ghost predicate Sound(c: Crypto, a: Accounts) {
    && TableOk(a.table)
    && forall name, password :: name in a.cache && a.cache[name].digest == c.sha(password) ==>
         Accepts(a.table, c, name, password)
  }

  lemma CreateKeepsAccepts(t: Table, c: Crypto, m: Mutation, name: string, password: string)
    requires TableOk(t) && m.Create? && Accepts(t, c, name, password)
    ensures Accepts(Mutate(t, m), c, name, password)
  {
    var id :| id in t.rows && Opens(t.rows[id], c, name, password);
    assert Mutate(t, m).rows[id] == t.rows[id];
  }

  lemma ApplyKeeps(c: Crypto, a: Accounts, op: Op)
    requires Sound(c, a) && CollisionFree(c)
    ensures Sound(c, Apply(c, a, op))
  {
    var a' := Apply(c, a, op);
    if op.Change? {
      MutateKeepsTable(a.table, op.m);
      forall name, password | name in a'.cache && a'.cache[name].digest == c.sha(password)
        ensures Accepts(a'.table, c, name, password)
      {
        if op.m.Create? { CreateKeepsAccepts(a.table, c, op.m, name, password); }
      }
    }
  }

  lemma {:induction false} RunKeeps(c: Crypto, a: Accounts, ops: seq<Op>)
    requires Sound(c, a) && CollisionFree(c)
    ensures Sound(c, Run(c, a, ops))
    decreases |ops|
  {
    if ops != [] {
      ApplyKeeps(c, a, ops[0]);
      RunKeeps(c, Apply(c, a, ops[0]), ops[1..]);
    }
  }

  /**
   * The cache is transparent: after any sequence of account changes and logins, at any clock, a login is
   * accepted exactly when the table alone accepts it (a login that needs a failing database is refused).
   */
  lemma CacheIsTransparent(c: Crypto, t: Table, ops: seq<Op>, login: Op)
    requires CollisionFree(c) && TableOk(t) && login.Login?
    ensures var a := Run(c, Accounts(t, map[]), ops); var name := TrimSpace(login.username);
      && (LoginAnswer(c, a, login) ==> Accepts(a.table, c, name, login.password))
      && (!login.fault ==> (LoginAnswer(c, a, login) <==> Accepts(a.table, c, name, login.password)))
  {
    RunKeeps(c, Accounts(t, map[]), ops);
  }

  function TableAfter(t: Table, ops: seq<Op>): Table
    decreases |ops|
  {
    if ops == [] then t
    else TableAfter(if ops[0].Change? then Mutate(t, ops[0].m) else t, ops[1..])
  }

  /** Logins never touch the table, so what is accepted depends on the account changes alone. */
  lemma {:induction false} LoginsLeaveTable(c: Crypto, a: Accounts, ops: seq<Op>)
    ensures Run(c, a, ops).table == TableAfter(a.table, ops)
    decreases |ops|
  {
    if ops != [] {
      LoginsLeaveTable(c, Apply(c, a, ops[0]), ops[1..]);
    }
  }

  /** An id once given out is never given to another account, deleted or not. */
  lemma {:induction false} IdsAreNotReused(t: Table, ops: seq<Op>, id: nat)
    requires TableOk(t) && id < t.nextId
    ensures id in TableAfter(t, ops).rows ==> id in t.rows && TableAfter(t, ops).rows[id].username == t.rows[id].username
    decreases |ops|
  {
    if ops != [] {
      var t' := if ops[0].Change? then Mutate(t, ops[0].m) else t;
      if ops[0].Change? { MutateKeepsTable(t, ops[0].m); }
      IdsAreNotReused(t', ops[1..], id);
    }
  }

  // ---- what a login needs, in terms of the calls made before it ----

  const NONE := Table(map[], 1)

  function TableAt(ops: seq<Op>, n: nat): Table
    requires n <= |ops|
  {
    TableAfter(NONE, ops[..n])
  }

  lemma {:induction false} TableAfterSnoc(t: Table, ops: seq<Op>, op: Op)
    ensures TableAfter(t, ops + [op]) ==
      if op.Change? then Mutate(TableAfter(t, ops), op.m) else TableAfter(t, ops)
    decreases |ops|
  {
    if ops == [] {
      assert ops + [op] == [op];
    } else {
      assert (ops + [op])[0] == ops[0] && (ops + [op])[1..] == ops[1..] + [op];
      TableAfterSnoc(if ops[0].Change? then Mutate(t, ops[0].m) else t, ops[1..], op);
    }
  }

  lemma TableNext(ops: seq<Op>, n: nat)
    requires n < |ops|
    ensures TableAt(ops, n + 1) == if ops[n].Change? then Mutate(TableAt(ops, n), ops[n].m) else TableAt(ops, n)
  {
    assert ops[..n + 1] == ops[..n] + [ops[n]];
    TableAfterSnoc(NONE, ops[..n], ops[n]);
  }

  /** Call i was an account change and reported success. */
  predicate Succeeds(ops: seq<Op>, i: nat) {
    i < |ops| && ops[i].Change? && Outcome(TableAt(ops, i), ops[i].m) == Done
  }

  /** Call i created an account and gave it this id. */
  predicate CreatesId(ops: seq<Op>, i: nat, id: nat) {
    Succeeds(ops, i) && ops[i].m.Create? && TableAt(ops, i).nextId == id
  }

  ghost function Creates(ops: seq<Op>, id: nat, name: string): nat -> bool {
    (i: nat) => CreatesId(ops, i, id) && TrimSpace(ops[i].m.username) == name
  }

  ghost function Deletes(ops: seq<Op>, id: nat): nat -> bool {
    (i: nat) => Succeeds(ops, i) && ops[i].m.Delete? && ops[i].m.id == id
  }

  predicate TouchesHash(ops: seq<Op>, i: nat, id: nat) {
    CreatesId(ops, i, id) || (Succeeds(ops, i) && ops[i].m.SetPassword? && ops[i].m.id == id)
  }

  ghost function SetsHash(ops: seq<Op>, id: nat, hash: string): nat -> bool {
    (i: nat) => TouchesHash(ops, i, id) && ops[i].m.hash == Some(hash)
  }

  ghost function SetsAnyHash(ops: seq<Op>, id: nat): nat -> bool {
    (i: nat) => TouchesHash(ops, i, id)
  }

  ghost function SetsFlag(ops: seq<Op>, id: nat, flag: bool): nat -> bool {
    (i: nat) => (CreatesId(ops, i, id) && ops[i].m.enabled == flag)
      || (Succeeds(ops, i) && ops[i].m.SetEnabled? && ops[i].m.id == id && ops[i].m.enable == flag)
  }

  ghost function SetsAnyFlag(ops: seq<Op>, id: nat): nat -> bool {
    (i: nat) => CreatesId(ops, i, id) || (Succeeds(ops, i) && ops[i].m.SetEnabled? && ops[i].m.id == id)
  }

  /** The account was created under this trimmed name and not deleted since. */
  ghost predicate Exists(ops: seq<Op>, n: nat, id: nat, name: string) {
    Since(Creates(ops, id, name), Deletes(ops, id), n)
  }

  /** The last successful call that set the account's hash set this one. */
  ghost predicate LastHash(ops: seq<Op>, n: nat, id: nat, hash: string) {
    Since(SetsHash(ops, id, hash), SetsAnyHash(ops, id), n)
  }

  ghost predicate LastFlag(ops: seq<Op>, n: nat, id: nat, flag: bool) {
    Since(SetsFlag(ops, id, flag), SetsAnyFlag(ops, id), n)
  }

  ghost predicate Entitles(c: Crypto, ops: seq<Op>, id: nat, hash: string, name: string, password: string) {
    && Exists(ops, |ops|, id, name)
    && LastHash(ops, |ops|, id, hash) && c.matches(hash, password)
    && LastFlag(ops, |ops|, id, true)
  }

  lemma {:induction false} TableAtOk(ops: seq<Op>, n: nat)
    requires n <= |ops|
    ensures TableOk(TableAt(ops, n))
  {
    if n > 0 {
      TableAtOk(ops, n - 1);
      TableNext(ops, n - 1);
      if ops[n - 1].Change? { MutateKeepsTable(TableAt(ops, n - 1), ops[n - 1].m); }
    }
  }

  predicate Named(t: Table, id: nat, name: string) {
    id in t.rows && t.rows[id].username == name
  }

  lemma NameStep(ops: seq<Op>, n: nat, id: nat, name: string)
    requires n < |ops| && TableOk(TableAt(ops, n))
    ensures Named(TableAt(ops, n + 1), id, name) <==>
      (Named(TableAt(ops, n), id, name) && !Deletes(ops, id)(n)) || Creates(ops, id, name)(n)
  {
    TableNext(ops, n);
  }

  lemma {:induction false} NameIsHistory(ops: seq<Op>, n: nat, id: nat, name: string)
    requires n <= |ops|
    ensures Exists(ops, n, id, name) <==> Named(TableAt(ops, n), id, name)
  {
    if n > 0 {
      NameIsHistory(ops, n - 1, id, name);
      TableAtOk(ops, n - 1);
      NameStep(ops, n - 1, id, name);
      SinceStep(Creates(ops, id, name), Deletes(ops, id), n - 1);
    }
  }

  /** A call that leaves the account in the table either set its hash to what it is now, or left it alone. */
  lemma HashStep(ops: seq<Op>, n: nat, id: nat)
    requires n < |ops| && TableOk(TableAt(ops, n)) && id in TableAt(ops, n + 1).rows
    ensures if TouchesHash(ops, n, id) then ops[n].m.hash == Some(TableAt(ops, n + 1).rows[id].hash)
            else id in TableAt(ops, n).rows && TableAt(ops, n).rows[id].hash == TableAt(ops, n + 1).rows[id].hash
  {
    TableNext(ops, n);
  }

  lemma {:induction false} HashIsHistory(ops: seq<Op>, n: nat, id: nat, hash: string)
    requires n <= |ops| && id in TableAt(ops, n).rows
    ensures LastHash(ops, n, id, hash) <==> TableAt(ops, n).rows[id].hash == hash
  {
    if n > 0 {
      TableAtOk(ops, n - 1);
      HashStep(ops, n - 1, id);
      SinceStep(SetsHash(ops, id, hash), SetsAnyHash(ops, id), n - 1);
      if !TouchesHash(ops, n - 1, id) {
        HashIsHistory(ops, n - 1, id, hash);
      }
    }
  }

  lemma FlagStep(ops: seq<Op>, n: nat, id: nat)
    requires n < |ops| && TableOk(TableAt(ops, n)) && id in TableAt(ops, n + 1).rows
    ensures var now := TableAt(ops, n + 1).rows[id].enabled;
      if SetsAnyFlag(ops, id)(n) then SetsFlag(ops, id, now)(n) && !SetsFlag(ops, id, !now)(n)
      else id in TableAt(ops, n).rows && TableAt(ops, n).rows[id].enabled == now
  {
    TableNext(ops, n);
  }

  lemma {:induction false} FlagIsHistory(ops: seq<Op>, n: nat, id: nat, flag: bool)
    requires n <= |ops| && id in TableAt(ops, n).rows
    ensures LastFlag(ops, n, id, flag) <==> TableAt(ops, n).rows[id].enabled == flag
  {
    if n > 0 {
      TableAtOk(ops, n - 1);
      FlagStep(ops, n - 1, id);
      SinceStep(SetsFlag(ops, id, flag), SetsAnyFlag(ops, id), n - 1);
      if !SetsAnyFlag(ops, id)(n - 1) {
        FlagIsHistory(ops, n - 1, id, flag);
      }
    }
  }

  /**
   * Who gets in, told by the calls alone: after any calls on an empty store, a login is accepted if and only if an
   * account was created under its trimmed name and not deleted since, the hash that was set last accepts the
   * password, and the flag that was set last is on.
   */
  lemma AcceptedByHistory(c: Crypto, ops: seq<Op>, login: Op)
    requires CollisionFree(c) && login.Login? && !login.fault
    ensures LoginAnswer(c, Run(c, Accounts(NONE, map[]), ops), login) <==>
      exists id: nat, hash :: Entitles(c, ops, id, hash, TrimSpace(login.username), login.password)
  {
    var n, name, t := |ops|, TrimSpace(login.username), TableAt(ops, |ops|);
    assert ops[..n] == ops;
    CacheIsTransparent(c, NONE, ops, login);
    LoginsLeaveTable(c, Accounts(NONE, map[]), ops);
    if Accepts(t, c, name, login.password) {
      var id :| id in t.rows && Opens(t.rows[id], c, name, login.password);
      NameIsHistory(ops, n, id, name);
      HashIsHistory(ops, n, id, t.rows[id].hash);
      FlagIsHistory(ops, n, id, true);
      assert Entitles(c, ops, id, t.rows[id].hash, name, login.password);
    }
    if id: nat, hash :| Entitles(c, ops, id, hash, name, login.password) {
      NameIsHistory(ops, n, id, name);
      HashIsHistory(ops, n, id, hash);
      FlagIsHistory(ops, n, id, true);
      assert Opens(t.rows[id], c, name, login.password);
    }
  }

  /** What the cache is for: a login that was verified gets in for 30 s more without the database, and no other does. */
  lemma VerifiedServesExactly(c: Crypto, a: Accounts, login: Op, again: Op)
    requires CollisionFree(c) && login.Login? && again.Login? && again.fault
    requires LoginAnswer(c, a, login) && !CacheHit(a.cache, c, TrimSpace(login.username), login.password, login.now)
    requires TrimSpace(again.username) == TrimSpace(login.username) != ""
    ensures LoginAnswer(c, Apply(c, a, login), again) <==>
      again.password == login.password && again.now < login.later + 30_000_000_000
  {
  }

  // ---- the store itself ----

  class PullStore {
    const crypto: Crypto
    var table: Table
    var cache: map<string, Entry>

    ghost function View(): Accounts
      reads this
    {
      Accounts(table, cache)
    }

    ghost predicate Valid()
      reads this
    {
      CollisionFree(crypto) && Sound(crypto, View())
    }

    constructor (c: Crypto)
      requires CollisionFree(c)
      ensures Valid() && crypto == c && View() == Accounts(Table(map[], 1), map[])
    {
      crypto := c;
      table, cache := Table(map[], 1), map[];
    }

    method CreatePullUser(username: string, password: string, enabled: bool, hash: Option<string>, fault: bool)
      returns (r: Status)
      requires Valid()
      modifies this
      ensures Valid()
      ensures var m := Create(username, password, enabled, hash, fault);
        r == Outcome(old(table), m) && View() == Apply(crypto, old(View()), Change(m))
      ensures r == Done <==>
        (TrimSpace(username) != "" && |password| >= 8 && hash.Some? && !fault
         && forall id :: id in old(table).rows ==> old(table).rows[id].username != TrimSpace(username))
      ensures r == Done ==> table.nextId == old(table).nextId + 1
      ensures r == Done ==>
        table.rows == old(table).rows[old(table).nextId := Row(TrimSpace(username), hash.value, enabled)]
    {
      ApplyKeeps(crypto, View(), Change(Create(username, password, enabled, hash, fault)));
      var name := TrimSpace(username);
      if name == "" {
        return UsernameRequired;
      }
      if Weak(password) {
        return WeakPassword;
      }
      if hash.None? || fault {
        return Failed;
      }
      if Taken(table, name) {
        return UserExists;
      }
      table := Table(table.rows[table.nextId := Row(name, hash.value, enabled)], table.nextId + 1);
      r := Done;
    }

    /** Creates the first account; does nothing when there is one. */
    method BootstrapPullUser(username: string, password: string, hash: Option<string>, fault: bool) returns (created: bool)
      requires Valid()
      modifies this
      ensures Valid()
      ensures var name := if TrimSpace(username) == "" then "puller" else TrimSpace(username);
        var m := Create(name, password, true, hash, fault);
        && created == (old(table).rows == map[] && Outcome(old(table), m) == Done)
        && View() == if created then Apply(crypto, old(View()), Change(m)) else old(View())
    {
      if table.rows != map[] {
        return false;
      }
      var name := TrimSpace(username);
      if name == "" {
        name := "puller";
      }
      TrimSpec(name, IsSpace);
      TrimSpec(TrimSpace(username), IsSpace);
      var r := CreatePullUser(name, password, true, hash, fault);
      created := r == Done;
    }

    method SetPullUserPassword(id: nat, password: string, hash: Option<string>, fault: bool) returns (r: Status)
      requires Valid()
      modifies this
      ensures Valid()
      ensures var m := SetPassword(id, password, hash, fault);
        r == Outcome(old(table), m) && View() == Apply(crypto, old(View()), Change(m))
      ensures r == Done <==> |password| >= 8 && hash.Some? && !fault && id in old(table).rows
    {
      ApplyKeeps(crypto, View(), Change(SetPassword(id, password, hash, fault)));
      if Weak(password) {
        return WeakPassword;
      }
      if hash.None? || fault {
        return Failed;
      }
      if id !in table.rows {
        return NotFound;
      }
      table := table.(rows := table.rows[id := table.rows[id].(hash := hash.value)]);
      cache := map[];
      r := Done;
    }

    method SetPullUserEnabled(id: nat, enable: bool, fault: bool) returns (r: Status)
      requires Valid()
      modifies this
      ensures Valid()
      ensures var m := SetEnabled(id, enable, fault);
        r == Outcome(old(table), m) && View() == Apply(crypto, old(View()), Change(m))
      ensures r == Done <==> !fault && id in old(table).rows
    {
      ApplyKeeps(crypto, View(), Change(SetEnabled(id, enable, fault)));
      if fault {
        return Failed;
      }
      if id !in table.rows {
        return NotFound;
      }
      table := table.(rows := table.rows[id := table.rows[id].(enabled := enable)]);
      cache := map[];
      r := Done;
    }

    method DeletePullUser(id: nat, fault: bool) returns (r: Status)
      requires Valid()
      modifies this
      ensures Valid()
      ensures var m := Delete(id, fault);
        r == Outcome(old(table), m) && View() == Apply(crypto, old(View()), Change(m))
      ensures r == Done <==> !fault && id in old(table).rows
    {
      ApplyKeeps(crypto, View(), Change(Delete(id, fault)));
      if fault {
        return Failed;
      }
      if id !in table.rows {
        return NotFound;
      }
      table := table.(rows := table.rows - {id});
      cache := map[];
      r := Done;
    }

    /** Accepts what the table accepts, by either path, and answers with the trimmed name. */
    method AuthenticatePull(username: string, password: string, now: int, later: int, fault: bool) returns (user: Option<string>)
      requires Valid()
      modifies this
      ensures Valid()
      ensures var op := Login(username, password, now, later, fault); var name := TrimSpace(username);
        && View() == Apply(crypto, old(View()), op)
        && user == (if LoginAnswer(crypto, old(View()), op) then Some(name) else None)
        && (user.Some? ==> Accepts(table, crypto, name, password))
        && (!fault && Accepts(table, crypto, name, password) ==> user.Some?)
    {
      ApplyKeeps(crypto, View(), Login(username, password, now, later, fault));
      var name := TrimSpace(username);
      if name != "" && name in cache && now < cache[name].expiresAt && cache[name].digest == crypto.sha(password) {
        return Some(name);
      }
      if fault || !Taken(table, name) {
        return None;
      }
      var id :| id in table.rows && table.rows[id].username == name;
      if !table.rows[id].enabled {
        return None;
      }
      if !crypto.matches(table.rows[id].hash, password) {
        return None;
      }
      assert Opens(table.rows[id], crypto, name, password);
      cache := cache[name := Filled(crypto, password, later)];
      user := Some(name);
    }
  }
}
