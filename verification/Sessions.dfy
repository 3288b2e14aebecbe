/**
 * Web console accounts and sessions (internal/store/users.go), one database statement or transaction at a time,
 * so that every order of the statements of concurrent calls is a run. A session token is an input, stored under
 * its digest. Times are Unix seconds.
 */
module Sessions {
  import opened Common
  import opened Credentials

  const DAY := 86400

  datatype Role = Admin | Viewer

  datatype User = User(username: string, hash: string, role: Role)

  datatype Session = Session(user: nat, expiresAt: int)

  datatype Web = Web(users: map<nat, User>, nextId: nat, sessions: map<string, Session>)

  /**
   * `hash` is bcrypt's result and `fault` a refused statement. Insert is the second statement of Authenticate, for
   * the user its first one found; WriteHash and Wipe are the two of SetPassword.
   */
  datatype Op =
    | Create(username: string, password: string, role: string, hash: Option<string>, fault: bool)
    | Bootstrap(username: string, password: string, hash: Option<string>, fault: bool)
    | Insert(user: nat, token: string, now: int, fault: bool)
    | Revoke(token: string, fault: bool)
    | WriteHash(id: nat, password: string, hash: Option<string>, fault: bool)
    | Wipe(id: nat, fault: bool)
    | DeleteUser(id: nat, fault: bool)
    | Purge(now: int, fault: bool)

  predicate NameTaken(users: map<nat, User>, name: string) {
    exists id :: id in users && users[id].username == name
  }

  ghost function FindUser(users: map<nat, User>, name: string): (r: Option<nat>)
    ensures r.Some? ==> r.value in users && users[r.value].username == name
    ensures r.None? ==> !NameTaken(users, name)
  {
    if NameTaken(users, name) then
      var id :| id in users && users[id].username == name;
      Some(id)
    else None
  }

  function Admins(users: map<nat, User>): set<nat> {
    set id | id in users && users[id].role == Admin
  }

  function RoleOf(role: string): Role {
    if role == "admin" then Admin else Viewer
  }

  function CreateOutcome(w: Web, username: string, password: string, hash: Option<string>, fault: bool): Status {
    if TrimSpace(username) == "" then UsernameRequired
    else if Weak(password) then WeakPassword
    else if hash.None? || fault then Failed
    else if NameTaken(w.users, TrimSpace(username)) then UserExists
    else Done
  }

  function AddUser(w: Web, username: string, hash: string, role: Role): Web {
    w.(users := w.users[w.nextId := User(TrimSpace(username), hash, role)], nextId := w.nextId + 1)
  }

  function PasswordOutcome(w: Web, id: nat, password: string, hash: Option<string>, fault: bool): Status {
    if Weak(password) then WeakPassword
    else if hash.None? || fault then Failed
    else if id !in w.users then NotFound
    else Done
  }

  function DeleteOutcome(w: Web, id: nat, fault: bool): Status {
    if fault then Failed
    else if id !in w.users then NotFound
    else if w.users[id].role == Admin && |Admins(w.users)| <= 1 then LastAdmin
    else Done
  }

  function WithoutSessionsOf(sessions: map<string, Session>, id: nat): map<string, Session> {
    map k | k in sessions && sessions[k].user != id :: sessions[k]
  }

  /** The user whose stored hash accepts the credentials. */
  ghost function LoginUser(c: Crypto, w: Web, username: string, password: string, fault: bool): Option<nat> {
    var id := FindUser(w.users, TrimSpace(username));
    if fault || id.None? || !c.matches(w.users[id.value].hash, password) then None else id
  }

  /** A new session needs a new key and, by the foreign key, a user that still exists. */
  predicate Inserts(c: Crypto, w: Web, op: Op)
    requires op.Insert?
  {
    !op.fault && op.user in w.users && c.sha(op.token) !in w.sessions
  }

  function BootstrapName(username: string): string {
    if TrimSpace(username) == "" then "admin" else TrimSpace(username)
  }

  function Apply(c: Crypto, w: Web, op: Op): Web {
    match op
    case Create(username, password, role, hash, fault) =>
      if CreateOutcome(w, username, password, hash, fault) == Done then AddUser(w, username, hash.value, RoleOf(role)) else w
    case Bootstrap(username, password, hash, fault) =>
      var name := BootstrapName(username);
      if w.users == map[] && CreateOutcome(w, name, password, hash, fault) == Done then AddUser(w, name, hash.value, Admin)
      else w
    case Insert(user, token, now, _) =>
      if Inserts(c, w, op) then w.(sessions := w.sessions[c.sha(token) := Session(user, now + DAY)]) else w
    case Revoke(token, fault) =>
      if fault then w else w.(sessions := w.sessions - {c.sha(TrimSpace(token))})
    case WriteHash(id, password, hash, fault) =>
      if PasswordOutcome(w, id, password, hash, fault) != Done then w
      else w.(users := w.users[id := w.users[id].(hash := hash.value)])
    case Wipe(id, fault) =>
      if fault then w else w.(sessions := WithoutSessionsOf(w.sessions, id))
    case DeleteUser(id, fault) =>
      if DeleteOutcome(w, id, fault) != Done then w
      else w.(users := w.users - {id}, sessions := WithoutSessionsOf(w.sessions, id))
    case Purge(now, fault) =>
      if fault then w else w.(sessions := map k | k in w.sessions && w.sessions[k].expiresAt >= now :: w.sessions[k])
  }

  function Run(c: Crypto, w: Web, ops: seq<Op>): Web {
    if ops == [] then w else Apply(c, Run(c, w, ops[..|ops| - 1]), ops[|ops| - 1])
  }

  /** The user a token resolves to. */
  function Resolve(c: Crypto, w: Web, token: string, now: int): Option<nat> {
    var t := TrimSpace(token);
    if t == "" || c.sha(t) !in w.sessions then None
    else
      var s := w.sessions[c.sha(t)];
      if s.expiresAt > now && s.user in w.users then Some(s.user) else None
  }

  // ---- what every operation keeps ----

  /** Keys and the foreign key of the schema: ids below the counter, unique names, sessions of existing users. */
  ghost predicate Ok(w: Web) {
    && (forall id :: id in w.users ==> id < w.nextId)
    && (forall i, j :: i in w.users && j in w.users && w.users[i].username == w.users[j].username ==> i == j)
    && (forall k :: k in w.sessions ==> w.sessions[k].user in w.users)
  }

  lemma ApplyKeepsOk(c: Crypto, w: Web, op: Op)
    requires Ok(w)
    ensures Ok(Apply(c, w, op))
  {
  }

  lemma {:induction false} RunKeepsOk(c: Crypto, w: Web, ops: seq<Op>)
    requires Ok(w)
    ensures Ok(Run(c, w, ops))
  {
    if ops != [] {
      RunKeepsOk(c, w, ops[..|ops| - 1]);
      ApplyKeepsOk(c, Run(c, w, ops[..|ops| - 1]), ops[|ops| - 1]);
    }
  }

  lemma DeleteLeavesAdmin(w: Web, id: nat)
    requires Admins(w.users) != {} && DeleteOutcome(w, id, false) == Done
    ensures Admins(w.users - {id}) != {}
  {
    var rest := Admins(w.users) - {id};
    if id in Admins(w.users) {
      assert |rest| == |Admins(w.users)| - 1;
    } else {
      assert rest == Admins(w.users);
    }
    var b :| b in rest;
    assert b in Admins(w.users - {id});
  }

  lemma OtherAdmin(users: map<nat, User>, id: nat)
    requires id in users && users[id].role == Admin
    ensures |Admins(users)| > 1 <==> exists other: nat :: other in users && other != id && users[other].role == Admin
  {
    var rest := Admins(users) - {id};
    assert |rest| == |Admins(users)| - 1;
    if |Admins(users)| > 1 {
      var other :| other in rest;
    }
    if other: nat :| other in users && other != id && users[other].role == Admin {
      assert other in rest;
    }
  }

  lemma ApplyKeepsAdmin(c: Crypto, w: Web, op: Op)
    requires Ok(w) && Admins(w.users) != {}
    ensures Admins(Apply(c, w, op).users) != {}
  {
    var a :| a in Admins(w.users);
    if op.DeleteUser? && DeleteOutcome(w, op.id, op.fault) == Done {
      DeleteLeavesAdmin(w, op.id);
    } else {
      assert a in Admins(Apply(c, w, op).users);
    }
  }

  /** Once there is an administrator there always is one. */
  lemma {:induction false} AlwaysAnAdmin(c: Crypto, w: Web, ops: seq<Op>)
    requires Ok(w) && Admins(w.users) != {}
    ensures Admins(Run(c, w, ops).users) != {}
  {
    if ops != [] {
      AlwaysAnAdmin(c, w, ops[..|ops| - 1]);
      RunKeepsOk(c, w, ops[..|ops| - 1]);
      ApplyKeepsAdmin(c, Run(c, w, ops[..|ops| - 1]), ops[|ops| - 1]);
    }
  }

  lemma BootstrapNameTrimmed(username: string)
    ensures BootstrapName(username) != "" && TrimSpace(BootstrapName(username)) == BootstrapName(username)
  {
    TrimSpec(username, IsSpace);
    TrimSpec(BootstrapName(username), IsSpace);
  }

  /** Bootstrapping an empty table makes an administrator, so from then on there always is one. */
  lemma BootstrapMakesAdmin(c: Crypto, w: Web, op: Op, ops: seq<Op>)
    requires Ok(w) && w.users == map[] && op.Bootstrap? && !op.fault && op.hash.Some? && !Weak(op.password)
    ensures Admins(Run(c, Apply(c, w, op), ops).users) != {}
  {
    BootstrapNameTrimmed(op.username);
    ApplyKeepsOk(c, w, op);
    assert w.nextId in Admins(Apply(c, w, op).users);
    AlwaysAnAdmin(c, Apply(c, w, op), ops);
  }

  // ---- what a token resolves to ----

  /** The operation opens a session for u under this token. */
  ghost predicate Issues(c: Crypto, w: Web, op: Op, token: string, u: nat) {
    op.Insert? && op.token == TrimSpace(token) != "" && op.user == u && Inserts(c, w, op)
  }

  /** The statement ends the session of u under this token that expires at `exp`. */
  ghost predicate Ends(w: Web, op: Op, token: string, u: nat, exp: int) {
    match op
    case Revoke(t, fault) => !fault && TrimSpace(t) == TrimSpace(token)
    case Wipe(id, fault) => id == u && !fault
    case DeleteUser(id, fault) => id == u && DeleteOutcome(w, id, fault) == Done
    case Purge(now, fault) => !fault && exp < now
    case _ => false
  }

  ghost predicate Held(c: Crypto, w: Web, token: string, u: nat, exp: int) {
    var t := TrimSpace(token);
    t != "" && c.sha(t) in w.sessions && w.sessions[c.sha(t)] == Session(u, exp) && u in w.users
  }

  lemma ResolveIsHeld(c: Crypto, w: Web, token: string, u: nat, now: int)
    ensures Resolve(c, w, token, now) == Some(u) <==> exists exp :: Held(c, w, token, u, exp) && now < exp
  {
    if Resolve(c, w, token, now) == Some(u) {
      assert Held(c, w, token, u, w.sessions[c.sha(TrimSpace(token))].expiresAt);
    }
  }

  lemma HeldStep(c: Crypto, w: Web, op: Op, token: string, u: nat, exp: int)
    requires Ok(w) && CollisionFree(c)
    ensures Held(c, Apply(c, w, op), token, u, exp) <==>
      (Held(c, w, token, u, exp) && !Ends(w, op, token, u, exp))
      || (Issues(c, w, op, token, u) && exp == op.now + DAY)
  {
  }

  ghost predicate IssuedAt(c: Crypto, w0: Web, ops: seq<Op>, i: nat, token: string, u: nat) {
    i < |ops| && Issues(c, Run(c, w0, ops[..i]), ops[i], token, u)
  }

  ghost predicate EndedAt(c: Crypto, w0: Web, ops: seq<Op>, i: nat, token: string, u: nat, exp: int) {
    i < |ops| && Ends(Run(c, w0, ops[..i]), ops[i], token, u, exp)
  }

  /** Issued to u at step i with this expiry, and not ended since. */
  ghost predicate LiveSince(c: Crypto, w0: Web, ops: seq<Op>, i: nat, token: string, u: nat, exp: int) {
    && IssuedAt(c, w0, ops, i, token, u) && exp == ops[i].now + 86400
    && forall j: nat {:trigger EndedAt(c, w0, ops, j, token, u, exp)} ::
         i < j < |ops| ==> !EndedAt(c, w0, ops, j, token, u, exp)
  }

  lemma PrefixSame<T>(xs: seq<T>, x: T, i: nat)
    requires i <= |xs|
    ensures (xs + [x])[..i] == xs[..i]
  {
  }

  lemma LiveSnoc(c: Crypto, w0: Web, ops: seq<Op>, last: Op, i: nat, token: string, u: nat, exp: int)
    requires i < |ops|
    ensures LiveSince(c, w0, ops + [last], i, token, u, exp) <==>
      LiveSince(c, w0, ops, i, token, u, exp) && !Ends(Run(c, w0, ops), last, token, u, exp)
  {
    var all := ops + [last];
    PrefixSame(ops, last, i);
    PrefixSame(ops, last, |ops|);
    assert ops[..|ops|] == ops && all[..|ops|] == ops;
    assert EndedAt(c, w0, all, |ops|, token, u, exp) <==> Ends(Run(c, w0, ops), last, token, u, exp);
    forall j: nat | j < |ops| ensures EndedAt(c, w0, all, j, token, u, exp) <==> EndedAt(c, w0, ops, j, token, u, exp) {
      PrefixSame(ops, last, j);
    }
  }

  lemma HeldSnoc(c: Crypto, w0: Web, ops: seq<Op>, last: Op, token: string, u: nat, exp: int)
    requires Ok(Run(c, w0, ops)) && CollisionFree(c)
    requires Held(c, Run(c, w0, ops), token, u, exp) <==>
               exists i: nat :: i < |ops| && LiveSince(c, w0, ops, i, token, u, exp)
    ensures Held(c, Apply(c, Run(c, w0, ops), last), token, u, exp) <==>
              exists i: nat :: i < |ops| + 1 && LiveSince(c, w0, ops + [last], i, token, u, exp)
  {
    var w, all, n := Run(c, w0, ops), ops + [last], |ops|;
    HeldStep(c, w, last, token, u, exp);
    assert all[..n] == ops && all[n] == last;
    assert LiveSince(c, w0, all, n, token, u, exp) <==> Issues(c, w, last, token, u) && exp == last.now + DAY;
    forall i: nat | i < n
      ensures LiveSince(c, w0, all, i, token, u, exp) <==>
        LiveSince(c, w0, ops, i, token, u, exp) && !Ends(w, last, token, u, exp)
    {
      LiveSnoc(c, w0, ops, last, i, token, u, exp);
    }
  }

  lemma {:induction false} HeldIsExact(c: Crypto, w0: Web, ops: seq<Op>, token: string, u: nat, exp: int)
    requires Ok(w0) && w0.sessions == map[] && CollisionFree(c)
    ensures Held(c, Run(c, w0, ops), token, u, exp) <==>
              exists i: nat :: i < |ops| && LiveSince(c, w0, ops, i, token, u, exp)
    decreases |ops|
  {
    if ops != [] {
      var front, last := ops[..|ops| - 1], ops[|ops| - 1];
      assert ops == front + [last];
      HeldIsExact(c, w0, front, token, u, exp);
      RunKeepsOk(c, w0, front);
      HeldSnoc(c, w0, front, last, token, u, exp);
    }
  }

  /**
   * In every order of statements and at any clocks, a token resolves to u exactly when it was inserted for u, has
   * not expired, and no later statement revoked it, wiped the sessions of u after a password change, deleted u, or
   * purged it with a clock past its expiry.
   */
  lemma {:induction false} SessionIsExact(c: Crypto, w0: Web, ops: seq<Op>, token: string, u: nat, now: int)
    requires Ok(w0) && w0.sessions == map[] && CollisionFree(c)
    ensures Resolve(c, Run(c, w0, ops), token, now) == Some(u) <==>
              exists i: nat, exp :: i < |ops| && LiveSince(c, w0, ops, i, token, u, exp) && now < exp
  {
    var w := Run(c, w0, ops);
    ResolveIsHeld(c, w, token, u, now);
    if Resolve(c, w, token, now) == Some(u) {
      var exp :| Held(c, w, token, u, exp) && now < exp;
      HeldIsExact(c, w0, ops, token, u, exp);
      var i: nat :| i < |ops| && LiveSince(c, w0, ops, i, token, u, exp);
    }
    if i: nat, exp :| i < |ops| && LiveSince(c, w0, ops, i, token, u, exp) && now < exp {
      HeldIsExact(c, w0, ops, token, u, exp);
    }
  }

  /** No purge used a clock later than the present one. */
  predicate PurgedBy(ops: seq<Op>, now: int) {
    forall i :: 0 <= i < |ops| && ops[i].Purge? ==> ops[i].now <= now
  }

  /** A password change reports success even if the wipe of sessions failed; those sessions then live on. */
  lemma UnwipedSessionsSurvive(c: Crypto, w: Web, op: Op, token: string, now: int)
    requires Ok(w) && op.WriteHash?
    requires PasswordOutcome(w, op.id, op.password, op.hash, op.fault) == Done && Resolve(c, w, token, now) == Some(op.id)
    ensures Resolve(c, Apply(c, Apply(c, w, op), Wipe(op.id, true)), token, now) == Some(op.id)
  {
  }

  // ---- who may log in, in terms of the statements made before ----

  const NOBODY := Web(map[], 1, map[])

  function WebAt(c: Crypto, ops: seq<Op>, n: nat): Web
    requires n <= |ops|
  {
    Run(c, NOBODY, ops[..n])
  }

  lemma WebNext(c: Crypto, ops: seq<Op>, n: nat)
    requires n < |ops|
    ensures WebAt(c, ops, n + 1) == Apply(c, WebAt(c, ops, n), ops[n])
  {
    assert ops[..n + 1][..n] == ops[..n];
  }

  /** Statement i created user `id` under this trimmed name and with this role, the default admin included. */
  predicate CreatesUser(c: Crypto, ops: seq<Op>, i: nat, id: nat, name: string, admin: bool) {
    i < |ops| && WebAt(c, ops, i).nextId == id && var w := WebAt(c, ops, i);
      match ops[i]
      case Create(username, password, role, hash, fault) =>
        CreateOutcome(w, username, password, hash, fault) == Done && TrimSpace(username) == name && admin == (role == "admin")
      case Bootstrap(username, password, hash, fault) =>
        && w.users == map[] && |password| >= 8 && hash.Some? && !fault && admin
        && name == (if TrimSpace(username) == "" then "admin" else TrimSpace(username))
      case _ => false
  }

  predicate TouchesHash(c: Crypto, ops: seq<Op>, i: nat, id: nat, hash: string) {
    || ((CreatesSome(c, ops, i, id)) && (ops[i].Create? || ops[i].Bootstrap?) && ops[i].hash == Some(hash))
    || (i < |ops| && ops[i].WriteHash? && ops[i].id == id && ops[i].hash == Some(hash)
        && PasswordOutcome(WebAt(c, ops, i), id, ops[i].password, ops[i].hash, ops[i].fault) == Done)
  }

  predicate CreatesSome(c: Crypto, ops: seq<Op>, i: nat, id: nat) {
    i < |ops| && id in WebAt(c, ops, i + 1).users && id !in WebAt(c, ops, i).users
  }

  ghost function Creates(c: Crypto, ops: seq<Op>, id: nat, name: string, admin: bool): nat -> bool {
    (i: nat) => CreatesUser(c, ops, i, id, name, admin)
  }

  ghost function Deletes(c: Crypto, ops: seq<Op>, id: nat): nat -> bool {
    (i: nat) => i < |ops| && ops[i].DeleteUser? && ops[i].id == id
      && DeleteOutcome(WebAt(c, ops, i), id, ops[i].fault) == Done
  }

  ghost function SetsHash(c: Crypto, ops: seq<Op>, id: nat, hash: string): nat -> bool {
    (i: nat) => TouchesHash(c, ops, i, id, hash)
  }

  ghost function SetsAnyHash(c: Crypto, ops: seq<Op>, id: nat): nat -> bool {
    (i: nat) => exists hash :: TouchesHash(c, ops, i, id, hash)
  }

  /** The user was created under this trimmed name, in this role, and not deleted since. */
  ghost predicate Exists(c: Crypto, ops: seq<Op>, n: nat, id: nat, name: string, admin: bool) {
    Since(Creates(c, ops, id, name, admin), Deletes(c, ops, id), n)
  }

  ghost predicate LastHash(c: Crypto, ops: seq<Op>, n: nat, id: nat, hash: string) {
    Since(SetsHash(c, ops, id, hash), SetsAnyHash(c, ops, id), n)
  }

  lemma WebAtOk(c: Crypto, ops: seq<Op>, n: nat)
    requires n <= |ops|
    ensures Ok(WebAt(c, ops, n))
  {
    RunKeepsOk(c, NOBODY, ops[..n]);
  }

  predicate IsUser(w: Web, id: nat, name: string, admin: bool) {
    id in w.users && w.users[id].username == name && (w.users[id].role == Admin <==> admin)
  }

  lemma UserStep(c: Crypto, ops: seq<Op>, n: nat, id: nat, name: string, admin: bool)
    requires n < |ops| && Ok(WebAt(c, ops, n))
    ensures IsUser(WebAt(c, ops, n + 1), id, name, admin) <==>
      (IsUser(WebAt(c, ops, n), id, name, admin) && !Deletes(c, ops, id)(n)) || CreatesUser(c, ops, n, id, name, admin)
  {
    WebNext(c, ops, n);
    if ops[n].Bootstrap? { BootstrapNameTrimmed(ops[n].username); }
  }

  lemma {:induction false} UserIsHistory(c: Crypto, ops: seq<Op>, n: nat, id: nat, name: string, admin: bool)
    requires n <= |ops|
    ensures Exists(c, ops, n, id, name, admin) <==> IsUser(WebAt(c, ops, n), id, name, admin)
  {
    if n > 0 {
      UserIsHistory(c, ops, n - 1, id, name, admin);
      WebAtOk(c, ops, n - 1);
      UserStep(c, ops, n - 1, id, name, admin);
      SinceStep(Creates(c, ops, id, name, admin), Deletes(c, ops, id), n - 1);
    }
  }

  lemma {:induction false} HashIsHistory(c: Crypto, ops: seq<Op>, n: nat, id: nat, hash: string)
    requires n <= |ops| && id in WebAt(c, ops, n).users
    ensures LastHash(c, ops, n, id, hash) <==> WebAt(c, ops, n).users[id].hash == hash
  {
    if n > 0 {
      WebNext(c, ops, n - 1);
      WebAtOk(c, ops, n - 1);
      SinceStep(SetsHash(c, ops, id, hash), SetsAnyHash(c, ops, id), n - 1);
      HashStep(c, ops, n - 1, id);
      if id in WebAt(c, ops, n - 1).users {
        HashIsHistory(c, ops, n - 1, id, hash);
      }
    }
  }

  /** A statement that leaves user `id` in the table either set the hash the user now has, or left it alone. */
  lemma HashStep(c: Crypto, ops: seq<Op>, n: nat, id: nat)
    requires n < |ops| && Ok(WebAt(c, ops, n)) && id in WebAt(c, ops, n + 1).users
    ensures var now := WebAt(c, ops, n + 1).users[id].hash;
      && (forall hash :: TouchesHash(c, ops, n, id, hash) ==> hash == now)
      && (TouchesHash(c, ops, n, id, now) || (id in WebAt(c, ops, n).users && WebAt(c, ops, n).users[id].hash == now))
  {
    WebNext(c, ops, n);
  }

  /**
   * Whose credentials Authenticate accepts, told by the statements alone: those of a user that was created under
   * the trimmed name and not deleted since, with a password that the hash set last accepts.
   */
  lemma LoginByHistory(c: Crypto, ops: seq<Op>, username: string, password: string, u: nat)
    ensures LoginUser(c, Run(c, NOBODY, ops), username, password, false) == Some(u) <==>
      (exists admin :: Exists(c, ops, |ops|, u, TrimSpace(username), admin))
      && (exists hash :: LastHash(c, ops, |ops|, u, hash) && c.matches(hash, password))
  {
    var n, name := |ops|, TrimSpace(username);
    assert ops[..n] == ops;
    var users := WebAt(c, ops, n).users;
    WebAtOk(c, ops, n);
    UserIsHistory(c, ops, n, u, name, true);
    UserIsHistory(c, ops, n, u, name, false);
    if u in users {
      HashIsHistory(c, ops, n, u, users[u].hash);
      if hash :| LastHash(c, ops, n, u, hash) && c.matches(hash, password) {
        HashIsHistory(c, ops, n, u, hash);
      }
    }
  }

  // ---- purging is invisible ----

  function IssuedKeys(c: Crypto, ops: seq<Op>): set<string> {
    if ops == [] then {}
    else
      var last := ops[|ops| - 1];
      IssuedKeys(c, ops[..|ops| - 1]) + if last.Insert? then {c.sha(last.token)} else {}
  }

  /** No two logins draw the same token. */
  predicate FreshTokens(c: Crypto, ops: seq<Op>) {
    ops == [] ||
    (FreshTokens(c, ops[..|ops| - 1]) &&
      (ops[|ops| - 1].Insert? ==> c.sha(ops[|ops| - 1].token) !in IssuedKeys(c, ops[..|ops| - 1])))
  }

  function WithoutPurges(ops: seq<Op>): seq<Op> {
    if ops == [] then []
    else WithoutPurges(ops[..|ops| - 1]) + if ops[|ops| - 1].Purge? then [] else [ops[|ops| - 1]]
  }

  lemma KeysStep(c: Crypto, w: Web, op: Op)
    ensures Apply(c, w, op).sessions.Keys <= w.sessions.Keys + if op.Insert? then {c.sha(op.token)} else {}
  {
  }

  lemma {:induction false} KeysAreIssued(c: Crypto, w0: Web, ops: seq<Op>)
    requires w0.sessions == map[]
    ensures Run(c, w0, WithoutPurges(ops)).sessions.Keys <= IssuedKeys(c, ops)
  {
    if ops != [] {
      var front, last := ops[..|ops| - 1], ops[|ops| - 1];
      KeysAreIssued(c, w0, front);
      if !last.Purge? {
        KeysStep(c, Run(c, w0, WithoutPurges(front)), last);
        assert WithoutPurges(ops)[..|WithoutPurges(ops)| - 1] == WithoutPurges(front);
      } else {
        assert WithoutPurges(ops) == WithoutPurges(front) + [] == WithoutPurges(front);
      }
    }
  }

  /** w is v without some sessions that had expired before `now`. */
  ghost predicate Purged(w: Web, v: Web, now: int) {
    && w.users == v.users && w.nextId == v.nextId
    && (forall k :: k in w.sessions ==> k in v.sessions && v.sessions[k] == w.sessions[k])
    && (forall k :: k in v.sessions && k !in w.sessions ==> v.sessions[k].expiresAt < now)
  }

  lemma PurgedStep(c: Crypto, w: Web, v: Web, op: Op, now: int)
    requires Purged(w, v, now) && !op.Purge?
    requires op.Insert? ==> c.sha(op.token) !in v.sessions
    ensures Purged(Apply(c, w, op), Apply(c, v, op), now)
  {
  }

  lemma {:induction false} PurgedRun(c: Crypto, w0: Web, ops: seq<Op>, now: int)
    requires w0.sessions == map[] && FreshTokens(c, ops) && PurgedBy(ops, now)
    ensures Purged(Run(c, w0, ops), Run(c, w0, WithoutPurges(ops)), now)
    decreases |ops|
  {
    if ops != [] {
      var front, last := ops[..|ops| - 1], ops[|ops| - 1];
      assert forall i :: 0 <= i < |front| ==> front[i] == ops[i];
      PurgedRun(c, w0, front, now);
      if !last.Purge? {
        KeysAreIssued(c, w0, front);
        PurgedStep(c, Run(c, w0, front), Run(c, w0, WithoutPurges(front)), last, now);
        assert WithoutPurges(ops)[..|WithoutPurges(ops)| - 1] == WithoutPurges(front);
      } else {
        assert WithoutPurges(ops) == WithoutPurges(front) + [] == WithoutPurges(front);
      }
    }
  }

  /** Purges up to the present change no answer, now or later, and no account. */
  lemma PurgeIsInvisible(c: Crypto, w0: Web, ops: seq<Op>, token: string, now: int)
    requires w0.sessions == map[] && FreshTokens(c, ops) && PurgedBy(ops, now)
    ensures Resolve(c, Run(c, w0, ops), token, now) == Resolve(c, Run(c, w0, WithoutPurges(ops)), token, now)
    ensures Run(c, w0, ops).users == Run(c, w0, WithoutPurges(ops)).users
  {
    PurgedRun(c, w0, ops, now);
  }

  // ---- the store itself ----

  class SessionStore {
    const crypto: Crypto
    var users: map<nat, User>
    var nextId: nat
    var sessions: map<string, Session>

    ghost function View(): Web
      reads this
    {
      Web(users, nextId, sessions)
    }

    ghost predicate Valid()
      reads this
    {
      Ok(View())
    }

    constructor (c: Crypto)
      ensures Valid() && crypto == c && View() == Web(map[], 1, map[])
    {
      crypto := c;
      users, nextId, sessions := map[], 1, map[];
    }

    method CreateUser(username: string, password: string, role: string, hash: Option<string>, fault: bool)
      returns (r: Status)
      requires Valid()
      modifies this
      ensures Valid()
      ensures r == CreateOutcome(old(View()), username, password, hash, fault)
      ensures View() == Apply(crypto, old(View()), Create(username, password, role, hash, fault))
      ensures r == Done <==>
        (TrimSpace(username) != "" && |password| >= 8 && hash.Some? && !fault
         && forall id :: id in old(users) ==> old(users)[id].username != TrimSpace(username))
      ensures r == Done ==> users == old(users)[
        old(nextId) := User(TrimSpace(username), hash.value, if role == "admin" then Admin else Viewer)]
    {
      var name := TrimSpace(username);
      if name == "" {
        return UsernameRequired;
      }
      if Weak(password) {
        return WeakPassword;
      }
      var stored := if role != "admin" && role != "viewer" then "viewer" else role;
      if hash.None? || fault {
        return Failed;
      }
      if NameTaken(users, name) {
        return UserExists;
      }
      users, nextId := users[nextId := User(name, hash.value, RoleOf(stored))], nextId + 1;
      r := Done;
    }

    method BootstrapAdmin(username: string, password: string, hash: Option<string>, fault: bool) returns (created: bool)
      requires Valid()
      modifies this
      ensures Valid()
      ensures created == (old(users) == map[] && !Weak(password) && hash.Some? && !fault)
      ensures View() == Apply(crypto, old(View()), Bootstrap(username, password, hash, fault))
      ensures created ==> Admins(users) != {} && users == map[
        old(nextId) := User(if TrimSpace(username) == "" then "admin" else TrimSpace(username), hash.value, Admin)]
    {
      if users != map[] {
        return false;
      }
      var name := TrimSpace(username);
      if name == "" {
        name := "admin";
      }
      BootstrapNameTrimmed(username);
      ghost var id := nextId;
      var r := CreateUser(name, password, "admin", hash, fault);
      created := r == Done;
      assert created ==> id in Admins(users);
    }

    /** The SELECT with its bcrypt comparison, then the INSERT; `fault` and `late` are their failures. */
    method Authenticate(username: string, password: string, token: string, now: int, fault: bool, late: bool)
      returns (user: Option<nat>)
      requires Valid()
      modifies this
      ensures Valid()
      ensures var found := LoginUser(crypto, old(View()), username, password, fault);
        if found.None? then user == None && View() == old(View())
        else
          var insert := Insert(found.value, token, now, late);
          && View() == Apply(crypto, old(View()), insert)
          && user == (if Inserts(crypto, old(View()), insert) then found else None)
      ensures user.Some? ==> sessions == old(sessions)[crypto.sha(token) := Session(user.value, now + 86400)]
    {
      var name := TrimSpace(username);
      if fault || !NameTaken(users, name) {
        return None;
      }
      var id :| id in users && users[id].username == name;
      assert FindUser(users, name) == Some(id);
      if !crypto.matches(users[id].hash, password) {
        return None;
      }
      var key := crypto.sha(token);
      ApplyKeepsOk(crypto, View(), Insert(id, token, now, late));
      if late || key in sessions {
        return None;
      }
      sessions := sessions[key := Session(id, now + 24 * 3600)];
      user := Some(id);
    }

    method SessionUser(token: string, now: int) returns (user: Option<nat>)
      ensures user == Resolve(crypto, View(), token, now)
    {
      var t := TrimSpace(token);
      if t == "" {
        return None;
      }
      var key := crypto.sha(t);
      if key in sessions && sessions[key].expiresAt > now && sessions[key].user in users {
        return Some(sessions[key].user);
      }
      user := None;
    }

    method RevokeSession(token: string, fault: bool)
      requires Valid()
      modifies this
      ensures Valid() && View() == Apply(crypto, old(View()), Revoke(token, fault))
    {
      if !fault {
        sessions := sessions - {crypto.sha(TrimSpace(token))};
      }
    }

    method SetPassword(id: nat, password: string, hash: Option<string>, fault: bool, unwiped: bool) returns (r: Status)
      requires Valid()
      modifies this
      ensures Valid() && r == PasswordOutcome(old(View()), id, password, hash, fault)
      ensures r == Done <==> |password| >= 8 && hash.Some? && !fault && id in old(users)
      ensures View() == if r != Done then old(View())
        else Apply(crypto, Apply(crypto, old(View()), WriteHash(id, password, hash, fault)), Wipe(id, unwiped))
    {
      ApplyKeepsOk(crypto, View(), WriteHash(id, password, hash, fault));
      ApplyKeepsOk(crypto, Apply(crypto, View(), WriteHash(id, password, hash, fault)), Wipe(id, unwiped));
      if Weak(password) {
        return WeakPassword;
      }
      if hash.None? || fault {
        return Failed;
      }
      if id !in users {
        return NotFound;
      }
      users := users[id := users[id].(hash := hash.value)];
      if !unwiped {
        sessions := WithoutSessionsOf(sessions, id);
      }
      r := Done;
    }

    /** Refuses to delete the last administrator; the foreign key takes the user's sessions along. */
    method Delete(id: nat, fault: bool) returns (r: Status)
      requires Valid()
      modifies this
      ensures Valid() && r == DeleteOutcome(old(View()), id, fault)
      ensures r == Done <==> (!fault && id in old(users) && (old(users)[id].role == Viewer
                || exists other: nat :: other in old(users) && other != id && old(users)[other].role == Admin))
      ensures View() == Apply(crypto, old(View()), DeleteUser(id, fault))
      ensures old(Admins(users)) != {} ==> Admins(users) != {}
    {
      ApplyKeepsOk(crypto, View(), DeleteUser(id, fault));
      if id in users && users[id].role == Admin {
        OtherAdmin(users, id);
      }
      if Admins(users) != {} {
        ApplyKeepsAdmin(crypto, View(), DeleteUser(id, fault));
      }
      if fault {
        return Failed;
      }
      if id !in users {
        return NotFound;
      }
      if users[id].role == Admin && |Admins(users)| <= 1 {
        return LastAdmin;
      }
      users, sessions := users - {id}, WithoutSessionsOf(sessions, id);
      r := Done;
    }

    method PurgeExpiredSessions(now: int, fault: bool)
      requires Valid()
      modifies this
      ensures Valid() && View() == Apply(crypto, old(View()), Purge(now, fault))
    {
      if !fault {
        sessions := map k | k in sessions && sessions[k].expiresAt >= now :: sessions[k];
      }
    }
  }
}
