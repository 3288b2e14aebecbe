/**
 * The upstream token cache of internal/auth/upstream/token.go and its use in proxyRequest
 * (internal/proxy/proxy.go). Times are nanoseconds; the token endpoint's answer is an input.
 */
module TokenCache {
  import opened Common
  import opened Parts

  const SECOND := 1_000_000_000

  datatype Entry = Entry(token: string, expiresAt: int)

  datatype Tokens = Tokens(items: map<string, Entry>, last: map<string, Entry>)

  const EMPTY := Tokens(map[], map[])

  function LastKey(reg: string, scope: string): string {
    reg + "|" + scope
  }

  function ItemKey(reg: string, realm: string, service: string, scope: string): string {
    reg + "|" + realm + "|" + service + "|" + scope
  }

  // ---- time to live ----

  function Skew(ttl: int): (skew: int)
    requires ttl >= 1
    ensures 1 <= skew <= ttl && (skew < ttl <==> ttl > 1)
  {
    if ttl > 60 then 60 else if ttl / 2 < 1 then 1 else ttl / 2
  }

  function Expiry(now: int, ttl: int): int
    requires ttl >= 1
  {
    now + (ttl - Skew(ttl)) * SECOND
  }

  // ---- the critical sections ----

  function Alive(m: map<string, Entry>, key: string, now: int): string {
    if key in m && now < m[key].expiresAt then m[key].token else ""
  }

  function Peek(t: Tokens, reg: string, scope: string, now: int): string {
    Alive(t.last, LastKey(reg, scope), now)
  }

  predicate Dropped(reg: string, scope: string, key: string) {
    HasPrefix(key, reg + "|") && HasSuffix(key, "|" + scope)
  }

  function Invalidate(t: Tokens, reg: string, scope: string): Tokens {
    Tokens(map k | k in t.items && !Dropped(reg, scope, k) :: t.items[k], t.last - {LastKey(reg, scope)})
  }

  function Put(t: Tokens, reg: string, realm: string, service: string, scope: string, e: Entry): Tokens {
    Tokens(t.items[ItemKey(reg, realm, service, scope) := e], t.last[LastKey(reg, scope) := e])
  }

  // ---- runs: critical sections of any number of requests, in the order the mutex admits them ----

  datatype Step =
    | Store(reg: string, realm: string, service: string, scope: string, token: string, ttl: int, now: int)
    | Drop(reg: string, scope: string)
    | Clear

  function EntryOf(s: Step): Entry
    requires s.Store? && s.ttl >= 1
  {
    Entry(s.token, Expiry(s.now, s.ttl))
  }

  predicate Legal(s: Step) {
    s.Store? ==> s.ttl >= 1 && s.token != ""
  }

  function Apply(t: Tokens, s: Step): Tokens
    requires Legal(s)
  {
    match s
    case Store(reg, realm, service, scope, _, _, _) => Put(t, reg, realm, service, scope, EntryOf(s))
    case Drop(reg, scope) => Invalidate(t, reg, scope)
    case Clear => EMPTY
  }

  predicate LegalRun(steps: seq<Step>) {
    forall i :: 0 <= i < |steps| ==> Legal(steps[i])
  }

  function Run(steps: seq<Step>): Tokens
    requires LegalRun(steps)
  {
    if steps == [] then EMPTY else Apply(Run(steps[..|steps| - 1]), steps[|steps| - 1])
  }

  // ---- every lookup answers from the latest store ----

  /** The store that decides what `last` holds under a key: the latest one, unless dropped or cleared since. */
  function LastStore(steps: seq<Step>, key: string): Option<Step> {
    if steps == [] then None
    else
      var s := steps[|steps| - 1];
      if s.Store? && LastKey(s.reg, s.scope) == key then Some(s)
      else if s.Clear? || (s.Drop? && LastKey(s.reg, s.scope) == key) then None
      else LastStore(steps[..|steps| - 1], key)
  }

  predicate Stores(s: Step, key: string) {
    s.Store? && ItemKey(s.reg, s.realm, s.service, s.scope) == key
  }

  function ItemStore(steps: seq<Step>, key: string): Option<Step> {
    if steps == [] then None
    else
      var s := steps[|steps| - 1];
      if Stores(s, key) then Some(s)
      else if s.Clear? || (s.Drop? && Dropped(s.reg, s.scope, key)) then None
      else ItemStore(steps[..|steps| - 1], key)
  }

  predicate Holds(m: map<string, Entry>, key: string, from: Option<Step>) {
    if from.Some? then from.value.Store? && Legal(from.value) && key in m && m[key] == EntryOf(from.value)
    else key !in m
  }

  lemma {:induction false} LastIsLatest(steps: seq<Step>, key: string)
    requires LegalRun(steps)
    ensures Holds(Run(steps).last, key, LastStore(steps, key))
  {
    if steps != [] {
      LastIsLatest(steps[..|steps| - 1], key);
    }
  }

  lemma {:induction false} ItemIsLatest(steps: seq<Step>, key: string)
    requires LegalRun(steps)
    ensures Holds(Run(steps).items, key, ItemStore(steps, key))
  {
    if steps != [] {
      ItemIsLatest(steps[..|steps| - 1], key);
    }
  }

  /**
   * A token is served only from the latest store under its key, and strictly before the lifetime that store
   * was given runs out: at least one second before, whatever the lifetime.
   */
  lemma {:induction false} ServedTokensAreFresh(steps: seq<Step>, reg: string, scope: string, now: int)
    requires LegalRun(steps) && Peek(Run(steps), reg, scope, now) != ""
    ensures var from := LastStore(steps, LastKey(reg, scope));
      && from.Some? && from.value.Store? && from.value.ttl >= 1
      && Peek(Run(steps), reg, scope, now) == from.value.token
      && now < from.value.now + (from.value.ttl - 1) * 1_000_000_000
  {
    LastIsLatest(steps, LastKey(reg, scope));
    SkewIsASecond(LastStore(steps, LastKey(reg, scope)).value.ttl);
  }

  lemma SkewIsASecond(ttl: int)
    requires ttl >= 1
    ensures (ttl - Skew(ttl)) * SECOND + SECOND <= ttl * SECOND
  {
  }

  lemma {:induction false} CachedTokensAreFresh(steps: seq<Step>, key: string, now: int)
    requires LegalRun(steps) && Alive(Run(steps).items, key, now) != ""
    ensures var from := ItemStore(steps, key);
      && from.Some? && from.value.Store? && from.value.ttl >= 1
      && Alive(Run(steps).items, key, now) == from.value.token
      && now < from.value.now + (from.value.ttl - 1) * 1_000_000_000
  {
    ItemIsLatest(steps, key);
    SkewIsASecond(ItemStore(steps, key).value.ttl);
  }

  /**
   * How long a stored token is served, exactly: 60 s less than its lifetime, about half of a lifetime of up to 60 s,
   * and not at all for one second; until a later store, drop or clear of its key.
   */
  lemma {:induction false} ServedExactly(steps: seq<Step>, reg: string, scope: string, now: int)
    requires LegalRun(steps)
    ensures var from := LastStore(steps, LastKey(reg, scope));
      if from.None? then Peek(Run(steps), reg, scope, now) == ""
      else
        && from.value.Store?
        && var n := from.value.ttl; var good := if n > 60 then n - 60 else if n > 1 then n - n / 2 else 0;
          Peek(Run(steps), reg, scope, now) == if now < from.value.now + good * 1_000_000_000 then from.value.token else ""
  {
    LastIsLatest(steps, LastKey(reg, scope));
  }

  /** And so is it by GetToken's own lookup. */
  lemma {:induction false} CachedExactly(steps: seq<Step>, key: string, now: int)
    requires LegalRun(steps)
    ensures var from := ItemStore(steps, key);
      if from.None? then Alive(Run(steps).items, key, now) == ""
      else
        && from.value.Store?
        && var n := from.value.ttl; var good := if n > 60 then n - 60 else if n > 1 then n - n / 2 else 0;
          Alive(Run(steps).items, key, now) == if now < from.value.now + good * 1_000_000_000 then from.value.token else ""
  {
    ItemIsLatest(steps, key);
  }

  /** A token given a lifetime of one second is never served from the cache. */
  lemma {:induction false} OneSecondIsNeverServed(steps: seq<Step>, reg: string, scope: string, now: int)
    requires LegalRun(steps) && LastStore(steps, LastKey(reg, scope)).Some?
    requires LastStore(steps, LastKey(reg, scope)).value.Store? && LastStore(steps, LastKey(reg, scope)).value.ttl == 1
    requires now >= LastStore(steps, LastKey(reg, scope)).value.now
    ensures Peek(Run(steps), reg, scope, now) == ""
  {
    LastIsLatest(steps, LastKey(reg, scope));
  }

  // ---- after a 401 ----

  lemma KeyOfScope(reg: string, realm: string, service: string, scope: string)
    ensures Dropped(reg, scope, ItemKey(reg, realm, service, scope))
  {
    var key := ItemKey(reg, realm, service, scope);
    assert key == (reg + "|") + (realm + "|" + service + "|" + scope);
    assert key == (reg + "|" + realm + "|" + service) + ("|" + scope);
  }

  /**
   * After InvalidateScope, an answer from the cache for that registry and scope, whatever the realm and
   * service, can only be a token stored since. No assumption on names or scopes is needed.
   */
  lemma {:induction false} AnswerAfterInvalidateIsNew(
    before: seq<Step>, after: seq<Step>, reg: string, realm: string, service: string, scope: string)
    requires LegalRun(before + [Drop(reg, scope)] + after)
    requires ItemKey(reg, realm, service, scope) in Run(before + [Drop(reg, scope)] + after).items
    ensures exists i :: 0 <= i < |after| && Stores(after[i], ItemKey(reg, realm, service, scope))
  {
    var key := ItemKey(reg, realm, service, scope);
    KeyOfScope(reg, realm, service, scope);
    ItemIsLatest(before + [Drop(reg, scope)] + after, key);
    StoreIsAfterDrop(before, Drop(reg, scope), after, key);
  }

  lemma {:induction false} StoreIsAfterDrop(before: seq<Step>, drop: Step, after: seq<Step>, key: string)
    requires drop.Drop? && Dropped(drop.reg, drop.scope, key)
    ensures ItemStore(before + [drop] + after, key).Some? ==> exists i :: 0 <= i < |after| && Stores(after[i], key)
    decreases |after|
  {
    var all := before + [drop] + after;
    if after == [] {
      assert all[|all| - 1] == drop;
    } else {
      var front, s := after[..|after| - 1], after[|after| - 1];
      assert all[|all| - 1] == s && all[..|all| - 1] == before + [drop] + front;
      StoreIsAfterDrop(before, drop, front, key);
      assert forall i :: 0 <= i < |front| ==> after[i] == front[i];
    }
  }

  // ---- what InvalidateScope removes ----

  function Segs(s: string): (r: seq<string>)
    ensures r != []
  {
    Split(s, '|')
  }

  /** The segments start with all of the registry's, go on, and end with all of the scope's. */
  predicate Covered(reg: string, scope: string, segs: seq<string>) {
    Segs(reg) < segs && ProperSuffix(Segs(scope), segs)
  }

  lemma KeySegments(reg: string, realm: string, service: string, scope: string)
    ensures Segs(ItemKey(reg, realm, service, scope)) == Segs(reg) + Segs(realm) + Segs(service) + Segs(scope)
    ensures Segs(LastKey(reg, scope)) == Segs(reg) + Segs(scope)
  {
    SplitJoins(reg, realm, '|');
    SplitJoins(reg + "|" + realm, service, '|');
    SplitJoins(reg + "|" + realm + "|" + service, scope, '|');
    SplitJoins(reg, scope, '|');
  }

  lemma SameSegments(a: string, b: string)
    ensures Segs(a) == Segs(b) <==> a == b
  {
    JoinSplit(a, '|');
    JoinSplit(b, '|');
  }

  /**
   * What InvalidateScope removes, for all names and scopes: read as segments between pipes, the registry must be
   * a proper beginning and the scope a proper end of the entry's key.
   */
  lemma {:induction false} DropsExactly(
    reg: string, scope: string, reg': string, realm: string, service: string, scope': string)
    ensures Dropped(reg, scope, ItemKey(reg', realm, service, scope')) <==>
              Covered(reg, scope, Segs(reg') + Segs(realm) + Segs(service) + Segs(scope'))
  {
    KeySegments(reg', realm, service, scope');
    PrefixIsParts(ItemKey(reg', realm, service, scope'), reg, '|');
    SuffixIsParts(ItemKey(reg', realm, service, scope'), scope, '|');
  }

  /**
   * When the two maps part, for all names and scopes. InvalidateScope takes an entry out of `items` and leaves
   * the one stored with it in `last` if and only if the key is covered and the registries and scopes do not read
   * the same; it does the reverse if and only if they read the same and the key is not covered.
   */
  lemma {:induction false} UncouplesExactly(
    reg: string, scope: string, reg': string, realm: string, service: string, scope': string)
    ensures var covered := Covered(reg, scope, Segs(reg') + Segs(realm) + Segs(service) + Segs(scope'));
      var same := Segs(reg') + Segs(scope') == Segs(reg) + Segs(scope);
      var item, last := ItemKey(reg', realm, service, scope'), LastKey(reg', scope');
      && (Dropped(reg, scope, item) && last != LastKey(reg, scope) <==> covered && !same)
      && (!Dropped(reg, scope, item) && last == LastKey(reg, scope) <==> !covered && same)
  {
    DropsExactly(reg, scope, reg', realm, service, scope');
    KeySegments(reg, realm, service, scope);
    KeySegments(reg', realm, service, scope');
    SameSegments(LastKey(reg', scope'), LastKey(reg, scope));
  }

  predicate PipeFree(s: string) {
    '|' !in s
  }

  function First(k: string): string {
    Segs(k)[0]
  }

  function Final(k: string): string {
    Segs(k)[|Segs(k)| - 1]
  }

  lemma Whole(s: string)
    requires PipeFree(s)
    ensures Segs(s) == [s] && First(s) == s && Final(s) == s
  {
    SplitWhole(s, '|');
  }

  lemma SamePair(a: string, b: string, c: string, d: string)
    ensures [a] + [b] == [c] + [d] <==> a == c && b == d
  {
    if [a] + [b] == [c] + [d] {
      assert ([a] + [b])[0] == a && ([a] + [b])[1] == b && ([c] + [d])[0] == c && ([c] + [d])[1] == d;
    }
  }

  lemma OneEach(reg: string, scope: string, segs: seq<string>)
    requires PipeFree(reg) && PipeFree(scope) && |segs| > 1
    ensures Covered(reg, scope, segs) <==> segs[0] == reg && segs[|segs| - 1] == scope
  {
    Whole(reg);
    Whole(scope);
    assert segs[|segs| - 1..] == [segs[|segs| - 1]];
  }

  /**
   * For a pipe-free registry and scope: the entries whose registry name starts, and whose scope ends, with that
   * segment. For pipe-free entries that is exactly the same registry and scope.
   */
  lemma {:induction false} RemovedExactly(reg: string, scope: string, reg': string, realm: string, service: string, scope': string)
    requires PipeFree(reg) && PipeFree(scope)
    ensures Dropped(reg, scope, ItemKey(reg', realm, service, scope')) <==> First(reg') == reg && Final(scope') == scope
    ensures PipeFree(reg') && PipeFree(scope') ==>
              (Dropped(reg, scope, ItemKey(reg', realm, service, scope')) <==> reg' == reg && scope' == scope)
  {
    DropsExactly(reg, scope, reg', realm, service, scope');
    OneEach(reg, scope, Segs(reg') + Segs(realm) + Segs(service) + Segs(scope'));
    if PipeFree(reg') && PipeFree(scope') {
      Whole(reg');
      Whole(scope');
    }
  }

  /**
   * A scope with one pipe in it reads as service and scope: invalidating "a|b" also removes exactly the entries
   * of that registry with service a and scope b.
   */
  lemma {:induction false} PipedScopeRemovesExactly(
    reg: string, a: string, b: string, reg': string, realm: string, service: string, scope: string)
    requires PipeFree(reg) && PipeFree(a) && PipeFree(b) && PipeFree(service) && PipeFree(scope)
    ensures Dropped(reg, a + "|" + b, ItemKey(reg', realm, service, scope)) <==>
              First(reg') == reg && service == a && scope == b
  {
    var segs := Segs(reg') + Segs(realm) + Segs(service) + Segs(scope);
    DropsExactly(reg, a + "|" + b, reg', realm, service, scope);
    SplitJoins(a, b, '|');
    Whole(reg);
    Whole(a);
    Whole(b);
    Whole(service);
    Whole(scope);
    assert segs[0] == First(reg') && segs[|segs| - 2..] == [service] + [scope];
    assert Segs(reg) < segs <==> segs[0] == reg;
    SamePair(service, scope, a, b);
  }

  // ---- the two maps stay coupled ----

  function Project(k: string): string {
    LastKey(First(k), Final(k))
  }

  ghost predicate Coupled(t: Tokens) {
    && (forall k :: k in t.items ==> !PipeFree(k))
    && (forall k :: k in t.items ==> Project(k) in t.last)
    && (forall l :: l in t.last ==> exists k :: k in t.items && Project(k) == l)
  }

  lemma DroppedByProjection(reg: string, scope: string, k: string)
    requires PipeFree(reg) && PipeFree(scope) && !PipeFree(k)
    ensures Dropped(reg, scope, k) <==> Project(k) == LastKey(reg, scope)
  {
    PrefixIsParts(k, reg, '|');
    SuffixIsParts(k, scope, '|');
    SplitCuts(k, '|');
    OneEach(reg, scope, Segs(k));
    KeySegments(First(k), "", "", Final(k));
    KeySegments(reg, "", "", scope);
    Whole(First(k));
    Whole(Final(k));
    Whole(reg);
    Whole(scope);
    SameSegments(Project(k), LastKey(reg, scope));
    SamePair(First(k), Final(k), reg, scope);
  }

  lemma InvalidateKeepsCoupled(t: Tokens, reg: string, scope: string)
    requires Coupled(t) && PipeFree(reg) && PipeFree(scope)
    ensures Coupled(Invalidate(t, reg, scope))
  {
    var t' := Invalidate(t, reg, scope);
    forall k | k in t.items ensures k in t'.items <==> Project(k) != LastKey(reg, scope) {
      DroppedByProjection(reg, scope, k);
    }
    forall l | l in t'.last ensures exists k :: k in t'.items && Project(k) == l {
      var k :| k in t.items && Project(k) == l;
      assert k in t'.items;
    }
  }

  lemma PutKeepsCoupled(t: Tokens, reg: string, realm: string, service: string, scope: string, e: Entry)
    requires Coupled(t) && PipeFree(reg) && PipeFree(scope)
    ensures Coupled(Put(t, reg, realm, service, scope, e))
  {
    var key := ItemKey(reg, realm, service, scope);
    var t' := Put(t, reg, realm, service, scope, e);
    KeySegments(reg, realm, service, scope);
    Whole(reg);
    Whole(scope);
    SplitCuts(key, '|');
    assert Project(key) == LastKey(reg, scope) && key in t'.items;
    forall l | l in t'.last ensures exists k :: k in t'.items && Project(k) == l {
      if l != LastKey(reg, scope) {
        var k :| k in t.items && Project(k) == l;
        assert k in t'.items;
      }
    }
  }

  predicate Clean(s: Step) {
    s.Clear? || (PipeFree(s.reg) && PipeFree(s.scope))
  }

  /** Over runs with pipe-free names and scopes, the keys of `last` are exactly the projected keys of `items`. */
  lemma {:induction false} MapsStayCoupled(steps: seq<Step>)
    requires LegalRun(steps) && forall i :: 0 <= i < |steps| ==> Clean(steps[i])
    ensures Coupled(Run(steps))
  {
    if steps != [] {
      var front, s := steps[..|steps| - 1], steps[|steps| - 1];
      MapsStayCoupled(front);
      match s {
        case Store(reg, realm, service, scope, _, _, _) =>
          PutKeepsCoupled(Run(front), reg, realm, service, scope, EntryOf(s));
        case Drop(reg, scope) => InvalidateKeepsCoupled(Run(front), reg, scope);
        case Clear =>
      }
    }
  }

  /** A pipe in a scope breaks the coupling: invalidating one scope takes the entries of another from `items` only. */
  lemma PipedScopeUncouples(reg: string, other: string, scope: string, e: Entry)
    requires PipeFree(reg) && PipeFree(scope)
    ensures var stored := Put(EMPTY, reg, "r", "s", other + "|" + scope, e);
      Invalidate(stored, reg, scope) == Tokens(map[], map[LastKey(reg, other + "|" + scope) := e])
  {
    RemovedExactly(reg, scope, reg, "r", "s", other + "|" + scope);
    Whole(reg);
    SplitJoins(other, scope, '|');
    Whole(scope);
    assert |LastKey(reg, other + "|" + scope)| > |LastKey(reg, scope)|;
  }

  /**
   * And a pipe in the call breaks it for entries without one: invalidating "a|b" takes the entry with service a
   * and scope b from `items` only.
   */
  lemma PipedCallUncouples(reg: string, realm: string, a: string, b: string, e: Entry)
    requires PipeFree(reg) && PipeFree(a) && PipeFree(b)
    ensures Invalidate(Put(EMPTY, reg, realm, a, b, e), reg, a + "|" + b) == Tokens(map[], map[LastKey(reg, b) := e])
  {
    PipedScopeRemovesExactly(reg, a, b, reg, realm, a, b);
    Whole(reg);
    assert |LastKey(reg, a + "|" + b)| > |LastKey(reg, b)|;
  }

  /** The reverse: a call whose key in `last` reads the same takes the entry from `last` only. */
  lemma PipedNameUncouples(reg: string, realm: string, service: string, a: string, b: string, e: Entry)
    requires PipeFree(a) && PipeFree(realm) && PipeFree(reg) && a != realm
    ensures Invalidate(Put(EMPTY, reg, realm, service, a + "|" + b, e), reg + "|" + a, b) ==
      Tokens(map[ItemKey(reg, realm, service, a + "|" + b) := e], map[])
  {
    var segs := Segs(reg) + Segs(realm) + Segs(service) + Segs(a + "|" + b);
    DropsExactly(reg + "|" + a, b, reg, realm, service, a + "|" + b);
    SplitJoins(reg, a, '|');
    Whole(reg);
    Whole(a);
    Whole(realm);
    assert segs[1] == realm && Segs(reg + "|" + a)[1] == a;
    assert LastKey(reg, a + "|" + b) == LastKey(reg + "|" + a, b);
  }

  // ---- the cache itself ----

  datatype Answer = Refused | Response(token: string, accessToken: string, expiresIn: int)

  function TokenIn(a: Answer): string {
    if a.Refused? then "" else if a.token != "" then a.token else a.accessToken
  }

  /** The lifetime in seconds that expires_in, or else the configuration, or else the default grants. */
  function Granted(expiresIn: int, cacheTTL: int): (n: int)
    ensures n >= 1
  {
    if expiresIn > 0 then expiresIn else if cacheTTL > 0 then cacheTTL else 3600
  }

  /** Both lookups serve the token at every moment before `until`, and nothing from then on. */
  ghost predicate ServesUntil(
    t: Tokens, reg: string, realm: string, service: string, scope: string, token: string, until: int)
  {
    forall now: int ::
      && Peek(t, reg, scope, now) == (if now < until then token else "")
      && Alive(t.items, ItemKey(reg, realm, service, scope), now) == (if now < until then token else "")
  }

  class Cache {
    var items: map<string, Entry>
    var last: map<string, Entry>

    ghost function View(): Tokens
      reads this
    {
      Tokens(items, last)
    }

    /** Only non-empty tokens are stored. */
    ghost predicate Valid()
      reads this
    {
      forall k :: k in items ==> items[k].token != ""
    }

    constructor ()
      ensures Valid() && View() == EMPTY
    {
      items, last := map[], map[];
    }

    method ClearAll()
      modifies this
      ensures Valid() && View() == EMPTY
    {
      items, last := map[], map[];
    }

    method PeekToken(reg: string, scope: string, now: int) returns (token: string)
      ensures token == Peek(View(), reg, scope, now)
    {
      var key := LastKey(reg, scope);
      if key !in last || !(now < last[key].expiresAt) {
        return "";
      }
      token := last[key].token;
    }

    method InvalidateScope(reg: string, scope: string)
      requires Valid()
      modifies this
      ensures Valid() && View() == Invalidate(old(View()), reg, scope)
    {
      last := last - {LastKey(reg, scope)};
      var prefix, suffix := reg + "|", "|" + scope;
      var left := items.Keys;
      while left != {}
        invariant left <= items.Keys
        invariant last == old(last) - {LastKey(reg, scope)}
        invariant forall k :: k in items <==> k in old(items) && (k in left || !Dropped(reg, scope, k))
        invariant forall k :: k in items ==> items[k] == old(items)[k]
        decreases left
      {
        var k :| k in left;
        left := left - {k};
        if HasPrefix(k, prefix) && HasSuffix(k, suffix) {
          items := items - {k};
        }
      }
      assert items == Invalidate(old(View()), reg, scope).items;
    }

    /** The first critical section of GetToken. */
    method Cached(key: string, now: int) returns (hit: Option<string>)
      requires Valid()
      ensures hit == if Alive(items, key, now) == "" then None else Some(Alive(items, key, now))
    {
      if key in items && now < items[key].expiresAt {
        return Some(items[key].token);
      }
      return None;
    }

    /**
     * GetToken: the cached token if it is alive at `start`, else whatever the endpoint answered, stored at `end`.
     * An error is None, and a token is never empty.
     */
    method GetToken(reg: string, realm: string, service: string, scope: string, allowed: bool, answer: Answer,
                    cacheTTL: int, start: int, end: int) returns (token: Option<string>)
      requires Valid()
      modifies this
      ensures Valid() && (token.Some? ==> token.value != "")
      ensures var cached := old(Alive(items, ItemKey(reg, realm, service, scope), start));
        if !allowed then token == None && View() == old(View())
        else if cached != "" then token == Some(cached) && View() == old(View())
        else if TokenIn(answer) == "" then token == None && View() == old(View())
        else
          && token == Some(TokenIn(answer))
          && View() == Apply(old(View()),
              Store(reg, realm, service, scope, TokenIn(answer), Granted(answer.expiresIn, cacheTTL), end))
      ensures old(Alive(items, ItemKey(reg, realm, service, scope), start)) == "" && token.Some? ==>
        && answer.Response? && token.value == (if answer.token != "" then answer.token else answer.accessToken)
        && var n := if answer.expiresIn > 0 then answer.expiresIn else if cacheTTL > 0 then cacheTTL else 3600;
          var good := if n > 60 then n - 60 else if n > 1 then n - n / 2 else 0;
          ServesUntil(View(), reg, realm, service, scope, token.value, end + good * 1_000_000_000)
    {
      if !allowed {
        return None;
      }
      var key := ItemKey(reg, realm, service, scope);
      token := Cached(key, start);
      if token.Some? {
        return token;
      }
      if answer.Refused? {
        return None;
      }
      var tok := answer.token;
      if tok == "" {
        tok := answer.accessToken;
      }
      if tok == "" {
        return None;
      }
      var ttl := answer.expiresIn;
      if ttl <= 0 {
        ttl := cacheTTL;
      }
      if ttl <= 0 {
        ttl := 3600;
      }
      var skew := 60;
      if ttl <= skew {
        skew := ttl / 2;
        if skew < 1 {
          skew := 1;
        }
      }
      var e := Entry(tok, end + (ttl - skew) * SECOND);
      items, last := items[key := e], last[LastKey(reg, scope) := e];
      token := Some(tok);
    }

    // ---- the retry of proxyRequest ----

    /**
     * One request upstream, and a second one after a 401: `first` and `second` are the upstream's answers
     * (None when it cannot be reached), `sent` the tokens that went out.
     */
    method ProxyRequest(reg: string, anonymous: bool, scope: string, first: Option<int>, realm: string, service: string,
                        allowed: bool, answer: Answer, cacheTTL: int, now: int, start: int, end: int, second: Option<int>)
      returns (status: int, sent: seq<string>)
      requires Valid()
      modifies this
      ensures Valid() && 1 <= |sent| <= 2
      ensures sent[0] == if anonymous then "" else old(Peek(View(), reg, scope, now))
      ensures var left := if sent[0] != "" then Invalidate(old(View()), reg, scope) else old(View());
        var cached := Alive(left.items, ItemKey(reg, realm, service, scope), start);
        var fetches := realm != "" && allowed && cached == "" && TokenIn(answer) != "";
        !anonymous && first == Some(401) ==>
          && (|sent| == 2 <==> realm != "" && allowed && (cached != "" || TokenIn(answer) != ""))
          && (|sent| == 2 ==> sent[1] == if cached != "" then cached else TokenIn(answer))
          && View() == if fetches
                       then Apply(left, Store(reg, realm, service, scope, TokenIn(answer), Granted(answer.expiresIn, cacheTTL), end))
                       else left
      ensures |sent| == 2 ==> !anonymous && first == Some(401) && sent[1] != ""
      ensures |sent| == 2 && sent[0] != "" ==> sent[1] == TokenIn(answer)
      ensures |sent| == 1 && first == Some(401) && !anonymous ==> status == 502
      ensures |sent| == 1 && (anonymous || first != Some(401)) ==> status == (if first.Some? then first.value else 502)
      ensures |sent| == 2 ==> status == if second.Some? then second.value else 502
      ensures anonymous || first != Some(401) ==> View() == old(View())
    {
      var token := "";
      if !anonymous {
        token := PeekToken(reg, scope, now);
      }
      sent := [token];
      if first.None? {
        return 502, sent;
      }
      if first.value == 401 && !anonymous {
        if token != "" {
          InvalidateScope(reg, scope);
          KeyOfScope(reg, realm, service, scope);
        }
        if realm == "" {
          return 502, sent;
        }
        var fetched := GetToken(reg, realm, service, scope, allowed, answer, cacheTTL, start, end);
        if fetched.None? {
          return 502, sent;
        }
        sent := sent + [fetched.value];
        if second.None? {
          return 502, sent;
        }
        return second.value, sent;
      }
      status := first.value;
    }
  }
}
