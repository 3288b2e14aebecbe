/**
 * The reload protocol of internal/proxy/proxy.go: Reload holds two locks one after the other, requests are
 * routed in between, and getClient may run long after its request was routed.
 */
module Reload {
  import opened Common
  import opened Paths
  import opened Routes

  /** `trusts` lists the peer addresses inside trusted_proxies. */
  datatype Config = Config(registries: seq<Registry>, byDefault: string, trusts: set<string>)

  /** An upstream client is determined by the registry and configuration it was built from. */
  datatype Client = Client(reg: Registry, cfg: Config)

  /** What one applyLocked installs together; `tokens` identifies the token cache allocated for it. */
  datatype Tables = Tables(
    cfg: Config, tokens: nat, hosts: map<string, Registry>, paths: seq<PathRoute>, byDefault: Option<Registry>)

  datatype Request = Request(path: string, host: string, remote: string, forwardedHost: string)

  datatype Hit = Hit(reg: Option<Registry>, stripPrefix: string, cfg: Config, tokens: nat, generation: nat)

  datatype Live = Live(
    tables: Tables, generation: nat, caches: nat, clients: map<string, Client>, clientGeneration: nat)

  ghost predicate BuiltFrom(t: Tables) {
    && t.hosts == HostIndex(t.cfg.registries) && t.byDefault == DefaultOf(t.cfg.registries, t.cfg.byDefault)
    && IsTable(t.paths, t.cfg.registries)
  }

  // ---- the operations ----

  function BeforeColon(s: string): string {
    if s == "" || s[0] == ':' then "" else [s[0]] + BeforeColon(s[1..])
  }

  /** A host name is what stands before the port. */
  lemma {:induction false} BeforeColonReads(name: string, rest: string)
    requires ':' !in name
    ensures BeforeColon(name) == name && BeforeColon(name + ":" + rest) == name
  {
    if name != "" {
      BeforeColonReads(name[1..], rest);
      assert name == [name[0]] + name[1..];
      assert (name + ":" + rest)[0] == name[0] && (name + ":" + rest)[1..] == name[1..] + ":" + rest;
    }
  }

  function RegistryFor(t: Tables, req: Request): (Option<Registry>, string) {
    var repo := ExtractRepo(req.path, ORDER);
    var hit := if repo == "" then None else FirstMatch(t.paths, repo);
    if hit.Some? then (Some(hit.value.reg), hit.value.prefix)
    else (RegistryForHost(t, req), "")
  }

  function RegistryForHost(t: Tables, req: Request): Option<Registry> {
    var host := ToLower(BeforeColon(req.host));
    var forwarded := ToLower(BeforeColon(req.forwardedHost));
    if host in t.hosts then Some(t.hosts[host])
    else if req.remote in t.cfg.trusts && req.forwardedHost != "" && forwarded in t.hosts then Some(t.hosts[forwarded])
    else t.byDefault
  }

  function Route(t: Tables, generation: nat, req: Request): Hit {
    var (reg, prefix) := RegistryFor(t, req);
    Hit(reg, prefix, t.cfg, t.tokens, generation)
  }

  /** The first critical section of Reload. */
  function Install(p: Live, t: Tables): Live {
    p.(tables := t, generation := p.generation + 1, caches := p.caches + 1)
  }

  /** The second critical section of Reload. */
  function DropClients(p: Live, generation: nat): Live {
    p.(clients := map[], clientGeneration := generation)
  }

  function ClientFor(p: Live, reg: Registry, cfg: Config, generation: nat): Client {
    if generation == p.clientGeneration && reg.name in p.clients then p.clients[reg.name] else Client(reg, cfg)
  }

  function Remember(p: Live, reg: Registry, cfg: Config, generation: nat): Live {
    if generation == p.clientGeneration then p.(clients := p.clients[reg.name := ClientFor(p, reg, cfg, generation)]) else p
  }

  // ---- runs ----

  /** `history` lists every applied table; `pending` the generations of Reloads between their two sections. */
  datatype State = State(live: Live, history: seq<Tables>, pending: seq<nat>, requests: seq<Request>, hits: seq<Hit>)

  datatype Step =
    | Begin(tables: Tables)
    | Finish(reload: nat)
    | Resolve(request: Request)
    | GetClient(hit: nat)

  function Initial(t: Tables): State {
    State(Live(t, 1, 1, map[], 1), [t], [], [], [])
  }

  /** A table built by buildRoutes from a configuration with distinct names, for a newly allocated cache. */
  ghost predicate Sound(t: Tables, caches: nat) {
    BuiltFrom(t) && Distinct(Names(t.cfg.registries)) && t.tokens == caches
  }

  ghost predicate Can(s: State, step: Step) {
    match step
    case Begin(t) => Sound(t, s.live.caches)
    case Finish(i) => i < |s.pending|
    case Resolve(_) => true
    case GetClient(i) => i < |s.hits| && s.hits[i].reg.Some?
  }

  function Apply(s: State, step: Step): State
    requires Can(s, step)
  {
    match step
    case Begin(t) =>
      s.(live := Install(s.live, t), history := s.history + [t], pending := s.pending + [s.live.generation + 1])
    case Finish(i) =>
      s.(live := DropClients(s.live, s.pending[i]), pending := s.pending[..i] + s.pending[i + 1..])
    case Resolve(req) =>
      s.(requests := s.requests + [req], hits := s.hits + [Route(s.live.tables, s.live.generation, req)])
    case GetClient(i) =>
      s.(live := Remember(s.live, s.hits[i].reg.value, s.hits[i].cfg, s.hits[i].generation))
  }

  ghost predicate CanRun(s: State, steps: seq<Step>)
    decreases |steps|
  {
    steps == [] || (Can(s, steps[0]) && CanRun(Apply(s, steps[0]), steps[1..]))
  }

  function Run(s: State, steps: seq<Step>): State
    requires CanRun(s, steps)
    decreases |steps|
  {
    if steps == [] then s else Run(Apply(s, steps[0]), steps[1..])
  }

  // ---- the invariant ----

  ghost predicate HistoryInv(live: Live, history: seq<Tables>) {
    && |history| == live.generation == live.caches >= 1
    && history[|history| - 1] == live.tables
    && forall g {:trigger Sound(history[g], g)} :: 0 <= g < |history| ==> Sound(history[g], g)
  }

  ghost predicate PendingInv(s: State) {
    && 1 <= s.live.clientGeneration <= |s.history|
    && forall i :: 0 <= i < |s.pending| ==> 1 <= s.pending[i] <= |s.history|
  }

  /** The generation of a hit names the apply it was routed by. */
  ghost predicate FromOneApply(history: seq<Tables>, req: Request, hit: Hit) {
    1 <= hit.generation <= |history| && hit == Route(history[hit.generation - 1], hit.generation, req)
  }

  ghost predicate HitsInv(history: seq<Tables>, requests: seq<Request>, hits: seq<Hit>) {
    && |requests| == |hits|
    && forall i {:trigger FromOneApply(history, requests[i], hits[i])} :: 0 <= i < |hits| ==> FromOneApply(history, requests[i], hits[i])
  }

  /** Every cached client was built for its name by the configuration of `clientGeneration`. */
  ghost predicate ClientsInv(live: Live, cfg: Config) {
    forall n :: n in live.clients ==>
      && live.clients[n].reg.name == n && live.clients[n].reg in cfg.registries
      && live.clients[n].cfg == cfg
  }

  ghost predicate Inv(s: State) {
    && HistoryInv(s.live, s.history) && PendingInv(s) && HitsInv(s.history, s.requests, s.hits)
    && ClientsInv(s.live, s.history[s.live.clientGeneration - 1].cfg)
  }

  // ---- a hit's registry belongs to its configuration ----

  lemma {:induction false} ListedIsConfigured(regs: seq<Registry>, host: string)
    ensures LastLister(regs, host).Some? ==> LastLister(regs, host).value in regs
  {
    if regs != [] {
      ListedIsConfigured(regs[..|regs| - 1], host);
    }
  }

  lemma {:induction false} DefaultIsConfigured(regs: seq<Registry>, name: string)
    ensures DefaultOf(regs, name).Some? ==> DefaultOf(regs, name).value in regs
  {
    if regs != [] {
      DefaultIsConfigured(regs[..|regs| - 1], name);
    }
  }

  lemma HostIsConfigured(t: Tables, host: string)
    requires BuiltFrom(t) && host in t.hosts
    ensures t.hosts[host] in t.cfg.registries
  {
    LastHostWins(t.cfg.registries, host);
    ListedIsConfigured(t.cfg.registries, host);
  }

  lemma {:induction false} MatchIsListed(rs: seq<PathRoute>, repo: string)
    ensures FirstMatch(rs, repo).Some? ==> FirstMatch(rs, repo).value in rs && Matches(FirstMatch(rs, repo).value.prefix, repo)
  {
    if rs != [] {
      MatchIsListed(rs[1..], repo);
    }
  }

  lemma PathIsConfigured(t: Tables, repo: string)
    requires BuiltFrom(t) && FirstMatch(t.paths, repo).Some?
    ensures FirstMatch(t.paths, repo).value.reg in t.cfg.registries && Stored(FirstMatch(t.paths, repo).value.prefix)
    ensures Matches(FirstMatch(t.paths, repo).value.prefix, repo)
  {
    var r := FirstMatch(t.paths, repo).value;
    MatchIsListed(t.paths, repo);
    assert r in multiset(t.paths);
    assert r in multiset(Collect(t.cfg.registries));
    RoutesStored(t.cfg.registries);
  }

  lemma RoutedIsConfigured(t: Tables, generation: nat, req: Request)
    requires BuiltFrom(t)
    ensures Route(t, generation, req).reg.Some? ==> Route(t, generation, req).reg.value in t.cfg.registries
  {
    var repo := ExtractRepo(req.path, ORDER);
    if repo != "" && FirstMatch(t.paths, repo).Some? {
      PathIsConfigured(t, repo);
    } else {
      var host, forwarded := ToLower(BeforeColon(req.host)), ToLower(BeforeColon(req.forwardedHost));
      if host in t.hosts { HostIsConfigured(t, host); }
      if forwarded in t.hosts { HostIsConfigured(t, forwarded); }
      DefaultIsConfigured(t.cfg.registries, t.cfg.byDefault);
    }
  }

  // ---- getClient ----

  lemma {:induction false} NamesAt(regs: seq<Registry>, i: nat)
    requires i < |regs|
    ensures |Names(regs)| == |regs| && Names(regs)[i] == regs[i].name
  {
    var k := |regs| - 1;
    if i < k {
      NamesAt(regs[..k], i);
    } else if k > 0 {
      NamesAt(regs[..k], 0);
    }
  }

  lemma SameNameSameRegistry(regs: seq<Registry>, a: Registry, b: Registry)
    requires Distinct(Names(regs)) && a in regs && b in regs && a.name == b.name
    ensures a == b
  {
    var i :| 0 <= i < |regs| && regs[i] == a;
    var j :| 0 <= j < |regs| && regs[j] == b;
    NamesAt(regs, i);
    NamesAt(regs, j);
  }

  lemma OwnClient(live: Live, cached: Config, reg: Registry, cfg: Config, generation: nat)
    requires ClientsInv(live, cached) && Distinct(Names(cfg.registries)) && reg in cfg.registries
    requires generation == live.clientGeneration ==> cfg == cached
    ensures ClientFor(live, reg, cfg, generation) == Client(reg, cfg)
    ensures ClientsInv(Remember(live, reg, cfg, generation), cached)
  {
    if generation == live.clientGeneration && reg.name in live.clients {
      SameNameSameRegistry(cfg.registries, reg, live.clients[reg.name].reg);
    }
  }

  lemma HitIsConfigured(history: seq<Tables>, req: Request, hit: Hit)
    requires FromOneApply(history, req, hit) && Sound(history[hit.generation - 1], hit.generation - 1)
    ensures hit.cfg == history[hit.generation - 1].cfg && hit.tokens == hit.generation - 1
    ensures Distinct(Names(hit.cfg.registries))
    ensures hit.reg.Some? ==> hit.reg.value in hit.cfg.registries
  {
    RoutedIsConfigured(history[hit.generation - 1], hit.generation, req);
  }

  /** getClient serves the hit from its own registry and configuration, and leaves the cache in order. */
  ghost predicate GetsOwn(live: Live, cached: Config, hit: Hit)
    requires hit.reg.Some?
  {
    && ClientFor(live, hit.reg.value, hit.cfg, hit.generation) == Client(hit.reg.value, hit.cfg)
    && ClientsInv(Remember(live, hit.reg.value, hit.cfg, hit.generation), cached)
  }

  lemma HitGetsOwn(live: Live, history: seq<Tables>, req: Request, hit: Hit)
    requires HistoryInv(live, history) && FromOneApply(history, req, hit) && hit.reg.Some?
    requires 1 <= live.clientGeneration <= |history| && ClientsInv(live, history[live.clientGeneration - 1].cfg)
    ensures GetsOwn(live, history[live.clientGeneration - 1].cfg, hit)
  {
    assert Sound(history[hit.generation - 1], hit.generation - 1);
    HitIsConfigured(history, req, hit);
    OwnClient(live, history[live.clientGeneration - 1].cfg, hit.reg.value, hit.cfg, hit.generation);
  }

  lemma ClientIsOwn(s: State, i: nat)
    requires Inv(s) && i < |s.hits| && s.hits[i].reg.Some?
    ensures GetsOwn(s.live, s.history[s.live.clientGeneration - 1].cfg, s.hits[i])
  {
    assert FromOneApply(s.history, s.requests[i], s.hits[i]);
    HitGetsOwn(s.live, s.history, s.requests[i], s.hits[i]);
  }

  // ---- every step keeps the invariant ----

  lemma InitialInv(t: Tables)
    requires Sound(t, 0)
    ensures Inv(Initial(t))
  {
  }

  lemma HitsExtend(history: seq<Tables>, t: Tables, requests: seq<Request>, hits: seq<Hit>)
    requires HitsInv(history, requests, hits)
    ensures HitsInv(history + [t], requests, hits)
  {
    forall i | 0 <= i < |hits| ensures FromOneApply(history + [t], requests[i], hits[i]) {
      assert FromOneApply(history, requests[i], hits[i]);
      assert (history + [t])[hits[i].generation - 1] == history[hits[i].generation - 1];
    }
  }

  lemma HistoryExtends(live: Live, history: seq<Tables>, t: Tables)
    requires HistoryInv(live, history) && Sound(t, live.caches)
    ensures HistoryInv(Install(live, t), history + [t])
  {
    forall g | 0 <= g < |history + [t]| ensures Sound((history + [t])[g], g) {
      if g < |history| {
        assert Sound(history[g], g);
      }
    }
  }

  lemma BeginKeeps(s: State, t: Tables)
    requires Inv(s) && Can(s, Begin(t))
    ensures Inv(Apply(s, Begin(t)))
  {
    HistoryExtends(s.live, s.history, t);
    HitsExtend(s.history, t, s.requests, s.hits);
    assert PendingInv(Apply(s, Begin(t)));
  }

  lemma FinishKeeps(s: State, i: nat)
    requires Inv(s) && Can(s, Finish(i))
    ensures Inv(Apply(s, Finish(i)))
  {
  }

  lemma HitsGrow(history: seq<Tables>, requests: seq<Request>, hits: seq<Hit>, req: Request)
    requires HitsInv(history, requests, hits) && history != []
    ensures HitsInv(history, requests + [req], hits + [Route(history[|history| - 1], |history|, req)])
  {
    var hit := Route(history[|history| - 1], |history|, req);
    assert hit.generation == |history|;
    assert FromOneApply(history, req, hit);
    forall i | 0 <= i < |hits + [hit]| ensures FromOneApply(history, (requests + [req])[i], (hits + [hit])[i]) {
      if i < |hits| {
        assert FromOneApply(history, requests[i], hits[i]);
      }
    }
  }

  lemma ResolveKeeps(s: State, req: Request)
    requires Inv(s)
    ensures Inv(Apply(s, Resolve(req)))
  {
    HitsGrow(s.history, s.requests, s.hits, req);
  }

  lemma GetClientKeeps(s: State, i: nat)
    requires Inv(s) && Can(s, GetClient(i))
    ensures Inv(Apply(s, GetClient(i)))
  {
    ClientIsOwn(s, i);
  }

  lemma {:induction false} RunKeeps(s: State, steps: seq<Step>)
    requires Inv(s) && CanRun(s, steps)
    ensures Inv(Run(s, steps))
    decreases |steps|
  {
    if steps != [] {
      match steps[0] {
        case Begin(t) => BeginKeeps(s, t);
        case Finish(i) => FinishKeeps(s, i);
        case Resolve(req) => ResolveKeeps(s, req);
        case GetClient(i) => GetClientKeeps(s, i);
      }
      RunKeeps(Apply(s, steps[0]), steps[1..]);
    }
  }

  // ---- what holds over every run ----

  /** getClient returns the client of the hit's own registry and configuration, however Reloads overlap. */
  lemma ClientSafety(t: Tables, steps: seq<Step>, i: nat)
    requires Sound(t, 0) && CanRun(Initial(t), steps)
    requires var s := Run(Initial(t), steps); i < |s.hits| && s.hits[i].reg.Some?
    ensures var s := Run(Initial(t), steps); var hit := s.hits[i];
      ClientFor(s.live, hit.reg.value, hit.cfg, hit.generation) == Client(hit.reg.value, hit.cfg)
  {
    InitialInv(t);
    RunKeeps(Initial(t), steps);
    ClientIsOwn(Run(Initial(t), steps), i);
  }

  /** The client cache holds clients of one generation only, each under its registry's name. */
  lemma OneGenerationCached(t: Tables, steps: seq<Step>)
    requires Sound(t, 0) && CanRun(Initial(t), steps)
    ensures var s := Run(Initial(t), steps);
      && 1 <= s.live.clientGeneration <= |s.history|
      && ClientsInv(s.live, s.history[s.live.clientGeneration - 1].cfg)
  {
    InitialInv(t);
    RunKeeps(Initial(t), steps);
  }

  /**
   * Registry, prefix, configuration, token cache and generation of a hit come from one apply, and hits share
   * a token cache exactly when they share that apply.
   */
  lemma HitsFromOneApply(t: Tables, steps: seq<Step>, i: nat, j: nat)
    requires Sound(t, 0) && CanRun(Initial(t), steps)
    requires i < |Run(Initial(t), steps).hits| && j < |Run(Initial(t), steps).hits|
    ensures var s := Run(Initial(t), steps);
      && |s.requests| == |s.hits|
      && FromOneApply(s.history, s.requests[i], s.hits[i])
      && (s.hits[i].tokens == s.hits[j].tokens <==> s.hits[i].generation == s.hits[j].generation)
  {
    InitialInv(t);
    RunKeeps(Initial(t), steps);
    var s := Run(Initial(t), steps);
    assert FromOneApply(s.history, s.requests[i], s.hits[i]) && FromOneApply(s.history, s.requests[j], s.hits[j]);
    assert Sound(s.history[s.hits[i].generation - 1], s.hits[i].generation - 1);
    assert Sound(s.history[s.hits[j].generation - 1], s.hits[j].generation - 1);
    HitIsConfigured(s.history, s.requests[i], s.hits[i]);
    HitIsConfigured(s.history, s.requests[j], s.hits[j]);
  }

  // ---- clientGeneration and generation ----

  /** No Reload begins while another is between its sections. */
  ghost predicate Serial(s: State, steps: seq<Step>)
    requires CanRun(s, steps)
    decreases |steps|
  {
    steps == [] || ((steps[0].Begin? ==> s.pending == []) && Serial(Apply(s, steps[0]), steps[1..]))
  }

  ghost predicate SerialInv(s: State) {
    if s.pending == [] then s.live.clientGeneration == s.live.generation else s.pending == [s.live.generation]
  }

  lemma SerialStep(s: State, step: Step)
    requires SerialInv(s) && Can(s, step) && (step.Begin? ==> s.pending == [])
    ensures SerialInv(Apply(s, step))
  {
  }

  lemma {:induction false} SerialRun(s: State, steps: seq<Step>)
    requires SerialInv(s) && CanRun(s, steps) && Serial(s, steps)
    ensures SerialInv(Run(s, steps))
    decreases |steps|
  {
    if steps != [] {
      SerialStep(s, steps[0]);
      SerialRun(Apply(s, steps[0]), steps[1..]);
    }
  }

  /** Reloads that do not overlap leave the client cache on the current generation. */
  lemma {:induction false} SerialReloadsAgree(t: Tables, steps: seq<Step>)
    requires Sound(t, 0) && CanRun(Initial(t), steps) && Serial(Initial(t), steps)
    ensures var s := Run(Initial(t), steps);
      s.pending == [] ==> s.live.clientGeneration == s.live.generation
  {
    SerialRun(Initial(t), steps);
  }

  lemma RunCons(s: State, step: Step, rest: seq<Step>)
    requires Can(s, step) && CanRun(Apply(s, step), rest)
    ensures CanRun(s, [step] + rest) && Run(s, [step] + rest) == Run(Apply(s, step), rest)
  {
    assert ([step] + rest)[1..] == rest;
  }

  lemma FinishInverted(s: State, g: nat)
    requires s.pending == [g, g + 1]
    ensures CanRun(s, [Finish(1)] + ([Finish(0)] + []))
    ensures Run(s, [Finish(1)] + ([Finish(0)] + [])) == s.(pending := [], live := DropClients(s.live, g))
  {
    var s1 := Apply(s, Finish(1));
    assert s1.pending == [g];
    RunCons(s1, Finish(0), []);
    RunCons(s, Finish(1), [Finish(0)] + []);
  }

  /** Two Reloads that finish in the other order leave it one behind, with no Reload pending. */
  lemma OverlapLagsBehind(s: State, t: Tables, u: Tables)
    requires s.pending == [] && Sound(t, s.live.caches) && Sound(u, s.live.caches + 1)
    ensures var steps := [Begin(t)] + ([Begin(u)] + ([Finish(1)] + ([Finish(0)] + [])));
      && CanRun(s, steps)
      && Run(s, steps).pending == []
      && Run(s, steps).live.clientGeneration + 1 == Run(s, steps).live.generation
  {
    var s1 := Apply(s, Begin(t));
    var s2 := Apply(s1, Begin(u));
    var finish := [Finish(1)] + ([Finish(0)] + []);
    assert s2.pending == [s.live.generation + 1, s.live.generation + 2];
    FinishInverted(s2, s.live.generation + 1);
    RunCons(s1, Begin(u), finish);
    RunCons(s, Begin(t), [Begin(u)] + finish);
  }

  /** What the schedule alone decides: the open Reloads by number, the next number, the last one finished. */
  datatype Tally = Tally(open: seq<nat>, next: nat, finished: nat)

  function Follow(t: Tally, step: Step): Tally {
    if step.Begin? then t.(open := t.open + [t.next], next := t.next + 1)
    else if step.Finish? && step.reload < |t.open| then
      t.(open := t.open[..step.reload] + t.open[step.reload + 1..], finished := t.open[step.reload])
    else t
  }

  function FollowAll(t: Tally, steps: seq<Step>): Tally
    decreases |steps|
  {
    if steps == [] then t else FollowAll(Follow(t, steps[0]), steps[1..])
  }

  /** The Reloads in the order they finish, numbered from `next` on in the order they begin. */
  function FinishOrder(open: seq<nat>, next: nat, steps: seq<Step>): seq<nat>
    decreases |steps|
  {
    if steps == [] then []
    else
      var t := Follow(Tally(open, next, 0), steps[0]);
      FinishedBy(open, steps[0]) + FinishOrder(t.open, t.next, steps[1..])
  }

  function FinishedBy(open: seq<nat>, step: Step): seq<nat> {
    if step.Finish? && step.reload < |open| then [open[step.reload]] else []
  }

  function Begins(steps: seq<Step>): nat {
    if steps == [] then 0 else (if steps[0].Begin? then 1 else 0) + Begins(steps[1..])
  }

  function TallyOf(s: State): Tally {
    Tally(s.pending, s.live.generation + 1, s.live.clientGeneration)
  }

  lemma StepFollows(s: State, step: Step)
    requires Can(s, step)
    ensures TallyOf(Apply(s, step)) == Follow(TallyOf(s), step)
  {
  }

  /** The protocol follows its schedule. */
  lemma {:induction false} RunFollows(s: State, steps: seq<Step>)
    requires CanRun(s, steps)
    ensures TallyOf(Run(s, steps)) == FollowAll(TallyOf(s), steps)
    decreases |steps|
  {
    if steps != [] {
      StepFollows(s, steps[0]);
      RunFollows(Apply(s, steps[0]), steps[1..]);
    }
  }

  lemma {:induction false} LastFinishDecides(t: Tally, steps: seq<Step>)
    ensures var order := FinishOrder(t.open, t.next, steps); var t' := FollowAll(t, steps);
      && t'.next == t.next + Begins(steps)
      && t'.finished == (if order == [] then t.finished else order[|order| - 1])
      && |t'.open| + |order| == |t.open| + Begins(steps)
    decreases |steps|
  {
    if steps != [] {
      LastFinishDecides(Follow(t, steps[0]), steps[1..]);
    }
  }

  /**
   * With no Reload pending, the client cache is on the current generation if and only if the Reload that began
   * last also finished last. New counts as number 1, the Reloads as 2, 3, ... in the order they begin.
   */
  lemma {:induction false} LagIsExact(t: Tables, steps: seq<Step>)
    requires Sound(t, 0) && CanRun(Initial(t), steps) && Run(Initial(t), steps).pending == []
    ensures var s := Run(Initial(t), steps); var order := FinishOrder([], 2, steps); var began := Begins(steps);
      && |order| == began
      && (s.live.clientGeneration == s.live.generation <==> began == 0 || order[|order| - 1] == 1 + began)
  {
    RunFollows(Initial(t), steps);
    LastFinishDecides(Tally([], 2, 1), steps);
  }

  /** The step is a getClient for a request that was routed by the generation the cache belongs to. */
  predicate ServesCached(s: State, step: Step) {
    step.GetClient? && step.hit < |s.hits| && s.hits[step.hit].generation == s.live.clientGeneration
  }

  ghost predicate ServesStrangers(s: State, steps: seq<Step>)
    requires CanRun(s, steps)
    decreases |steps|
  {
    steps == [] || (!ServesCached(s, steps[0]) && ServesStrangers(Apply(s, steps[0]), steps[1..]))
  }

  predicate FinishFree(steps: seq<Step>) {
    steps == [] || (!steps[0].Finish? && FinishFree(steps[1..]))
  }

  /** getClient for requests of other generations leaves the cache alone, whatever else goes on. */
  lemma {:induction false} StrangersLeaveCache(s: State, steps: seq<Step>)
    requires CanRun(s, steps) && FinishFree(steps) && ServesStrangers(s, steps)
    ensures Run(s, steps).live.clients == s.live.clients
    decreases |steps|
  {
    if steps != [] {
      StrangersLeaveCache(Apply(s, steps[0]), steps[1..]);
    }
  }

  lemma {:induction false} CacheOnlyGrows(s: State, steps: seq<Step>)
    requires CanRun(s, steps) && FinishFree(steps)
    ensures s.live.clients.Keys <= Run(s, steps).live.clients.Keys
    decreases |steps|
  {
    if steps != [] {
      CacheOnlyGrows(Apply(s, steps[0]), steps[1..]);
    }
  }

  /**
   * As long as no Reload finishes, an empty client cache stays empty if and only if no getClient serves a request
   * of `clientGeneration`.
   */
  lemma {:induction false} CacheStaysEmptyExactly(s: State, steps: seq<Step>)
    requires CanRun(s, steps) && FinishFree(steps) && s.live.clients == map[]
    ensures Run(s, steps).live.clients == map[] <==> ServesStrangers(s, steps)
    decreases |steps|
  {
    if steps != [] {
      var s1 := Apply(s, steps[0]);
      if ServesCached(s, steps[0]) {
        assert s.hits[steps[0].hit].reg.value.name in s1.live.clients;
        CacheOnlyGrows(s1, steps[1..]);
      } else {
        CacheStaysEmptyExactly(s1, steps[1..]);
      }
    }
  }

  /** Distinct names are what getClient depends on: two registries of one name share a client. */
  lemma SharedNameSharesClient(p: Live, a: Registry, b: Registry, cfg: Config)
    requires a.name == b.name && a != b && p.clients == map[]
    ensures var p' := Remember(p, a, cfg, p.clientGeneration);
      ClientFor(p', b, cfg, p.clientGeneration) == Client(a, cfg) != Client(b, cfg)
  {
  }

  lemma {:induction false} SameNames(regs: seq<Registry>)
    ensures Names(NormalizedAll(regs)) == Names(regs)
  {
    if regs != [] {
      var k := |regs| - 1;
      SameNames(regs[..k]);
      SnocRegistry(regs[..k], regs[k]);
      assert NormalizedAll(regs)[..|NormalizedAll(regs)| - 1] == NormalizedAll(regs[..k]);
    }
  }

  /** Whatever Validate accepts has the distinct names a sound table needs. */
  lemma ValidatedNames(regs: seq<Registry>)
    requires ValidConfig(regs)
    ensures Distinct(Names(NormalizedAll(regs)))
  {
    SameNames(regs);
    FreshSpec(Names(regs));
  }

  // ---- what a route means ----

  /**
   * Hybrid routing: the longest configured prefix of the repository, else the last registry listing the
   * request's host, else (trusted peers only) the last one listing the forwarded host, else the default.
   */
  lemma RouteMeaning(t: Tables, generation: nat, req: Request)
    requires BuiltFrom(t) && Stable(t.cfg.registries) && Distinct(AllPrefixes(t.cfg.registries))
    ensures var repo := ExtractRepo(req.path, ORDER); var regs := t.cfg.registries; var hit := Route(t, generation, req);
      var host := LastLister(regs, ToLower(BeforeColon(req.host)));
      var forwarded := LastLister(regs, ToLower(BeforeColon(req.forwardedHost)));
      if repo != "" && exists r :: r in multiset(Collect(regs)) && Matches(r.prefix, repo)
      then hit.reg.Some? && IsLongestMatch(multiset(Collect(regs)), repo, PathRoute(hit.stripPrefix, hit.reg.value))
      else
        && hit.stripPrefix == ""
        && hit.reg == (if host.Some? then host
                       else if req.remote in t.cfg.trusts && req.forwardedHost != "" && forwarded.Some? then forwarded
                       else DefaultOf(regs, t.cfg.byDefault))
  {
    var repo, regs := ExtractRepo(req.path, ORDER), t.cfg.registries;
    LastHostWins(regs, ToLower(BeforeColon(req.host)));
    LastHostWins(regs, ToLower(BeforeColon(req.forwardedHost)));
    RoutePrefixesDistinct(regs);
    FirstMatchIsLongestPrefix(t.paths, repo);
  }

  /**
   * A hit that strips a prefix rewrites the path to the same kind and reference with the rest of the
   * repository, which is what both the token scope and the recorded event name.
   */
  lemma HitRewrites(t: Tables, generation: nat, req: Request)
    requires BuiltFrom(t) && Route(t, generation, req).stripPrefix != ""
    ensures var p := Route(t, generation, req).stripPrefix; var read := ClassifyPath(req.path);
      && read.Some? && Matches(p, read.value.repo)
      && ClassifyPath(StripRepoPathPrefix(req.path, p)) ==
        (if read.value.repo == p || read.value.repo == p + "/" then None
         else Some(read.value.(repo := read.value.repo[|p| + 1..])))
  {
    var repo := ExtractRepo(req.path, ORDER);
    PathIsConfigured(t, repo);
    AllKindsTried();
    ExtractAgreesWithClassify(req.path, ORDER);
    var p := Route(t, generation, req).stripPrefix;
    assert ClassifyPath(req.path).Some? && repo == ClassifyPath(req.path).value.repo && Matches(p, repo) && Stored(p);
    RewriteCommutes(req.path, ClassifyPath(req.path).value, p);
  }

  // ---- the proxy itself ----

  class Proxy {
    var cfg: Config
    var hostIndex: map<string, Registry>
    var pathRoutes: seq<PathRoute>
    var defaultReg: Option<Registry>
    var generation: nat
    var tokens: nat
    var caches: nat
    var clients: map<string, Client>
    var clientGeneration: nat

    ghost function View(): Live
      reads this
    {
      Live(Tables(cfg, tokens, hostIndex, pathRoutes, defaultReg), generation, caches, clients, clientGeneration)
    }

    constructor (initial: Config)
      ensures BuiltFrom(View().tables) && cfg == initial && tokens == 0
      ensures View() == Initial(View().tables).live
    {
      clients, tokens, caches := map[], 0, 1;
      generation, clientGeneration := 0, 0;
      cfg := initial;
      new;
      ApplyLocked(initial);
      clientGeneration := generation;
    }

    method ApplyLocked(next: Config)
      modifies this
      ensures cfg == next && BuiltFrom(View().tables)
      ensures View() == old(View()).(tables := View().tables, generation := old(generation) + 1)
      ensures tokens == old(tokens)
    {
      hostIndex, pathRoutes, defaultReg := BuildRoutes(next.registries, next.byDefault);
      generation := generation + 1;
      cfg := next;
    }

    /** What Reload does under the routing lock. */
    method SwapTables(next: Config) returns (installed: nat)
      modifies this
      ensures cfg == next && BuiltFrom(View().tables) && tokens == old(caches)
      ensures View() == Install(old(View()), View().tables) && installed == generation
    {
      tokens, caches := caches, caches + 1;
      ApplyLocked(next);
      installed := generation;
    }

    /** What Reload does under the client lock. */
    method ResetClients(installed: nat)
      modifies this
      ensures View() == DropClients(old(View()), installed)
    {
      clients, clientGeneration := map[], installed;
    }

    method Reload(next: Config)
      modifies this
      ensures cfg == next && BuiltFrom(View().tables) && tokens == old(caches)
      ensures View() == DropClients(Install(old(View()), View().tables), old(generation) + 1)
    {
      var installed := SwapTables(next);
      ResetClients(installed);
    }

    method ResolveRoute(req: Request) returns (hit: Hit)
      ensures hit == Route(View().tables, generation, req)
    {
      var repo := ExtractRepo(req.path, ORDER);
      if repo != "" {
        var route := FindRoute(pathRoutes, repo);
        if route.Some? {
          return Hit(Some(route.value.reg), route.value.prefix, cfg, tokens, generation);
        }
      }
      hit := Hit(defaultReg, "", cfg, tokens, generation);
      var host := ToLower(BeforeColon(req.host));
      if host in hostIndex {
        return hit.(reg := Some(hostIndex[host]));
      }
      if req.remote in cfg.trusts && req.forwardedHost != "" {
        var forwarded := ToLower(BeforeColon(req.forwardedHost));
        if forwarded in hostIndex {
          return hit.(reg := Some(hostIndex[forwarded]));
        }
      }
    }

    method GetClient(reg: Registry, original: Config, resolved: nat) returns (client: Client)
      modifies this
      ensures client == ClientFor(old(View()), reg, original, resolved)
      ensures View() == Remember(old(View()), reg, original, resolved)
    {
      if resolved == clientGeneration && reg.name in clients {
        return clients[reg.name];
      }
      client := Client(reg, original);
      if resolved == clientGeneration {
        clients := clients[reg.name := client];
      }
    }
  }
}
