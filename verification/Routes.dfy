/**
 * Validate's uniqueness checks (internal/config/config.go) and the route tables of internal/proxy/proxy.go:
 * buildRoutes with its exchange sort, and the first-match loop of resolveRoute.
 */
module Routes {
  import opened Common
  import opened Paths

  /** `sound` stands for the checks of Validate on upstream, auth and TLS, which touch no routing field. */
  datatype Registry = Registry(name: string, hosts: seq<string>, prefixes: seq<string>, enabled: bool, sound: bool)

  function Normalize(p: string): string {
    Trim(ToLower(TrimSpace(p)), IsSlash)
  }

  function NormalizeAll(ps: seq<string>): seq<string> {
    Map(Normalize, ps)
  }

  lemma {:induction false} TrimKeepsLower(s: string, cut: char -> bool)
    requires IsLower(s)
    ensures IsLower(Trim(s, cut))
  {
    TrimLeftKeeps(s, cut);
    TrimRightKeeps(TrimLeft(s, cut), cut);
  }

  lemma NormalizeSpec(p: string)
    ensures IsLower(Normalize(p)) && Trimmed(Normalize(p), IsSlash)
  {
    LowerIsLower(TrimSpace(p));
    TrimKeepsLower(ToLower(TrimSpace(p)), IsSlash);
    TrimSpec(ToLower(TrimSpace(p)), IsSlash);
  }

  /** What a prefix is taken for: what stands between the spaces and slashes around it, in lower case. */
  lemma NormalizeReads(a: string, u: string, core: string, v: string, b: string)
    requires AllCut(a, IsSpace) && AllCut(b, IsSpace) && AllCut(u, IsSlash) && AllCut(v, IsSlash)
    requires core != "" && Trimmed(core, IsSpace) && Trimmed(core, IsSlash)
    ensures Normalize(a + (u + core + v) + b) == ToLower(core)
  {
    WrappedTrimmed(u, core, v);
    TrimAround(a, u + core + v, b, IsSpace);
    LowerWrapped(u, core, v);
    TrimAround(u, ToLower(core), v, IsSlash);
  }

  lemma WrappedTrimmed(u: string, core: string, v: string)
    requires AllCut(u, IsSlash) && AllCut(v, IsSlash) && core != "" && Trimmed(core, IsSpace)
    ensures Trimmed(u + core + v, IsSpace)
  {
    var middle := u + core + v;
    assert middle[0] == (if u == "" then core[0] else u[0]);
    assert middle[|middle| - 1] == (if v == "" then core[|core| - 1] else v[|v| - 1]);
  }

  lemma LowerWrapped(u: string, core: string, v: string)
    requires AllCut(u, IsSlash) && AllCut(v, IsSlash) && core != "" && Trimmed(core, IsSlash)
    ensures ToLower(u + core + v) == u + ToLower(core) + v && Trimmed(ToLower(core), IsSlash)
  {
    LowerJoins(u, core, v);
    SlashesStay(u);
    SlashesStay(v);
    assert ToLower(core)[0] == LowerChar(core[0]) && ToLower(core)[|core| - 1] == LowerChar(core[|core| - 1]);
  }

  lemma SlashesStay(u: string)
    requires AllCut(u, IsSlash)
    ensures ToLower(u) == u
  {
  }

  /**
   * Validate normalizes in place and buildRoutes normalizes again. The second pass changes nothing exactly
   * when the first result has no space at either end, which a prefix such as "/ x /" violates.
   */
  lemma NormalizeTwice(p: string)
    ensures Normalize(Normalize(p)) == Normalize(p) <==> Trimmed(Normalize(p), IsSpace)
  {
    var n := Normalize(p);
    NormalizeSpec(p);
    TrimSpec(n, IsSpace);
    if Trimmed(n, IsSpace) {
      LowerIsLower(n);
      TrimSpec(n, IsSlash);
    } else {
      var t := TrimSpace(n);
      assert t != n && |t| <= |n|;
      TrimShorter(n, IsSpace);
      TrimSpec(ToLower(t), IsSlash);
    }
  }

  function Names(regs: seq<Registry>): seq<string> {
    if regs == [] then [] else Names(regs[..|regs| - 1]) + [regs[|regs| - 1].name]
  }

  /** All normalized prefixes, in config order. */
  function AllPrefixes(regs: seq<Registry>): seq<string> {
    if regs == [] then [] else AllPrefixes(regs[..|regs| - 1]) + NormalizeAll(regs[|regs| - 1].prefixes)
  }

  /** No empty string and no string twice. */
  predicate Fresh(xs: seq<string>) {
    xs == [] || (Fresh(xs[..|xs| - 1]) && xs[|xs| - 1] != "" && xs[|xs| - 1] !in xs[..|xs| - 1])
  }

  lemma FreshSnoc(xs: seq<string>, x: string)
    ensures Fresh(xs + [x]) <==> Fresh(xs) && x != "" && x !in xs
  {
    assert (xs + [x])[..|xs|] == xs;
  }

  lemma {:induction false} FreshFront(xs: seq<string>, ys: seq<string>)
    requires xs <= ys && Fresh(ys)
    ensures Fresh(xs)
    decreases |ys|
  {
    if |xs| < |ys| {
      FreshFront(xs, ys[..|ys| - 1]);
    } else {
      assert xs == ys;
    }
  }

  lemma {:induction false} FreshSpec(xs: seq<string>)
    ensures Fresh(xs) <==> Distinct(xs) && "" !in xs
  {
    if xs != [] {
      var front, x := xs[..|xs| - 1], xs[|xs| - 1];
      FreshSpec(front);
      DistinctSnoc(front, x);
      assert xs == front + [x];
    }
  }

  /** What Validate demands of one registry on its own. */
  predicate RegistryOk(r: Registry) {
    (r.hosts != [] || r.prefixes != []) && r.sound
  }

  predicate AllOk(regs: seq<Registry>) {
    forall i {:trigger RegistryOk(regs[i])} :: 0 <= i < |regs| ==> RegistryOk(regs[i])
  }

  predicate ValidConfig(regs: seq<Registry>) {
    regs != [] && ValidFront(regs)
  }

  // what the condition says, entry by entry

  lemma DistinctJoins(xs: seq<string>, ys: seq<string>)
    ensures Distinct(xs + ys) <==> Distinct(xs) && Distinct(ys) && forall x :: x in xs ==> x !in ys
  {
    var n := |xs|;
    if Distinct(xs + ys) {
      DistinctOver(xs, ys);
    }
    if Distinct(xs) && Distinct(ys) && forall x :: x in xs ==> x !in ys {
      forall i, j | 0 <= i < j < |xs + ys| ensures (xs + ys)[i] != (xs + ys)[j] {
        assert (xs + ys)[i] == if i < n then xs[i] else ys[i - n];
        assert (xs + ys)[j] == if j < n then xs[j] else ys[j - n];
        if i < n <= j {
          assert xs[i] in xs && ys[j - n] in ys;
        }
      }
    }
  }

  lemma DistinctOver(xs: seq<string>, ys: seq<string>)
    requires Distinct(xs + ys)
    ensures Distinct(xs) && Distinct(ys) && forall x :: x in xs ==> x !in ys
  {
    var n := |xs|;
    forall i, j | 0 <= i < j < n ensures xs[i] != xs[j] {
      assert (xs + ys)[i] != (xs + ys)[j];
    }
    forall i, j | 0 <= i < j < |ys| ensures ys[i] != ys[j] {
      assert (xs + ys)[n + i] != (xs + ys)[n + j];
    }
    forall i, j | 0 <= i < n && 0 <= j < |ys| ensures xs[i] != ys[j] {
      assert (xs + ys)[i] != (xs + ys)[n + j];
    }
  }

  /** Two entries of path_prefixes, at different places, that normalize to the same text. */
  ghost predicate Clash(regs: seq<Registry>, i: nat, j: nat, k: nat, l: nat) {
    && i < |regs| && j < |regs[i].prefixes| && k < |regs| && l < |regs[k].prefixes| && (i, j) != (k, l)
    && Normalize(regs[i].prefixes[j]) == Normalize(regs[k].prefixes[l])
  }

  lemma {:induction false} PrefixPlace(regs: seq<Registry>, p: string)
    requires p in AllPrefixes(regs)
    ensures exists i: nat, j: nat :: i < |regs| && j < |regs[i].prefixes| && Normalize(regs[i].prefixes[j]) == p
  {
    var k := |regs| - 1;
    if p in NormalizeAll(regs[k].prefixes) {
      MapLength(Normalize, regs[k].prefixes);
      var j :| 0 <= j < |NormalizeAll(regs[k].prefixes)| && NormalizeAll(regs[k].prefixes)[j] == p;
      MapAt(Normalize, regs[k].prefixes, j);
    } else {
      PrefixPlace(regs[..k], p);
      var i: nat, j: nat :| i < k && j < |regs[..k][i].prefixes| && Normalize(regs[..k][i].prefixes[j]) == p;
      assert regs[..k][i] == regs[i];
    }
  }

  lemma {:induction false} OwnClash(regs: seq<Registry>, k: nat)
    requires k < |regs| && !Distinct(NormalizeAll(regs[k].prefixes))
    ensures exists j: nat, l: nat :: Clash(regs, k, j, k, l)
  {
    var ps := regs[k].prefixes;
    MapLength(Normalize, ps);
    var j, l :| 0 <= j < l < |NormalizeAll(ps)| && NormalizeAll(ps)[j] == NormalizeAll(ps)[l];
    MapAt(Normalize, ps, j);
    MapAt(Normalize, ps, l);
    assert Clash(regs, k, j, k, l);
  }

  lemma {:induction false} ClashStays(regs: seq<Registry>, i: nat, j: nat, k: nat, l: nat)
    requires regs != [] && Clash(regs[..|regs| - 1], i, j, k, l)
    ensures Clash(regs, i, j, k, l)
  {
  }

  lemma {:induction false} NotDistinctClashes(regs: seq<Registry>)
    requires !Distinct(AllPrefixes(regs))
    ensures exists i: nat, j: nat, k: nat, l: nat :: Clash(regs, i, j, k, l)
  {
    var n := |regs| - 1;
    var front, own := AllPrefixes(regs[..n]), NormalizeAll(regs[n].prefixes);
    DistinctJoins(front, own);
    if !Distinct(front) {
      NotDistinctClashes(regs[..n]);
      var i: nat, j: nat, k: nat, l: nat :| Clash(regs[..n], i, j, k, l);
      ClashStays(regs, i, j, k, l);
    } else if !Distinct(own) {
      OwnClash(regs, n);
    } else {
      var p :| p in front && p in own;
      PrefixPlace(regs[..n], p);
      var i: nat, j: nat :| i < n && j < |regs[..n][i].prefixes| && Normalize(regs[..n][i].prefixes[j]) == p;
      MapLength(Normalize, regs[n].prefixes);
      var l :| 0 <= l < |own| && own[l] == p;
      MapAt(Normalize, regs[n].prefixes, l);
      assert Clash(regs, i, j, n, l);
    }
  }

  lemma {:induction false} OwnNotDistinct(regs: seq<Registry>, k: nat, j: nat, l: nat)
    requires Clash(regs, k, j, k, l)
    ensures !Distinct(NormalizeAll(regs[k].prefixes))
  {
    var ps := regs[k].prefixes;
    MapLength(Normalize, ps);
    MapAt(Normalize, ps, j);
    MapAt(Normalize, ps, l);
    assert NormalizeAll(ps)[j] == NormalizeAll(ps)[l];
  }

  lemma {:induction false} OwnMember(r: Registry, j: nat)
    requires j < |r.prefixes|
    ensures Normalize(r.prefixes[j]) in NormalizeAll(r.prefixes)
  {
    MapLength(Normalize, r.prefixes);
    MapAt(Normalize, r.prefixes, j);
  }

  /** An earlier registry's entry, read from the registries before the last. */
  lemma {:induction false} FrontMember(regs: seq<Registry>, i: nat, j: nat)
    requires i < |regs| - 1 && j < |regs[i].prefixes|
    ensures Normalize(regs[i].prefixes[j]) in AllPrefixes(regs[..|regs| - 1])
  {
    PrefixMember(regs[..|regs| - 1], i, j);
  }

  lemma {:induction false} ClashIsNotDistinct(regs: seq<Registry>, i: nat, j: nat, k: nat, l: nat)
    requires Clash(regs, i, j, k, l)
    ensures !Distinct(AllPrefixes(regs))
    decreases |regs|
  {
    var n := |regs| - 1;
    DistinctJoins(AllPrefixes(regs[..n]), NormalizeAll(regs[n].prefixes));
    if i == k == n {
      OwnNotDistinct(regs, n, j, l);
    } else if i == n {
      OwnMember(regs[n], j);
      FrontMember(regs, k, l);
    } else if k == n {
      FrontMember(regs, i, j);
      OwnMember(regs[n], l);
    } else {
      ClashIsNotDistinct(regs[..n], i, j, k, l);
    }
  }

  lemma {:induction false} NamesMeans(regs: seq<Registry>)
    ensures |Names(regs)| == |regs| && forall i :: 0 <= i < |regs| ==> Names(regs)[i] == regs[i].name
  {
    if regs != [] {
      NamesMeans(regs[..|regs| - 1]);
    }
  }

  /**
   * What Validate accepts, entry by entry: at least one registry; each named, reachable by a host or a prefix, and
   * sound; no two of one name; no prefix that normalizes to nothing and no two, of any registries, to the same.
   */
  lemma ValidConfigMeans(regs: seq<Registry>)
    ensures ValidConfig(regs) <==>
      && regs != []
      && (forall i :: 0 <= i < |regs| ==>
            regs[i].name != "" && (regs[i].hosts != [] || regs[i].prefixes != []) && regs[i].sound)
      && (forall i, k :: 0 <= i < k < |regs| ==> regs[i].name != regs[k].name)
      && (forall i, j :: 0 <= i < |regs| && 0 <= j < |regs[i].prefixes| ==> Normalize(regs[i].prefixes[j]) != "")
      && (forall i: nat, j: nat, k: nat, l: nat :: !Clash(regs, i, j, k, l))
  {
    FreshSpec(Names(regs));
    FreshSpec(AllPrefixes(regs));
    NamesMeans(regs);
    EmptyPrefix(regs);
    AllOkMeans(regs);
    if Distinct(AllPrefixes(regs)) {
      forall i: nat, j: nat, k: nat, l: nat ensures !Clash(regs, i, j, k, l) {
        if Clash(regs, i, j, k, l) { ClashIsNotDistinct(regs, i, j, k, l); }
      }
    } else {
      NotDistinctClashes(regs);
    }
  }

  lemma AllOkMeans(regs: seq<Registry>)
    ensures AllOk(regs) <==> forall i :: 0 <= i < |regs| ==> (regs[i].hosts != [] || regs[i].prefixes != []) && regs[i].sound
  {
    if AllOk(regs) {
      forall i | 0 <= i < |regs| ensures (regs[i].hosts != [] || regs[i].prefixes != []) && regs[i].sound {
        assert RegistryOk(regs[i]);
      }
    }
  }

  lemma EmptyPrefix(regs: seq<Registry>)
    ensures "" in AllPrefixes(regs) <==>
      exists i: nat, j: nat :: i < |regs| && j < |regs[i].prefixes| && Normalize(regs[i].prefixes[j]) == ""
  {
    if "" in AllPrefixes(regs) {
      PrefixPlace(regs, "");
    }
    forall i: nat, j: nat | i < |regs| && j < |regs[i].prefixes| && Normalize(regs[i].prefixes[j]) == ""
      ensures "" in AllPrefixes(regs)
    {
      PrefixMember(regs, i, j);
    }
  }

  function NormalizeRegistry(r: Registry): Registry {
    r.(prefixes := NormalizeAll(r.prefixes))
  }

  lemma {:induction false} ConfigExtends(now: seq<Registry>, regs: seq<Registry>)
    requires now <= regs
    ensures AllPrefixes(now) <= AllPrefixes(regs) && Names(now) <= Names(regs)
    decreases |regs|
  {
    if |now| < |regs| {
      ConfigExtends(now, regs[..|regs| - 1]);
    } else {
      assert now == regs;
    }
  }

  lemma NormalizeNext(seen: seq<string>, ps: seq<string>, j: nat)
    requires j < |ps|
    ensures NormalizeAll(ps[..j + 1]) == NormalizeAll(ps[..j]) + [Normalize(ps[j])] && |NormalizeAll(ps[..j])| == j
    ensures seen + NormalizeAll(ps[..j]) + [Normalize(ps[j])] == seen + NormalizeAll(ps[..j + 1])
    ensures seen + NormalizeAll(ps[..j + 1]) <= seen + NormalizeAll(ps)
  {
    assert ps[..j + 1][..j] == ps[..j];
    MapExtends(Normalize, ps, j + 1);
    MapLength(Normalize, ps[..j]);
  }

  /** A list that is no longer fresh stays so, whatever comes after it. */
  lemma ClashIsFinal(front: seq<string>, p: string, whole: seq<string>)
    requires front + [p] <= whole && (p == "" || p in front)
    ensures !Fresh(whole)
  {
    FreshSnoc(front, p);
    if Fresh(whole) {
      FreshFront(front + [p], whole);
    }
  }

  lemma PutNext(head: seq<string>, ps: seq<string>, p: string)
    requires |head| < |ps|
    ensures (head + ps[|head|..])[|head| := p] == head + [p] + ps[|head| + 1..]
  {
  }

  /** One registry's prefixes checked against, and added to, the owners seen so far. */
  method ClaimPrefixes(r: Registry, owners: map<string, string>, ghost seen: seq<string>)
    returns (ok: bool, normalized: seq<string>, owners': map<string, string>)
    requires forall p :: p in owners <==> p in seen
    requires Fresh(seen)
    ensures ok <==> Fresh(seen + NormalizeAll(r.prefixes))
    ensures ok ==> normalized == NormalizeAll(r.prefixes)
    ensures ok ==> forall p :: p in owners' <==> p in seen + NormalizeAll(r.prefixes)
  {
    normalized, owners' := r.prefixes, owners;
    ghost var head: seq<string>, sofar := [], seen;
    ghost var whole := seen + NormalizeAll(r.prefixes);
    assert seen + [] == seen;
    for j := 0 to |r.prefixes|
      invariant head == NormalizeAll(r.prefixes[..j]) && |head| == j && sofar == seen + head
      invariant normalized == head + r.prefixes[j..]
      invariant forall p :: p in owners' <==> p in sofar
      invariant Fresh(sofar)
    {
      NormalizeNext(seen, r.prefixes, j);
      var p := Trim(ToLower(TrimSpace(r.prefixes[j])), IsSlash);
      assert p == Normalize(r.prefixes[j]);
      if p == "" {
        ClashIsFinal(sofar, p, whole);
        return false, normalized, owners';
      }
      if p in owners' {
        ClashIsFinal(sofar, p, whole);
        return false, normalized, owners';
      }
      owners' := owners'[p := r.name];
      PutNext(head, r.prefixes, p);
      normalized := normalized[j := p];
      FreshSnoc(sofar, p);
      head, sofar := head + [p], sofar + [p];
    }
    assert r.prefixes[..|r.prefixes|] == r.prefixes;
    ok := true;
  }

  lemma BadIsFinal(now: seq<string>, whole: seq<string>)
    requires now <= whole
    ensures Fresh(whole) ==> Fresh(now)
  {
    if Fresh(whole) {
      FreshFront(now, whole);
    }
  }

  /** The checks on one registry, given what the registries before it have claimed. */
  method ClaimRegistry(r: Registry, names: set<string>, owners: map<string, string>, ghost named: seq<string>, ghost seen: seq<string>)
    returns (ok: bool, r': Registry, owners': map<string, string>)
    requires forall n :: n in names <==> n in named
    requires forall p :: p in owners <==> p in seen
    requires Fresh(named) && Fresh(seen)
    ensures ok <==> RegistryOk(r) && Fresh(named + [r.name]) && Fresh(seen + NormalizeAll(r.prefixes))
    ensures ok ==> r' == NormalizeRegistry(r)
    ensures ok ==> forall p :: p in owners' <==> p in seen + NormalizeAll(r.prefixes)
  {
    FreshSnoc(named, r.name);
    if r.name == "" || r.name in names || (|r.hosts| == 0 && |r.prefixes| == 0) {
      return false, r, owners;
    }
    var good, normalized, claimed := ClaimPrefixes(r, owners, seen);
    ok, r', owners' := good && r.sound, r.(prefixes := normalized), claimed;
  }

  /** What a prefix of the registries has been found to satisfy. */
  predicate ValidFront(regs: seq<Registry>) {
    && AllOk(regs)
    && Fresh(Names(regs))
    && Fresh(AllPrefixes(regs))
  }

  lemma ValidSnoc(before: seq<Registry>, r: Registry, now: seq<Registry>)
    requires now == before + [r]
    requires AllPrefixes(now) == AllPrefixes(before) + NormalizeAll(r.prefixes) && Names(now) == Names(before) + [r.name]
    ensures ValidFront(now) <==> ValidFront(before) && RegistryOk(r) && Fresh(Names(now)) && Fresh(AllPrefixes(now))
  {
    AllOkSnoc(before, r);
    BadIsFinal(AllPrefixes(before), AllPrefixes(now));
    BadIsFinal(Names(before), Names(now));
  }

  lemma ValidFrontOf(now: seq<Registry>, regs: seq<Registry>)
    requires now <= regs
    ensures ValidConfig(regs) ==> ValidFront(now)
  {
    ConfigExtends(now, regs);
    AllOkFront(now, regs);
    BadIsFinal(AllPrefixes(now), AllPrefixes(regs));
    BadIsFinal(Names(now), Names(regs));
  }

  lemma AllOkSnoc(regs: seq<Registry>, r: Registry)
    ensures AllOk(regs + [r]) <==> AllOk(regs) && RegistryOk(r)
  {
    if AllOk(regs + [r]) {
      forall i | 0 <= i < |regs| ensures RegistryOk(regs[i]) {
        assert (regs + [r])[i] == regs[i];
      }
      assert (regs + [r])[|regs|] == r;
    }
  }

  lemma AllOkFront(now: seq<Registry>, whole: seq<Registry>)
    requires now <= whole
    ensures AllOk(whole) ==> AllOk(now)
  {
  }

  /** The names and prefixes claimed by a list of registries. */
  ghost predicate Claimed(front: seq<Registry>, names: set<string>, owners: map<string, string>) {
    && ValidFront(front)
    && (forall n :: n in names <==> n in Names(front))
    && (forall p :: p in owners <==> p in AllPrefixes(front))
  }

  method ClaimNext(ghost before: seq<Registry>, ghost now: seq<Registry>, r: Registry, names: set<string>, owners: map<string, string>)
    returns (ok: bool, r': Registry, names': set<string>, owners': map<string, string>)
    requires now == before + [r] && Claimed(before, names, owners)
    ensures ok <==> ValidFront(now)
    ensures ok ==> r' == NormalizeRegistry(r) && Claimed(now, names', owners')
  {
    SnocRegistry(before, r);
    ValidSnoc(before, r, now);
    ok, r', owners' := ClaimRegistry(r, names, owners, Names(before), AllPrefixes(before));
    names' := names + {r.name};
  }

  lemma ClaimedNone(none: seq<Registry>)
    requires none == []
    ensures Claimed(none, {}, map[])
  {
  }

  /**
   * Validate accepts exactly the configurations whose names and normalized prefixes are non-empty and
   * distinct and whose default, if any, is one of the names; it leaves every prefix normalized.
   */
  method Validate(regs: array<Registry>, byDefault: string) returns (ok: bool)
    modifies regs
    ensures ok <==> ValidConfig(old(regs[..])) && (byDefault == "" || byDefault in Names(old(regs[..])))
    ensures ok ==> forall i :: 0 <= i < regs.Length ==> regs[i] == NormalizeRegistry(old(regs[i]))
  {
    if regs.Length == 0 {
      return false;
    }
    var names: set<string> := {};
    var owners: map<string, string> := map[];
    ghost var all := regs[..];
    ghost var front := all[..0];
    ClaimedNone(front);
    for i := 0 to regs.Length
      invariant forall k :: i <= k < regs.Length ==> regs[k] == all[k]
      invariant forall k :: 0 <= k < i ==> regs[k] == NormalizeRegistry(all[k])
      invariant front == all[..i] && Claimed(front, names, owners)
    {
      ghost var next := all[..i + 1];
      assert next == front + [all[i]];
      var good, r, names', owners' := ClaimNext(front, next, regs[i], names, owners);
      if !good {
        ValidFrontOf(next, all);
        return false;
      }
      names, owners := names', owners';
      front := next;
      regs[i] := r;
    }
    assert front == all;
    ok := byDefault == "" || byDefault in names;
  }

  lemma NormalizeExamples()
    ensures Normalize("/ x /") == " x " && Normalize(" x ") == "x" && Normalize("x") == "x"
  {
    assert TrimLeft("/ x /", IsSpace) == "/ x /" && ToLower("/ x /") == "/ x /";
    assert TrimLeft("/ x /", IsSlash) == TrimLeft(" x /", IsSlash) == " x /";
    assert TrimRight(" x /", IsSlash) == TrimRight(" x ", IsSlash) == " x ";
    assert TrimLeft(" x ", IsSpace) == TrimLeft("x ", IsSpace) == "x ";
    assert TrimRight("x ", IsSpace) == TrimRight("x", IsSpace) == "x";
    TrimSpec("x", IsSpace);
    TrimSpec("x", IsSlash);
    assert ToLower("x") == "x";
  }

  lemma OneRoute(r: Registry, p: string)
    requires r.enabled && r.prefixes == [p] && Normalize(p) != ""
    ensures RoutesOf(r) == [PathRoute(Normalize(p), r)] && NormalizeAll(r.prefixes) == [Normalize(p)]
  {
    assert r.prefixes[..0] == [];
    assert NormalizeAll([]) == [] && RoutesFor(r, []) == [];
    assert [Normalize(p)][..0] == [];
  }

  lemma SnocRegistry(regs: seq<Registry>, r: Registry)
    ensures AllPrefixes(regs + [r]) == AllPrefixes(regs) + NormalizeAll(r.prefixes)
    ensures Names(regs + [r]) == Names(regs) + [r.name]
    ensures NormalizedAll(regs + [r]) == NormalizedAll(regs) + [NormalizeRegistry(r)]
  {
    assert (regs + [r])[..|regs|] == regs;
  }

  lemma TwoFresh(x: string, y: string)
    requires x != "" && y != "" && x != y
    ensures Fresh([x]) && Fresh([x] + [y])
  {
    FreshSnoc([], x);
    FreshSnoc([x], y);
  }

  lemma ValidPair(a: Registry, b: Registry, p: string, q: string)
    requires RegistryOk(a) && RegistryOk(b) && a.name != "" && b.name != "" && a.name != b.name
    requires a.prefixes == [p] && b.prefixes == [q] && Normalize(p) != "" && Normalize(q) != ""
    requires Normalize(p) != Normalize(q)
    ensures ValidConfig([] + [a] + [b])
  {
    SnocRegistry([], a);
    SnocRegistry([] + [a], b);
    assert NormalizeAll([]) == [] && [p][..0] == [] && [q][..0] == [];
    TwoFresh(a.name, b.name);
    TwoFresh(Normalize(p), Normalize(q));
  }

  /** A validated configuration can still send one stored prefix to two registries: "/ x /" and "x". */
  lemma RenormalizedDuplicate(a: Registry, b: Registry)
    requires RegistryOk(a) && RegistryOk(b) && a.enabled && b.enabled && a.name != "" && b.name != "" && a.name != b.name
    requires a.prefixes == ["/ x /"] && b.prefixes == ["x"]
    ensures ValidConfig([] + [a] + [b])
    ensures Collect([] + [NormalizeRegistry(a)] + [NormalizeRegistry(b)])
      == [PathRoute("x", NormalizeRegistry(a)), PathRoute("x", NormalizeRegistry(b))]
  {
    var na, nb := NormalizeRegistry(a), NormalizeRegistry(b);
    NormalizeExamples();
    ValidPair(a, b, "/ x /", "x");
    OneRoute(a, "/ x /");
    OneRoute(b, "x");
    OneRoute(na, " x ");
    OneRoute(nb, "x");
    CollectSnoc([], na);
    CollectSnoc([] + [na], nb);
  }

  function NormalizedAll(regs: seq<Registry>): seq<Registry> {
    Map(NormalizeRegistry, regs)
  }

  // ---- buildRoutes ----

  datatype PathRoute = PathRoute(prefix: string, reg: Registry)

  /** Routes of one registry for its normalized prefixes; an empty one is skipped. */
  function RoutesFor(r: Registry, ns: seq<string>): seq<PathRoute> {
    if ns == [] then []
    else
      var k := |ns| - 1;
      RoutesFor(r, ns[..k]) + (if ns[k] == "" then [] else [PathRoute(ns[k], r)])
  }

  function RoutesOf(r: Registry): seq<PathRoute> {
    if r.enabled then RoutesFor(r, NormalizeAll(r.prefixes)) else []
  }

  /** The routes before sorting, in config order. */
  function Collect(regs: seq<Registry>): seq<PathRoute> {
    if regs == [] then [] else Collect(regs[..|regs| - 1]) + RoutesOf(regs[|regs| - 1])
  }

  function HostKey(h: string): string {
    ToLower(TrimSpace(h))
  }

  function AddHosts(idx: map<string, Registry>, r: Registry, hosts: seq<string>): map<string, Registry> {
    if hosts == [] then idx else AddHosts(idx, r, hosts[..|hosts| - 1])[HostKey(hosts[|hosts| - 1]) := r]
  }

  function HostIndex(regs: seq<Registry>): map<string, Registry> {
    if regs == [] then map[]
    else
      var k := |regs| - 1;
      if regs[k].enabled then AddHosts(HostIndex(regs[..k]), regs[k], regs[k].hosts) else HostIndex(regs[..k])
  }

  predicate HostIn(hosts: seq<string>, host: string) {
    hosts != [] && (HostKey(hosts[|hosts| - 1]) == host || HostIn(hosts[..|hosts| - 1], host))
  }

  /** The last enabled registry that lists the host. */
  function LastLister(regs: seq<Registry>, host: string): Option<Registry> {
    if regs == [] then None
    else
      var r := regs[|regs| - 1];
      if r.enabled && HostIn(r.hosts, host) then Some(r) else LastLister(regs[..|regs| - 1], host)
  }

  function Lookup(idx: map<string, Registry>, host: string): Option<Registry> {
    if host in idx then Some(idx[host]) else None
  }

  lemma {:induction false} AddHostsSpec(idx: map<string, Registry>, r: Registry, hosts: seq<string>, host: string)
    ensures Lookup(AddHosts(idx, r, hosts), host) == if HostIn(hosts, host) then Some(r) else Lookup(idx, host)
  {
    if hosts != [] {
      AddHostsSpec(idx, r, hosts[..|hosts| - 1], host);
    }
  }

  /** Duplicate hosts are not rejected; the last enabled registry that lists a host gets it. */
  lemma {:induction false} LastHostWins(regs: seq<Registry>, host: string)
    ensures Lookup(HostIndex(regs), host) == LastLister(regs, host)
  {
    if regs != [] {
      var k := |regs| - 1;
      LastHostWins(regs[..k], host);
      AddHostsSpec(HostIndex(regs[..k]), regs[k], regs[k].hosts, host);
    }
  }

  /** The registry a config names as default, if it is enabled (names are distinct). */
  function DefaultOf(regs: seq<Registry>, def: string): Option<Registry> {
    if regs == [] then None
    else
      var k := |regs| - 1;
      if regs[k].enabled && def != "" && regs[k].name == def then Some(regs[k]) else DefaultOf(regs[..k], def)
  }

  // ---- what the tables hold, entry by entry ----

  /** The registry is enabled and lists the host, up to case and surrounding space. */
  predicate Lists(r: Registry, host: string) {
    r.enabled && exists k :: 0 <= k < |r.hosts| && ToLower(TrimSpace(r.hosts[k])) == host
  }

  lemma {:induction false} HostInMeans(hosts: seq<string>, host: string)
    ensures HostIn(hosts, host) <==> exists k :: 0 <= k < |hosts| && ToLower(TrimSpace(hosts[k])) == host
  {
    if hosts != [] {
      var n := |hosts| - 1;
      HostInMeans(hosts[..n], host);
      if HostIn(hosts[..n], host) {
        var k :| 0 <= k < n && ToLower(TrimSpace(hosts[..n][k])) == host;
        assert hosts[k] == hosts[..n][k];
      }
      if k :| 0 <= k < |hosts| && ToLower(TrimSpace(hosts[k])) == host {
        assert k < n ==> hosts[..n][k] == hosts[k];
      }
    }
  }

  predicate IsLastLister(regs: seq<Registry>, i: nat, host: string) {
    i < |regs| && Lists(regs[i], host) && forall k :: i < k < |regs| ==> !Lists(regs[k], host)
  }

  lemma {:induction false} LastListerFound(regs: seq<Registry>, host: string) returns (i: nat)
    requires LastLister(regs, host).Some?
    ensures IsLastLister(regs, i, host) && regs[i] == LastLister(regs, host).value
  {
    var n := |regs| - 1;
    HostInMeans(regs[n].hosts, host);
    if Lists(regs[n], host) {
      i := n;
    } else {
      i := LastListerFound(regs[..n], host);
      StillLast(regs, regs[..n], i, host);
    }
  }

  lemma {:induction false} StillLast(regs: seq<Registry>, front: seq<Registry>, i: nat, host: string)
    requires regs != [] && front == regs[..|regs| - 1] && !Lists(regs[|regs| - 1], host) && IsLastLister(front, i, host)
    ensures IsLastLister(regs, i, host) && regs[i] == front[i]
  {
    forall k | i < k < |regs| ensures !Lists(regs[k], host) {
      if k < |front| {
        assert front[k] == regs[k];
      }
    }
  }

  lemma {:induction false} NobodyLists(regs: seq<Registry>, host: string, i: nat)
    requires LastLister(regs, host).None? && i < |regs|
    ensures !Lists(regs[i], host)
  {
    var n := |regs| - 1;
    HostInMeans(regs[n].hosts, host);
    if i < n {
      NobodyLists(regs[..n], host, i);
    }
  }

  /** The host index leads to the last enabled registry that lists the host, and nowhere if there is none. */
  lemma HostIndexMeans(regs: seq<Registry>, host: string, r: Registry)
    ensures Lookup(HostIndex(regs), host) == Some(r) <==> exists i: nat :: IsLastLister(regs, i, host) && regs[i] == r
  {
    LastHostWins(regs, host);
    if LastLister(regs, host).Some? {
      var last := LastListerFound(regs, host);
      forall i: nat | IsLastLister(regs, i, host) ensures i == last {
      }
    } else {
      forall i: nat | i < |regs| ensures !Lists(regs[i], host) {
        NobodyLists(regs, host, i);
      }
    }
  }

  /** With distinct names, the default is the enabled registry that the configuration names. */
  lemma {:induction false} DefaultMeans(regs: seq<Registry>, name: string, r: Registry)
    requires forall i, k :: 0 <= i < k < |regs| ==> regs[i].name != regs[k].name
    ensures DefaultOf(regs, name) == Some(r) <==> r in regs && r.enabled && name != "" && r.name == name
  {
    if regs != [] {
      var n := |regs| - 1;
      DefaultMeans(regs[..n], name, r);
      assert regs == regs[..n] + [regs[n]];
    }
  }

  lemma {:induction false} RoutesForMeans(r: Registry, ns: seq<string>, p: string)
    ensures PathRoute(p, r) in RoutesFor(r, ns) <==> p in ns && p != ""
  {
    if ns != [] {
      RoutesForMeans(r, ns[..|ns| - 1], p);
      assert ns == ns[..|ns| - 1] + [ns[|ns| - 1]];
    }
  }

  /** The table has a route for exactly the non-empty normalized prefixes of the enabled registries. */
  lemma {:induction false} CollectMeans(regs: seq<Registry>, p: string, r: Registry)
    ensures PathRoute(p, r) in Collect(regs) <==>
      r in regs && r.enabled && p != "" && exists k :: 0 <= k < |r.prefixes| && Normalize(r.prefixes[k]) == p
  {
    if regs != [] {
      var n := |regs| - 1;
      CollectMeans(regs[..n], p, r);
      RoutesOfMeans(regs[n], p, r);
      assert regs == regs[..n] + [regs[n]];
    }
  }

  lemma {:induction false} RoutesOfMeans(own: Registry, p: string, r: Registry)
    ensures PathRoute(p, r) in RoutesOf(own) <==>
      r == own && r.enabled && p != "" && exists k :: 0 <= k < |r.prefixes| && Normalize(r.prefixes[k]) == p
  {
    RoutesForMembers(own, NormalizeAll(own.prefixes));
    RoutesForMeans(own, NormalizeAll(own.prefixes), p);
    NormalizedMember(own.prefixes, p);
  }

  lemma NormalizedMember(ps: seq<string>, p: string)
    ensures p in NormalizeAll(ps) <==> exists k :: 0 <= k < |ps| && Normalize(ps[k]) == p
  {
    MapLength(Normalize, ps);
    if p in NormalizeAll(ps) {
      var k :| 0 <= k < |NormalizeAll(ps)| && NormalizeAll(ps)[k] == p;
      MapAt(Normalize, ps, k);
    }
    if k :| 0 <= k < |ps| && Normalize(ps[k]) == p {
      MapAt(Normalize, ps, k);
    }
  }

  predicate LongestFirst(rs: seq<PathRoute>) {
    forall i, j {:trigger AtLeast(rs[i], rs[j])} :: 0 <= i < j < |rs| ==> AtLeast(rs[i], rs[j])
  }

  predicate AtLeast(q: PathRoute, r: PathRoute) {
    |q.prefix| >= |r.prefix|
  }

  method Swap(a: array<PathRoute>, i: nat, j: nat)
    requires i < j < a.Length
    modifies a
    ensures a[i] == old(a[j]) && a[j] == old(a[i])
    ensures forall k :: 0 <= k < a.Length && k != i && k != j ==> a[k] == old(a[k])
    ensures multiset(a[..]) == multiset(old(a[..]))
  {
    ghost var before := a[..];
    a[i], a[j] := a[j], a[i];
    assert a[..] == before[i := before[j]][j := before[i]];
  }

  /** The exchange sort of buildRoutes, in place. */
  method ExchangeSort(a: array<PathRoute>)
    modifies a
    ensures LongestFirst(a[..]) && multiset(a[..]) == multiset(old(a[..]))
  {
    for i := 0 to a.Length
      invariant multiset(a[..]) == multiset(old(a[..]))
      invariant forall x, y {:trigger AtLeast(a[x], a[y])} :: 0 <= x < i && x < y < a.Length ==> AtLeast(a[x], a[y])
    {
      for j := i + 1 to a.Length
        invariant multiset(a[..]) == multiset(old(a[..]))
        invariant forall x, y {:trigger AtLeast(a[x], a[y])} :: 0 <= x < i && x < y < a.Length ==> AtLeast(a[x], a[y])
        invariant forall y :: i < y < j ==> |a[i].prefix| >= |a[y].prefix|
      {
        if |a[j].prefix| > |a[i].prefix| {
          Swap(a, i, j);
        }
      }
    }
  }

  lemma RoutesForNext(r: Registry, ns: seq<string>, n: string)
    ensures RoutesFor(r, ns + [n]) == RoutesFor(r, ns) + (if n == "" then [] else [PathRoute(n, r)])
  {
    assert (ns + [n])[..|ns|] == ns;
  }

  /** The two inner loops of buildRoutes, for one enabled registry. */
  method AddRegistry(r: Registry, idx0: map<string, Registry>, paths0: seq<PathRoute>)
    returns (idx: map<string, Registry>, paths: seq<PathRoute>)
    requires r.enabled
    ensures idx == AddHosts(idx0, r, r.hosts) && paths == paths0 + RoutesOf(r)
  {
    idx, paths := idx0, paths0;
    for j := 0 to |r.hosts|
      invariant idx == AddHosts(idx0, r, r.hosts[..j])
    {
      assert r.hosts[..j + 1][..j] == r.hosts[..j];
      idx := idx[ToLower(TrimSpace(r.hosts[j])) := r];
    }
    assert r.hosts[..|r.hosts|] == r.hosts;
    for j := 0 to |r.prefixes|
      invariant paths == paths0 + RoutesFor(r, NormalizeAll(r.prefixes[..j]))
    {
      NormalizeNext([], r.prefixes, j);
      RoutesForNext(r, NormalizeAll(r.prefixes[..j]), Normalize(r.prefixes[j]));
      var pref := ToLower(TrimSpace(r.prefixes[j]));
      pref := Trim(pref, IsSlash);
      if pref == "" {
        continue;
      }
      paths := paths + [PathRoute(pref, r)];
    }
    assert r.prefixes[..|r.prefixes|] == r.prefixes;
  }

  method BuildRoutes(regs: seq<Registry>, def: string)
    returns (idx: map<string, Registry>, paths: seq<PathRoute>, defReg: Option<Registry>)
    ensures idx == HostIndex(regs) && defReg == DefaultOf(regs, def)
    ensures IsTable(paths, regs)
  {
    idx, paths, defReg := map[], [], None;
    for i := 0 to |regs|
      invariant idx == HostIndex(regs[..i]) && paths == Collect(regs[..i]) && defReg == DefaultOf(regs[..i], def)
    {
      var r := regs[i];
      assert regs[..i + 1][..i] == regs[..i];
      if !r.enabled {
        continue;
      }
      idx, paths := AddRegistry(r, idx, paths);
      if def != "" && r.name == def {
        defReg := Some(r);
      }
    }
    assert regs[..|regs|] == regs;
    var a := new PathRoute[|paths|](i requires 0 <= i < |paths| => paths[i]);
    assert a[..] == paths;
    ExchangeSort(a);
    paths := a[..];
  }

  // ---- first match == longest match ----

  function FirstMatch(rs: seq<PathRoute>, repo: string): Option<PathRoute> {
    if rs == [] then None
    else if Matches(rs[0].prefix, repo) then Some(rs[0])
    else FirstMatch(rs[1..], repo)
  }

  method FindRoute(rs: seq<PathRoute>, repo: string) returns (hit: Option<PathRoute>)
    ensures hit == FirstMatch(rs, repo)
  {
    assert rs[0..] == rs;
    for i := 0 to |rs|
      invariant FirstMatch(rs, repo) == FirstMatch(rs[i..], repo)
    {
      var pr := rs[i];
      assert rs[i..][1..] == rs[i + 1..];
      if repo == pr.prefix || HasPrefix(repo, pr.prefix + "/") {
        return Some(pr);
      }
    }
    hit := None;
  }

  /** r is a configured route whose prefix is a path-segment prefix of repo, and none is longer. */
  ghost predicate IsLongestMatch(rs: multiset<PathRoute>, repo: string, r: PathRoute) {
    r in rs && Matches(r.prefix, repo) && forall q :: q in rs && Matches(q.prefix, repo) ==> |q.prefix| <= |r.prefix|
  }

  lemma {:induction false} FirstIsLongest(rs: seq<PathRoute>, repo: string)
    requires LongestFirst(rs)
    ensures FirstMatch(rs, repo).None? ==> forall q :: q in rs ==> !Matches(q.prefix, repo)
    ensures FirstMatch(rs, repo).Some? ==> IsLongestMatch(multiset(rs), repo, FirstMatch(rs, repo).value)
  {
    if rs != [] {
      assert rs == [rs[0]] + rs[1..];
      if Matches(rs[0].prefix, repo) {
        forall q | q in multiset(rs) ensures |q.prefix| <= |rs[0].prefix| {
          assert q in rs;
          var k :| 0 <= k < |rs| && rs[k] == q;
          assert k > 0 ==> AtLeast(rs[0], rs[k]);
        }
      } else {
        FirstIsLongest(rs[1..], repo);
      }
    }
  }

  /** Two prefixes of the same length that match one repository are the same prefix. */
  lemma SameLengthSamePrefix(p: string, q: string, repo: string)
    requires Matches(p, repo) && Matches(q, repo) && |p| == |q|
    ensures p == q
  {
    assert repo[..|p|] == p by { if repo != p { assert repo[..|p| + 1] == p + "/"; assert repo[..|p| + 1][..|p|] == p; } }
    assert repo[..|q|] == q by { if repo != q { assert repo[..|q| + 1] == q + "/"; assert repo[..|q| + 1][..|q|] == q; } }
  }

  ghost predicate PrefixesDistinct(rs: multiset<PathRoute>) {
    forall q, r :: q in rs && r in rs && q.prefix == r.prefix ==> q == r
  }

  /**
   * Routing refines longest-prefix choice: on any length-descending table the first match is the longest
   * path-segment prefix; with distinct prefixes it is the only one.
   */
  lemma FirstMatchIsLongestPrefix(rs: seq<PathRoute>, repo: string)
    requires LongestFirst(rs) && PrefixesDistinct(multiset(rs))
    ensures FirstMatch(rs, repo).None? <==> forall q :: q in multiset(rs) ==> !Matches(q.prefix, repo)
    ensures forall r :: FirstMatch(rs, repo) == Some(r) <==> IsLongestMatch(multiset(rs), repo, r)
  {
    FirstIsLongest(rs, repo);
    if FirstMatch(rs, repo).Some? {
      var f := FirstMatch(rs, repo).value;
      forall r | IsLongestMatch(multiset(rs), repo, r) ensures r == f {
        SameLengthSamePrefix(r.prefix, f.prefix, repo);
      }
    } else {
      forall q | q in multiset(rs) ensures !Matches(q.prefix, repo) { assert q in rs; }
    }
  }

  lemma SortOrderIrrelevant(rs: seq<PathRoute>, rs': seq<PathRoute>, repo: string)
    requires LongestFirst(rs) && LongestFirst(rs') && multiset(rs) == multiset(rs') && PrefixesDistinct(multiset(rs))
    ensures FirstMatch(rs, repo) == FirstMatch(rs', repo)
  {
    FirstMatchIsLongestPrefix(rs, repo);
    FirstMatchIsLongestPrefix(rs', repo);
    if FirstMatch(rs', repo).Some? {
      assert FirstMatch(rs, repo) == Some(FirstMatch(rs', repo).value);
    }
  }

  lemma CollectSnoc(x: seq<Registry>, r: Registry)
    ensures Collect(x + [r]) == Collect(x) + RoutesOf(r)
  {
    assert (x + [r])[..|x|] == x;
  }

  lemma {:induction false} CollectJoins(x: seq<Registry>, y: seq<Registry>, z: seq<Registry>)
    requires z == x + y
    ensures Collect(z) == Collect(x) + Collect(y)
    decreases |y|
  {
    if y == [] {
      assert z == x;
    } else {
      var y0, z0 := y[..|y| - 1], z[..|z| - 1];
      CollectJoins(x, y0, z0);
      Assoc(Collect(x), Collect(y0), RoutesOf(y[|y| - 1]));
    }
  }

  /** Taking one registry out of the middle takes out its routes. */
  lemma CollectWithout(x: seq<Registry>, r: Registry, y: seq<Registry>)
    ensures multiset(Collect(x + [r] + y)) == multiset(Collect(x + y)) + multiset(RoutesOf(r))
  {
    CollectSnoc(x, r);
    CollectJoins(x + [r], y, x + [r] + y);
    CollectJoins(x, y, x + y);
  }

  lemma CancelOne<T>(a: multiset<T>, b: multiset<T>, x: T)
    requires a + multiset([x]) == b + multiset([x])
    ensures a == b
  {
    assert a == (a + multiset([x])) - multiset([x]);
    assert b == (b + multiset([x])) - multiset([x]);
  }

  /** The routes of a config depend on the order of its registries only by order. */
  lemma {:induction false} CollectPermutes(regs: seq<Registry>, regs': seq<Registry>)
    requires multiset(regs) == multiset(regs')
    ensures multiset(Collect(regs)) == multiset(Collect(regs'))
    decreases |regs|
  {
    if regs == [] {
      assert |regs'| == |multiset(regs')| == 0;
    } else {
      var front, r := regs[..|regs| - 1], regs[|regs| - 1];
      assert regs == front + [r];
      assert r in multiset(regs');
      var i :| 0 <= i < |regs'| && regs'[i] == r;
      var x, y := regs'[..i], regs'[i + 1..];
      assert regs' == x + [r] + y;
      assert multiset(front + [r]) == multiset(front) + multiset([r]);
      assert multiset(x + [r] + y) == multiset(x) + multiset([r]) + multiset(y);
      assert multiset(x + y) == multiset(x) + multiset(y);
      CancelOne(multiset(front), multiset(x + y), r);
      CollectPermutes(front, x + y);
      CollectWithout(x, r, y);
      CollectSnoc(front, r);
    }
  }

  // ---- what Validate guarantees about the table ----

  /** No normalized prefix keeps a space at its ends; true of every prefix without white space. */
  predicate SpaceFree(regs: seq<Registry>) {
    forall i, j :: 0 <= i < |regs| && 0 <= j < |regs[i].prefixes| ==> Trimmed(Normalize(regs[i].prefixes[j]), IsSpace)
  }

  /** Prefixes that buildRoutes stores unchanged. */
  predicate Stable(regs: seq<Registry>) {
    forall i, j :: 0 <= i < |regs| && 0 <= j < |regs[i].prefixes| ==>
      Normalize(regs[i].prefixes[j]) == regs[i].prefixes[j] != ""
  }

  lemma {:induction false} PrefixMember(regs: seq<Registry>, i: nat, j: nat)
    requires i < |regs| && j < |regs[i].prefixes|
    ensures Normalize(regs[i].prefixes[j]) in AllPrefixes(regs)
    decreases |regs|
  {
    var k := |regs| - 1;
    if i == k {
      MapAt(Normalize, regs[k].prefixes, j);
      assert NormalizeAll(regs[k].prefixes)[j] in NormalizeAll(regs[k].prefixes);
    } else {
      PrefixMember(regs[..k], i, j);
    }
  }

  lemma NormalizeAllTwice(ps: seq<string>)
    requires forall j :: 0 <= j < |ps| ==> Trimmed(Normalize(ps[j]), IsSpace)
    ensures NormalizeAll(NormalizeAll(ps)) == NormalizeAll(ps)
  {
    MapLength(Normalize, ps);
    forall j | 0 <= j < |ps| ensures Normalize(NormalizeAll(ps)[j]) == NormalizeAll(ps)[j] {
      MapAt(Normalize, ps, j);
      NormalizeTwice(ps[j]);
    }
    MapSame(Normalize, NormalizeAll(ps));
  }

  lemma {:induction false} SamePrefixesTwice(regs: seq<Registry>)
    requires SpaceFree(regs)
    ensures AllPrefixes(NormalizedAll(regs)) == AllPrefixes(regs)
  {
    if regs != [] {
      var k := |regs| - 1;
      SamePrefixesTwice(regs[..k]);
      NormalizeAllTwice(regs[k].prefixes);
      assert NormalizedAll(regs)[..|NormalizedAll(regs)| - 1] == NormalizedAll(regs[..k]);
    }
  }

  lemma {:induction false} NormalizedAllAt(regs: seq<Registry>, i: nat)
    requires i < |regs|
    ensures |NormalizedAll(regs)| == |regs| && NormalizedAll(regs)[i] == NormalizeRegistry(regs[i])
  {
    MapAt(NormalizeRegistry, regs, i);
  }

  /**
   * What Validate accepted is stored unchanged by buildRoutes if and only if no prefix keeps a space at its ends;
   * the stored prefixes are then still distinct.
   */
  lemma ValidatedIsStable(regs: seq<Registry>)
    requires ValidConfig(regs)
    ensures Stable(NormalizedAll(regs)) <==> SpaceFree(regs)
    ensures SpaceFree(regs) ==> Distinct(AllPrefixes(NormalizedAll(regs)))
  {
    FreshSpec(AllPrefixes(regs));
    if SpaceFree(regs) {
      SamePrefixesTwice(regs);
      StableOnceNormalized(regs);
    }
    if Stable(NormalizedAll(regs)) {
      MapLength(NormalizeRegistry, regs);
      forall i, j | 0 <= i < |regs| && 0 <= j < |regs[i].prefixes| ensures Trimmed(Normalize(regs[i].prefixes[j]), IsSpace) {
        NormalizedAllAt(regs, i);
        MapAt(Normalize, regs[i].prefixes, j);
        StoredTwice(NormalizedAll(regs), i, j);
        NormalizeTwice(regs[i].prefixes[j]);
      }
    }
  }

  lemma StoredTwice(regs: seq<Registry>, i: nat, j: nat)
    requires Stable(regs) && i < |regs| && j < |regs[i].prefixes|
    ensures Normalize(regs[i].prefixes[j]) == regs[i].prefixes[j]
  {
  }

  lemma StableOnceNormalized(regs: seq<Registry>)
    requires SpaceFree(regs) && "" !in AllPrefixes(regs)
    ensures Stable(NormalizedAll(regs))
  {
    var n := NormalizedAll(regs);
    MapLength(NormalizeRegistry, regs);
    forall i, j | 0 <= i < |n| && 0 <= j < |n[i].prefixes|
      ensures Normalize(n[i].prefixes[j]) == n[i].prefixes[j] != ""
    {
      NormalizedAllAt(regs, i);
      StableEntry(regs, i, j);
    }
  }

  lemma StableEntry(regs: seq<Registry>, i: nat, j: nat)
    requires SpaceFree(regs) && "" !in AllPrefixes(regs) && i < |regs| && j < |NormalizeAll(regs[i].prefixes)|
    ensures var p := NormalizeAll(regs[i].prefixes)[j]; Normalize(p) == p != ""
  {
    MapLength(Normalize, regs[i].prefixes);
    MapAt(Normalize, regs[i].prefixes, j);
    NormalizeTwice(regs[i].prefixes[j]);
    PrefixMember(regs, i, j);
  }

  function PrefixesOf(rs: seq<PathRoute>): seq<string> {
    if rs == [] then [] else PrefixesOf(rs[..|rs| - 1]) + [rs[|rs| - 1].prefix]
  }

  lemma {:induction false} PrefixesOfAt(rs: seq<PathRoute>)
    ensures |PrefixesOf(rs)| == |rs|
    ensures forall i :: 0 <= i < |rs| ==> PrefixesOf(rs)[i] == rs[i].prefix
  {
    if rs != [] {
      PrefixesOfAt(rs[..|rs| - 1]);
    }
  }

  lemma PrefixesOfSnoc(rs: seq<PathRoute>, r: PathRoute)
    ensures PrefixesOf(rs + [r]) == PrefixesOf(rs) + [r.prefix]
  {
    assert (rs + [r])[..|rs|] == rs;
  }

  lemma {:induction false} PrefixesOfJoins(rs: seq<PathRoute>, ss: seq<PathRoute>, whole: seq<PathRoute>)
    requires whole == rs + ss
    ensures PrefixesOf(whole) == PrefixesOf(rs) + PrefixesOf(ss)
    decreases |ss|
  {
    if ss == [] {
      assert whole == rs;
    } else {
      var k := |ss| - 1;
      PrefixesOfJoins(rs, ss[..k], whole[..|whole| - 1]);
      Assoc(PrefixesOf(rs), PrefixesOf(ss[..k]), [ss[k].prefix]);
    }
  }

  predicate AllStored(ps: seq<string>) {
    forall j {:trigger Normalize(ps[j])} :: 0 <= j < |ps| ==> Normalize(ps[j]) == ps[j] != ""
  }

  lemma {:induction false} PrefixesOfRoutes(r: Registry, ns: seq<string>)
    requires "" !in ns
    ensures PrefixesOf(RoutesFor(r, ns)) == ns
  {
    if ns != [] {
      var front, n := ns[..|ns| - 1], ns[|ns| - 1];
      PrefixesOfRoutes(r, front);
      PrefixesOfSnoc(RoutesFor(r, front), PathRoute(n, r));
      assert ns == front + [n];
    }
  }

  lemma {:induction false} RoutesWithinPrefixes(regs: seq<Registry>)
    requires Stable(regs)
    ensures Sub(PrefixesOf(Collect(regs)), AllPrefixes(regs))
  {
    if regs != [] {
      var front, r := regs[..|regs| - 1], regs[|regs| - 1];
      assert Stable(front);
      RoutesWithinPrefixes(front);
      assert AllStored(r.prefixes);
      MapSame(Normalize, r.prefixes);
      PrefixesOfRoutes(r, r.prefixes);
      PrefixesOfJoins(Collect(front), RoutesOf(r), Collect(regs));
      SubSelf(NormalizeAll(r.prefixes));
      assert Sub(PrefixesOf(RoutesOf(r)), NormalizeAll(r.prefixes));
      SubConcat(PrefixesOf(Collect(front)), AllPrefixes(front), PrefixesOf(RoutesOf(r)), NormalizeAll(r.prefixes));
    }
  }

  lemma RoutePrefixesDistinct(regs: seq<Registry>)
    requires Stable(regs) && Distinct(AllPrefixes(regs))
    ensures PrefixesDistinct(multiset(Collect(regs)))
  {
    var rs := Collect(regs);
    RoutesWithinPrefixes(regs);
    SubDistinct(PrefixesOf(rs), AllPrefixes(regs));
    PrefixesOfAt(rs);
    forall q: PathRoute, r: PathRoute | q in multiset(rs) && r in multiset(rs) && q.prefix == r.prefix ensures q == r {
      assert q in rs && r in rs;
      var i :| 0 <= i < |rs| && rs[i] == q;
      var j :| 0 <= j < |rs| && rs[j] == r;
      assert PrefixesOf(rs)[i] == PrefixesOf(rs)[j];
      assert i == j;
    }
  }

  /** A table buildRoutes can produce from these registries. */
  ghost predicate IsTable(rs: seq<PathRoute>, regs: seq<Registry>) {
    LongestFirst(rs) && multiset(rs) == multiset(Collect(regs))
  }

  /**
   * Longest-prefix routing over a whole configuration: for a stable config with distinct prefixes, any table
   * that buildRoutes can produce sends a repository to the one route whose prefix is its longest configured
   * path-segment prefix.
   */
  lemma {:induction false} RoutingIsLongestPrefix(regs: seq<Registry>, rs: seq<PathRoute>, repo: string)
    requires Stable(regs) && Distinct(AllPrefixes(regs)) && IsTable(rs, regs)
    ensures forall r :: FirstMatch(rs, repo) == Some(r) <==> IsLongestMatch(multiset(Collect(regs)), repo, r)
  {
    RoutePrefixesDistinct(regs);
    FirstMatchIsLongestPrefix(rs, repo);
  }

  /** The winner does not depend on the order of the registries in the configuration. */
  lemma {:induction false} RegistryOrderIrrelevant(
    regs: seq<Registry>, regs': seq<Registry>, rs: seq<PathRoute>, rs': seq<PathRoute>, repo: string)
    requires Stable(regs) && Distinct(AllPrefixes(regs)) && multiset(regs) == multiset(regs')
    requires IsTable(rs, regs) && IsTable(rs', regs')
    ensures FirstMatch(rs, repo) == FirstMatch(rs', repo)
  {
    CollectPermutes(regs, regs');
    RoutePrefixesDistinct(regs);
    SortOrderIrrelevant(rs, rs', repo);
  }

  /**
   * The two together, from configuration to route: what Validate accepts without padded prefixes routes every
   * repository to its longest configured prefix, and reordering the registries changes no winner.
   */
  lemma {:induction false} ValidatedRouting(
    regs: seq<Registry>, rs: seq<PathRoute>, regs': seq<Registry>, rs': seq<PathRoute>, repo: string)
    requires ValidConfig(regs) && SpaceFree(regs) && IsTable(rs, NormalizedAll(regs))
    requires multiset(regs') == multiset(NormalizedAll(regs)) && IsTable(rs', regs')
    ensures forall r :: FirstMatch(rs, repo) == Some(r) <==> IsLongestMatch(multiset(Collect(NormalizedAll(regs))), repo, r)
    ensures FirstMatch(rs, repo) == FirstMatch(rs', repo)
  {
    ValidatedIsStable(regs);
    RoutingIsLongestPrefix(NormalizedAll(regs), rs, repo);
    RegistryOrderIrrelevant(NormalizedAll(regs), regs', rs, rs', repo);
  }

  lemma {:induction false} RoutesForMembers(r: Registry, ns: seq<string>)
    ensures forall q :: q in RoutesFor(r, ns) ==> q.prefix in ns && q.prefix != "" && q.reg == r
  {
    if ns != [] {
      RoutesForMembers(r, ns[..|ns| - 1]);
      assert ns == ns[..|ns| - 1] + [ns[|ns| - 1]];
    }
  }

  lemma RoutesOfStored(r: Registry)
    ensures forall q :: q in RoutesOf(r) ==> Stored(q.prefix) && q.reg == r && r.enabled
  {
    var ns := NormalizeAll(r.prefixes);
    RoutesForMembers(r, ns);
    MapLength(Normalize, r.prefixes);
    forall i | 0 <= i < |ns| ensures IsLower(ns[i]) && Trimmed(ns[i], IsSlash) {
      MapAt(Normalize, r.prefixes, i);
      NormalizeSpec(r.prefixes[i]);
    }
  }

  /** Every prefix in the table is in the form stripRepoPathPrefix expects, and its registry is configured. */
  lemma {:induction false} RoutesStored(regs: seq<Registry>)
    ensures forall q :: q in Collect(regs) ==> Stored(q.prefix) && q.reg in regs && q.reg.enabled
  {
    if regs != [] {
      var k := |regs| - 1;
      RoutesStored(regs[..k]);
      RoutesOfStored(regs[k]);
      assert regs == regs[..k] + [regs[k]];
    }
  }
}
