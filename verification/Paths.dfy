/**
 * Registry V2 paths in internal/proxy/proxy.go: the four regular expressions, classifyPath, extractRepo and
 * stripRepoPathPrefix (OCI Distribution Specification v1.1, section "Endpoints").
 */
module Paths {
  import opened Common

  datatype Kind = Manifest | Blob | Tags | Referrers

  const HEAD := "/v2/"

  /** The fixed segment of each pattern. */
  function Word(k: Kind): string {
    match k
    case Manifest => "manifests"
    case Blob => "blobs"
    case Tags => "tags"
    case Referrers => "referrers"
  }

  /** What follows the capture group (.+): "/word/" and a captured last segment, or exactly "/tags/list". */
  function Separator(k: Kind): string {
    "/" + Word(k) + "/"
  }

  predicate TailMatches(k: Kind, tail: string) {
    if k == Tags then tail == "/tags/list"
    else
      HasPrefix(tail, Separator(k)) && |tail| > |Separator(k)| && '/' !in tail[|Separator(k)|..]
  }

  function TailReference(k: Kind, tail: string): string
    requires TailMatches(k, tail)
  {
    if k == Tags then "" else tail[|Separator(k)|..]
  }

  /**
   * `(.+)` is greedy and `.` does not match a newline: backtracking tries the longest repository first.
   * `rest` is the path after "/v2/".
   */
  function Search(k: Kind, rest: string, n: nat): Option<(string, string)>
    requires n <= |rest|
  {
    if n == 0 then None
    else if '\n' !in rest[..n] && TailMatches(k, rest[n..]) then Some((rest[..n], TailReference(k, rest[n..])))
    else Search(k, rest, n - 1)
  }

  /** FindStringSubmatch of one pattern: the captured repository and reference. */
  function Find(k: Kind, path: string): Option<(string, string)> {
    if HasPrefix(path, HEAD) then Search(k, path[|HEAD|..], |path| - |HEAD|) else None
  }

  datatype Parsed = Parsed(kind: Kind, repo: string, reference: string)

  function ClassifyPath(path: string): Option<Parsed> {
    var m := Find(Manifest, path);
    if m.Some? then Some(Parsed(Manifest, m.value.0, m.value.1)) else
    var b := Find(Blob, path);
    if b.Some? then Some(Parsed(Blob, b.value.0, b.value.1)) else
    var t := Find(Tags, path);
    if t.Some? then Some(Parsed(Tags, t.value.0, "")) else
    var r := Find(Referrers, path);
    if r.Some? then Some(Parsed(Referrers, r.value.0, r.value.1)) else None
  }

  /** The loop of extractRepo, over any order of the patterns. */
  function ExtractRepo(path: string, order: seq<Kind>): string {
    if order == [] then ""
    else if Find(order[0], path).Some? then Find(order[0], path).value.0
    else ExtractRepo(path, order[1..])
  }

  const ORDER := [Manifest, Blob, Tags, Referrers]

  function Print(p: Parsed): string {
    HEAD + p.repo + "/" + Word(p.kind) + "/" + (if p.kind == Tags then "list" else p.reference)
  }

  predicate Wellformed(p: Parsed) {
    && p.repo != "" && '\n' !in p.repo
    && (if p.kind == Tags then p.reference == "" else p.reference != "" && '/' !in p.reference)
  }

  // ---- the last slash ----

  lemma LastSlashAt(a: string, x: string)
    requires '/' !in x
    ensures var s := a + "/" + x; s[|a|] == '/' && forall i :: |a| < i < |s| ==> s[i] != '/'
  {
    var s := a + "/" + x;
    forall i | |a| < i < |s| ensures s[i] != '/' {
      assert s[i] == x[i - |a| - 1] && x[i - |a| - 1] in x;
    }
  }

  lemma SplitAtLastSlash(a: string, x: string, b: string, y: string)
    requires a + "/" + x == b + "/" + y && '/' !in x && '/' !in y
    ensures a == b && x == y
  {
    var s := a + "/" + x;
    LastSlashAt(a, x);
    LastSlashAt(b, y);
    assert |a| == |b|;
    assert s[..|a|] == a && s[..|b|] == b && s[|a| + 1..] == x && s[|b| + 1..] == y;
  }

  function Last(p: Parsed): string {
    if p.kind == Tags then "list" else p.reference
  }

  lemma WordsHaveNoSlash(k: Kind)
    ensures '/' !in Word(k) && Word(k) != ""
    ensures forall j :: Word(k) == Word(j) ==> k == j
  {
    assert forall j :: Word(j)[0] == 'm' || Word(j)[0] == 'b' || Word(j)[0] == 't' || Word(j)[0] == 'r';
  }

  /** The four patterns are unambiguous and mutually exclusive: a path has at most one reading. */
  lemma PrintInjective(p: Parsed, q: Parsed)
    requires Wellformed(p) && Wellformed(q) && Print(p) == Print(q)
    ensures p == q
  {
    WordsHaveNoSlash(p.kind);
    WordsHaveNoSlash(q.kind);
    assert Print(p) == (HEAD + p.repo + "/" + Word(p.kind)) + "/" + Last(p);
    assert Print(q) == (HEAD + q.repo + "/" + Word(q.kind)) + "/" + Last(q);
    SplitAtLastSlash(HEAD + p.repo + "/" + Word(p.kind), Last(p), HEAD + q.repo + "/" + Word(q.kind), Last(q));
    SplitAtLastSlash(HEAD + p.repo, Word(p.kind), HEAD + q.repo, Word(q.kind));
    assert (HEAD + p.repo)[|HEAD|..] == p.repo && (HEAD + q.repo)[|HEAD|..] == q.repo;
  }

  // ---- the search finds a reading exactly when there is one ----

  lemma {:induction false} SearchSound(k: Kind, rest: string, n: nat)
    requires n <= |rest| && Search(k, rest, n).Some?
    ensures var (repo, ref) := Search(k, rest, n).value;
      Wellformed(Parsed(k, repo, ref)) && HEAD + rest == Print(Parsed(k, repo, ref))
  {
    if '\n' !in rest[..n] && TailMatches(k, rest[n..]) {
      ReadingPrints(k, rest[..n], rest[n..]);
      assert rest == rest[..n] + rest[n..];
      Assoc(HEAD, rest[..n], rest[n..]);
    } else {
      SearchSound(k, rest, n - 1);
    }
  }

  lemma ReadingPrints(k: Kind, repo: string, tail: string)
    requires repo != "" && '\n' !in repo && TailMatches(k, tail)
    ensures var p := Parsed(k, repo, TailReference(k, tail)); Wellformed(p) && Print(p) == HEAD + repo + tail
  {
    if k != Tags {
      assert tail == Separator(k) + tail[|Separator(k)|..];
    }
  }

  lemma {:induction false} SearchComplete(k: Kind, rest: string, n: nat, i: nat)
    requires 0 < i <= n <= |rest| && '\n' !in rest[..i] && TailMatches(k, rest[i..])
    ensures Search(k, rest, n).Some?
  {
    if i < n {
      SearchComplete(k, rest, n - 1, i);
    }
  }

  lemma PrintedTail(p: Parsed)
    requires Wellformed(p)
    ensures var rest := Print(p)[|HEAD|..];
      HasPrefix(Print(p), HEAD) && |p.repo| <= |rest| && rest[..|p.repo|] == p.repo && TailMatches(p.kind, rest[|p.repo|..])
  {
    var rest := Print(p)[|HEAD|..];
    var tail := Separator(p.kind) + Last(p);
    assert rest == p.repo + tail;
    if p.kind == Tags {
      assert tail == "/tags/list";
    } else {
      assert tail[|Separator(p.kind)|..] == p.reference;
    }
  }

  /** One pattern matches exactly the printed forms of its kind, and captures what was printed. */
  lemma FindIsExact(k: Kind, path: string)
    ensures Find(k, path).Some? ==>
      var (repo, ref) := Find(k, path).value; Wellformed(Parsed(k, repo, ref)) && Print(Parsed(k, repo, ref)) == path
    ensures forall p :: Wellformed(p) && p.kind == k && Print(p) == path ==> Find(k, path) == Some((p.repo, p.reference))
  {
    FindIsSound(k, path);
    forall p | Wellformed(p) && p.kind == k && Print(p) == path ensures Find(k, path) == Some((p.repo, p.reference)) {
      FindIsComplete(p);
      PrintInjective(p, Parsed(k, Find(k, path).value.0, Find(k, path).value.1));
    }
  }

  lemma FindIsSound(k: Kind, path: string)
    ensures Find(k, path).Some? ==>
      var p := Parsed(k, Find(k, path).value.0, Find(k, path).value.1); Wellformed(p) && Print(p) == path
  {
    if HasPrefix(path, HEAD) && Search(k, path[|HEAD|..], |path| - |HEAD|).Some? {
      SearchSound(k, path[|HEAD|..], |path| - |HEAD|);
      assert HEAD + path[|HEAD|..] == path;
    }
  }

  lemma FindSearches(k: Kind, path: string, rest: string, i: nat)
    requires HasPrefix(path, HEAD) && rest == path[|HEAD|..]
    requires 0 < i <= |rest| && '\n' !in rest[..i] && TailMatches(k, rest[i..])
    ensures Find(k, path).Some?
  {
    SearchComplete(k, rest, |rest|, i);
  }

  lemma FindIsComplete(p: Parsed)
    requires Wellformed(p)
    ensures Find(p.kind, Print(p)).Some?
  {
    PrintedTail(p);
    FindSearches(p.kind, Print(p), Print(p)[|HEAD|..], |p.repo|);
  }

  /** classifyPath is the inverse of printing, in both directions. */
  lemma ClassifyIsExact(path: string, p: Parsed)
    ensures ClassifyPath(path) == Some(p) <==> Wellformed(p) && Print(p) == path
  {
    FindIsExact(Manifest, path);
    FindIsExact(Blob, path);
    FindIsExact(Tags, path);
    FindIsExact(Referrers, path);
    var c := ClassifyPath(path);
    if c.Some? {
      assert Wellformed(c.value) && Print(c.value) == path;
      if Wellformed(p) && Print(p) == path {
        PrintInjective(p, c.value);
      }
    }
  }

  predicate RepoName(repo: string) {
    repo != "" && '\n' !in repo
  }

  predicate Segment(last: string) {
    last != "" && '/' !in last
  }

  /** The four forms of the specification, spelled out. */
  lemma ReadsExactly(path: string, repo: string, last: string)
    ensures ClassifyPath(path) == Some(Parsed(Manifest, repo, last)) <==>
              path == "/v2/" + repo + "/manifests/" + last && RepoName(repo) && Segment(last)
    ensures ClassifyPath(path) == Some(Parsed(Blob, repo, last)) <==>
              path == "/v2/" + repo + "/blobs/" + last && RepoName(repo) && Segment(last)
    ensures ClassifyPath(path) == Some(Parsed(Referrers, repo, last)) <==>
              path == "/v2/" + repo + "/referrers/" + last && RepoName(repo) && Segment(last)
    ensures ClassifyPath(path) == Some(Parsed(Tags, repo, "")) <==>
              path == "/v2/" + repo + "/tags/list" && RepoName(repo)
    ensures last != "" ==> ClassifyPath(path) != Some(Parsed(Tags, repo, last))
  {
    PrintsAs(Manifest, repo, last, "/manifests/");
    PrintsAs(Blob, repo, last, "/blobs/");
    PrintsAs(Referrers, repo, last, "/referrers/");
    PrintsAs(Tags, repo, "list", "/tags/");
    assert "/tags/" + "list" == "/tags/list";
    Assoc("/v2/" + repo, "/tags/", "list");
    ClassifyIsExact(path, Parsed(Manifest, repo, last));
    ClassifyIsExact(path, Parsed(Blob, repo, last));
    ClassifyIsExact(path, Parsed(Referrers, repo, last));
    ClassifyIsExact(path, Parsed(Tags, repo, ""));
    ClassifyIsExact(path, Parsed(Tags, repo, last));
  }

  lemma PrintsAs(k: Kind, repo: string, last: string, middle: string)
    requires middle == "/" + Word(k) + "/"
    ensures HEAD + repo + "/" + Word(k) + "/" + last == "/v2/" + repo + middle + last
  {
    Assoc(HEAD + repo, "/", Word(k));
    Assoc(HEAD + repo, "/" + Word(k), "/");
  }

  lemma {:induction false} ExtractTries(path: string, order: seq<Kind>)
    ensures (forall k :: k in order ==> Find(k, path).None?) ==> ExtractRepo(path, order) == ""
    ensures forall p :: Wellformed(p) && Print(p) == path && p.kind in order ==> ExtractRepo(path, order) == p.repo
  {
    if order != [] {
      ExtractTries(path, order[1..]);
      FindIsExact(order[0], path);
      forall p | Wellformed(p) && Print(p) == path && p.kind in order ensures ExtractRepo(path, order) == p.repo {
        if Find(order[0], path).Some? {
          var (repo, ref) := Find(order[0], path).value;
          PrintInjective(p, Parsed(order[0], repo, ref));
        }
      }
      assert forall k :: k in order[1..] ==> k in order;
    }
  }

  /** extractRepo returns the repository classifyPath reports, in whatever order the patterns are tried. */
  lemma ExtractAgreesWithClassify(path: string, order: seq<Kind>)
    requires forall k: Kind :: k in order
    ensures ExtractRepo(path, order) == (if ClassifyPath(path).Some? then ClassifyPath(path).value.repo else "")
  {
    ExtractTries(path, order);
    var c := ClassifyPath(path);
    if c.Some? {
      ClassifyIsExact(path, c.value);
    } else {
      forall k | k in order ensures Find(k, path).None? {
        if Find(k, path).Some? {
          FindIsExact(k, path);
          ClassifyIsExact(path, Parsed(k, Find(k, path).value.0, Find(k, path).value.1));
        }
      }
    }
  }

  // ---- the rewrite of hybrid mode ----

  function StripRepoPathPrefix(path: string, prefix: string): string {
    if prefix == "" || !HasPrefix(path, HEAD) then path
    else
      var rest := path[|HEAD|..];
      var pre := ToLower(Trim(prefix, IsSlash));
      if ToLower(rest) == pre then HEAD[..|HEAD| - 1]
      else if HasPrefix(ToLower(rest), pre + "/") then HEAD + rest[|pre| + 1..]
      else path
  }

  /** The test of resolveRoute: prefix is the whole repository or its first path segments. */
  predicate Matches(prefix: string, repo: string) {
    repo == prefix || HasPrefix(repo, prefix + "/")
  }

  /** A prefix as buildRoutes stores it. */
  predicate Stored(prefix: string) {
    prefix != "" && IsLower(prefix) && Trimmed(prefix, IsSlash)
  }

  lemma StripsFront(prefix: string, rest: string)
    requires Stored(prefix) && ToLower(rest) != prefix && HasPrefix(ToLower(rest), prefix + "/")
    ensures |rest| > |prefix| && StripRepoPathPrefix(HEAD + rest, prefix) == HEAD + rest[|prefix| + 1..]
  {
    assert (HEAD + rest)[|HEAD|..] == rest;
    TrimSpec(prefix, IsSlash);
    LowerIsLower(prefix);
  }

  lemma LowerSlash(written: string, more: string)
    ensures ToLower(written + "/" + more) == ToLower(written) + "/" + ToLower(more)
  {
    LowerConcat(written + "/", more);
    LowerConcat(written, "/");
  }

  /** The rewrite compares without regard to case, and keeps what follows the prefix as it is. */
  lemma StripsAnyCase(prefix: string, written: string, more: string)
    requires Stored(prefix) && ToLower(written) == prefix
    ensures StripRepoPathPrefix("/v2/" + written + "/" + more, prefix) == "/v2/" + more
  {
    var rest := written + "/" + more;
    LowerSlash(written, more);
    assert |ToLower(rest)| > |prefix|;
    StripsFront(prefix, rest);
    Assoc("/v2/", written, "/");
    Assoc("/v2/", written + "/", more);
    assert rest[|prefix| + 1..] == more;
  }

  /** What the rewrite does to a path whose repository starts with the stored prefix and a slash. */
  lemma StripRemovesPrefix(prefix: string, more: string)
    requires Stored(prefix)
    ensures StripRepoPathPrefix(HEAD + prefix + "/" + more, prefix) == HEAD + more
  {
    LowerIsLower(prefix);
    StripsAnyCase(prefix, prefix, more);
  }

  lemma LowerHead(rest: string)
    ensures ToLower(HEAD + rest) == HEAD + ToLower(rest)
  {
    LowerConcat(HEAD, rest);
    assert ToLower(HEAD) == HEAD;
  }

  lemma PrefixUnder(a: string, p: string, s: string)
    ensures HasPrefix(s, p) ==> HasPrefix(a + s, a + p)
  {
    if HasPrefix(s, p) {
      Assoc(a, p, s[|p|..]);
      assert s == p + s[|p|..];
    }
  }

  /** A path that the rewrite changes is, in lower case, "/v2/" and the prefix, alone or with a slash after it. */
  lemma StripsNothingElse(path: string, prefix: string)
    requires Stored(prefix)
    ensures StripRepoPathPrefix(path, prefix) != path ==>
      ToLower(path) == "/v2/" + prefix || HasPrefix(ToLower(path), "/v2/" + (prefix + "/"))
  {
    if HasPrefix(path, HEAD) {
      var rest := path[|HEAD|..];
      assert path == HEAD + rest;
      LowerHead(rest);
      PrefixUnder("/v2/", prefix + "/", ToLower(rest));
      TrimSpec(prefix, IsSlash);
      LowerIsLower(prefix);
    }
  }

  lemma ReadingSplits(path: string, front: string, k: Kind, last: string)
    requires ClassifyPath(path).Some? && path == front + "/" + Word(k) + "/" + last && '/' !in last
    ensures HEAD + ClassifyPath(path).value.repo == front && |front| > |HEAD|
  {
    var q := ClassifyPath(path).value;
    ClassifyIsExact(path, q);
    WordsHaveNoSlash(k);
    WordsHaveNoSlash(q.kind);
    var left := HEAD + q.repo + "/" + Word(q.kind);
    assert left + "/" + Last(q) == Print(q);
    SplitAtLastSlash(left, Last(q), front + "/" + Word(k), last);
    SplitAtLastSlash(HEAD + q.repo, Word(q.kind), front, Word(k));
  }

  /** A path that has nothing, or an empty segment, before the fixed segment has no reading. */
  lemma NoRepositoryNoReading(k: Kind, last: string)
    requires '/' !in last
    ensures ClassifyPath("/v2" + "/" + Word(k) + "/" + last).None?
    ensures ClassifyPath(HEAD + "/" + Word(k) + "/" + last).None?
  {
    var one, two := "/v2" + "/" + Word(k) + "/" + last, HEAD + "/" + Word(k) + "/" + last;
    if ClassifyPath(one).Some? {
      ReadingSplits(one, "/v2", k, last);
    }
    if ClassifyPath(two).Some? {
      ReadingSplits(two, HEAD, k, last);
    }
  }

  lemma StripTo(p: Parsed, prefix: string, more: string)
    requires Stored(prefix) && Print(p) == HEAD + prefix + "/" + more
    ensures StripRepoPathPrefix(Print(p), prefix) == HEAD + more
    ensures HasPrefix(HEAD + more, HEAD) && Print(p) == HEAD + prefix + "/" + (HEAD + more)[|HEAD|..]
  {
    StripRemovesPrefix(prefix, more);
    assert (HEAD + more)[|HEAD|..] == more;
  }

  lemma Join4(a: string, b: string, c: string, d: string)
    ensures a + b + c + d == a + (b + c + d)
  {
  }

  lemma Join5(a: string, b: string, c: string, d: string, e: string)
    ensures a + b + c + d + e == a + (b + c + d + e)
  {
  }

  lemma StripWholeRepo(p: Parsed, prefix: string)
    requires Wellformed(p) && Stored(prefix) && p.repo == prefix
    ensures var stripped := StripRepoPathPrefix(Print(p), prefix);
      && HasPrefix(stripped, HEAD) && Print(p) == HEAD + prefix + "/" + stripped[|HEAD|..]
      && ClassifyPath(stripped).None?
  {
    var w, l := Word(p.kind), Last(p);
    assert '/' !in l;
    Join4(HEAD + prefix + "/", w, "/", l);
    StripTo(p, prefix, w + "/" + l);
    NoRepositoryNoReading(p.kind, l);
    assert HEAD == "/v2" + "/";
    Join4("/v2" + "/", w, "/", l);
  }

  lemma StripRepoAndSlash(p: Parsed, prefix: string)
    requires Wellformed(p) && Stored(prefix) && p.repo == prefix + "/"
    ensures var stripped := StripRepoPathPrefix(Print(p), prefix);
      && HasPrefix(stripped, HEAD) && Print(p) == HEAD + prefix + "/" + stripped[|HEAD|..]
      && ClassifyPath(stripped).None?
  {
    var w, l := Word(p.kind), Last(p);
    assert '/' !in l;
    assert HEAD + (prefix + "/") == HEAD + prefix + "/";
    Join5(HEAD + prefix + "/", "/", w, "/", l);
    StripTo(p, prefix, "/" + w + "/" + l);
    NoRepositoryNoReading(p.kind, l);
    Join5(HEAD, "/", w, "/", l);
  }

  lemma StripLeaves(p: Parsed, prefix: string, r: string)
    requires Wellformed(p) && Stored(prefix) && p.repo == prefix + "/" + r && r != ""
    ensures var stripped := StripRepoPathPrefix(Print(p), prefix);
      && HasPrefix(stripped, HEAD) && Print(p) == HEAD + prefix + "/" + stripped[|HEAD|..]
      && ClassifyPath(stripped) == Some(p.(repo := r))
  {
    var q := p.(repo := r);
    var more := Print(q)[|HEAD|..];
    assert Print(q) == HEAD + more;
    assert Print(p) == HEAD + prefix + "/" + more;
    StripRemovesPrefix(prefix, more);
    assert forall c :: c in r ==> c in p.repo;
    ClassifyIsExact(Print(q), q);
  }

  /**
   * The rewrite commutes with parsing: after a match on the stored prefix, the stripped path reads as the same
   * kind and reference with the prefix and its slash removed from the repository, and putting them back gives
   * the original path. It has a reading exactly when something is left of the repository.
   */
  lemma RewriteCommutes(path: string, p: Parsed, prefix: string)
    requires ClassifyPath(path) == Some(p) && Stored(prefix) && Matches(prefix, p.repo)
    ensures var stripped := StripRepoPathPrefix(path, prefix);
      && HasPrefix(stripped, HEAD) && path == HEAD + prefix + "/" + stripped[|HEAD|..]
      && ClassifyPath(stripped) ==
        (if p.repo == prefix || p.repo == prefix + "/" then None
         else Some(p.(repo := p.repo[|prefix| + 1..])))
  {
    ClassifyIsExact(path, p);
    if p.repo == prefix {
      StripWholeRepo(p, prefix);
    } else if p.repo == prefix + "/" {
      StripRepoAndSlash(p, prefix);
    } else {
      var r := p.repo[|prefix| + 1..];
      assert p.repo == prefix + "/" + r;
      StripLeaves(p, prefix, r);
    }
  }

  lemma AllKindsTried()
    ensures forall k: Kind :: k in ORDER
  {
    forall k: Kind ensures k in ORDER {
      assert k == ORDER[if k == Manifest then 0 else if k == Blob then 1 else if k == Tags then 2 else 3];
    }
  }

  function Scope(path: string): string {
    var repo := ExtractRepo(path, ORDER);
    if repo == "" then "" else "repository:" + repo + ":pull"
  }

  /** The token scope of the upstream request and the recorded event name the same repository. */
  lemma ScopeMatchesEvent(path: string, prefix: string)
    ensures var forwarded := StripRepoPathPrefix(path, prefix); var e := ClassifyPath(forwarded);
      Scope(forwarded) == if e.Some? then "repository:" + e.value.repo + ":pull" else ""
  {
    var forwarded := StripRepoPathPrefix(path, prefix);
    AllKindsTried();
    ExtractAgreesWithClassify(forwarded, ORDER);
    if ClassifyPath(forwarded).Some? {
      ClassifyIsExact(forwarded, ClassifyPath(forwarded).value);
    }
  }
}
