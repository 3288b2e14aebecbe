/** ParseBearerChallenge of internal/auth/upstream/token.go: a WWW-Authenticate header read byte by byte. */
module Challenge {
  import opened Common

  datatype Fields = Fields(realm: string, service: string, scope: string)

  const NOTHING := Fields("", "", "")

  datatype Scan = Scan(key: string, val: string, inQuote: bool, expectVal: bool, out: Fields)

  function Assign(f: Fields, name: string, value: string): Fields {
    if ToLower(name) == "realm" then f.(realm := value)
    else if ToLower(name) == "service" then f.(service := value)
    else if ToLower(name) == "scope" then f.(scope := value)
    else f
  }

  function Start(f: Fields): Scan {
    Scan("", "", false, false, f)
  }

  function Commit(s: Scan): Scan {
    Start(Assign(s.out, TrimSpace(s.key), TrimSpace(s.val)))
  }

  function Collect(s: Scan, c: char): Scan {
    if s.expectVal then s.(val := s.val + [c]) else s.(key := s.key + [c])
  }

  function Next(s: Scan, c: char): Scan {
    if s.inQuote then (if c == '"' then s.(inQuote := false) else s.(val := s.val + [c]))
    else if c == '"' then s.(inQuote := true)
    else if c == '=' then s.(expectVal := true)
    else if c == ',' && s.expectVal then Commit(s)
    else Collect(s, c)
  }

  function ScanAll(s: Scan, rest: string): Scan
    decreases |rest|
  {
    if rest == "" then s else ScanAll(Next(s, rest[0]), rest[1..])
  }

  function Finish(s: Scan): Fields {
    if s.expectVal then Commit(s).out else s.out
  }

  function Parse(header: string): Fields {
    var h := TrimSpace(header);
    if |h| < 7 || ToLower(h[..7]) != "bearer " then NOTHING
    else Finish(ScanAll(Start(NOTHING), h[7..]))
  }

  method ParseBearerChallenge(header: string) returns (realm: string, service: string, scope: string)
    ensures Fields(realm, service, scope) == Parse(header)
  {
    var h := TrimSpace(header);
    realm, service, scope := "", "", "";
    if |h| < 7 || ToLower(h[..7]) != "bearer " {
      return;
    }
    var rest := h[7..];
    var key, val, inQuote, expectVal := "", "", false, false;
    assert rest[0..] == rest;
    for i := 0 to |rest|
      invariant ScanAll(Scan(key, val, inQuote, expectVal, Fields(realm, service, scope)), rest[i..])
        == ScanAll(Start(NOTHING), rest)
    {
      var c := rest[i];
      assert rest[i..][0] == c && rest[i..][1..] == rest[i + 1..];
      if inQuote {
        if c == '"' {
          inQuote := false;
        } else {
          val := val + [c];
        }
        continue;
      }
      if c == '"' {
        inQuote := true;
      } else if c == '=' {
        expectVal := true;
      } else if c == ',' && expectVal {
        realm, service, scope := CommitFields(key, val, realm, service, scope);
        key, val, expectVal := "", "", false;
      } else if expectVal {
        val := val + [c];
      } else {
        key := key + [c];
      }
    }
    if expectVal {
      realm, service, scope := CommitFields(key, val, realm, service, scope);
    }
  }

  method CommitFields(key: string, val: string, realm: string, service: string, scope: string)
    returns (realm': string, service': string, scope': string)
    ensures Fields(realm', service', scope') == Assign(Fields(realm, service, scope), TrimSpace(key), TrimSpace(val))
  {
    realm', service', scope' := realm, service, scope;
    var k, v := ToLower(TrimSpace(key)), TrimSpace(val);
    if k == "realm" {
      realm' := v;
    } else if k == "service" {
      service' := v;
    } else if k == "scope" {
      scope' := v;
    }
  }

  // ---- the grammar ----

  /**
   * One auth-param of RFC 7235 section 2.1: white space may stand before the name, on both sides of the equals
   * sign and after the value, which is quoted or bare.
   */
  datatype Param = Param(
    pre: string, name: string, left: string, right: string, value: string, quoted: bool, post: string)

  predicate Blank(s: string) {
    AllCut(s, IsSpace)
  }

  /** No byte that means something to the scanner outside quotes. */
  predicate Plain(s: string) {
    '"' !in s && '=' !in s && ',' !in s
  }

  /** Quoted values may hold commas, equals signs and inner spaces; a backslash is an ordinary byte. */
  predicate Clean(p: Param) {
    && Blank(p.pre) && Blank(p.left) && Blank(p.right) && Blank(p.post)
    && p.name != "" && Plain(p.name) && Trimmed(p.name, IsSpace)
    && '"' !in p.value && Trimmed(p.value, IsSpace) && (p.quoted || Plain(p.value))
    && (p.value == "" ==> p.quoted)
  }

  function Shown(p: Param): string {
    if p.quoted then "\"" + p.value + "\"" else p.value
  }

  function PrintParam(p: Param): string {
    (p.pre + p.name + p.left) + ("=" + (p.right + (Shown(p) + p.post)))
  }

  function PrintAll(ps: seq<Param>): string {
    if ps == [] then "" else if |ps| == 1 then PrintParam(ps[0]) else PrintParam(ps[0]) + ("," + PrintAll(ps[1..]))
  }

  /** The value of the last parameter whose name is n in any case. */
  function LastValue(ps: seq<Param>, n: string): string {
    if ps == [] then ""
    else
      var p := ps[|ps| - 1];
      if ToLower(p.name) == n then p.value else LastValue(ps[..|ps| - 1], n)
  }

  // ---- scanning what the grammar prints ----

  lemma {:induction false} ScanJoins(s: Scan, a: string, b: string)
    ensures ScanAll(s, a + b) == ScanAll(ScanAll(s, a), b)
    decreases |a|
  {
    if a == "" {
      assert a + b == b;
    } else {
      assert (a + b)[0] == a[0] && (a + b)[1..] == a[1..] + b;
      ScanJoins(Next(s, a[0]), a[1..], b);
    }
  }

  lemma {:induction false} ScanPlain(s: Scan, a: string)
    requires !s.inQuote && Plain(a)
    ensures ScanAll(s, a) == if s.expectVal then s.(val := s.val + a) else s.(key := s.key + a)
    decreases |a|
  {
    if a == "" {
      assert s.val + a == s.val && s.key + a == s.key;
    } else {
      ScanPlain(Next(s, a[0]), a[1..]);
      assert a == [a[0]] + a[1..];
      assert s.val + [a[0]] + a[1..] == s.val + a && s.key + [a[0]] + a[1..] == s.key + a;
    }
  }

  lemma {:induction false} ScanQuoted(s: Scan, a: string)
    requires s.inQuote && '"' !in a
    ensures ScanAll(s, a) == s.(val := s.val + a)
    decreases |a|
  {
    if a == "" {
      assert s.val + a == s.val;
    } else {
      ScanQuoted(Next(s, a[0]), a[1..]);
      assert a == [a[0]] + a[1..];
      assert s.val + [a[0]] + a[1..] == s.val + a;
    }
  }

  lemma ScanOne(s: Scan, c: char)
    ensures ScanAll(s, [c]) == Next(s, c)
  {
    assert [c][1..] == "";
  }

  lemma ScanShown(s: Scan, p: Param)
    requires Clean(p) && !s.inQuote && s.expectVal
    ensures ScanAll(s, Shown(p)) == s.(val := s.val + p.value)
  {
    if p.quoted {
      ScanJoins(s, "\"" + p.value, "\"");
      ScanJoins(s, "\"", p.value);
      ScanOne(s, '"');
      ScanQuoted(s.(inQuote := true), p.value);
      ScanOne(s.(inQuote := true, val := s.val + p.value), '"');
    } else {
      ScanPlain(s, p.value);
    }
  }

  lemma PlainPieces(p: Param)
    requires Clean(p)
    ensures Plain(p.pre + p.name + p.left) && Plain(p.right) && Plain(p.post)
  {
    forall s | Blank(s) ensures Plain(s) {
    }
  }

  /** What the scanner has collected after one parameter. */
  function Read(f: Fields, p: Param): Scan {
    Scan(p.pre + p.name + p.left, p.right + p.value + p.post, false, true, f)
  }

  lemma ScanParam(f: Fields, p: Param)
    requires Clean(p)
    ensures ScanAll(Start(f), PrintParam(p)) == Read(f, p)
  {
    var name, tail := p.pre + p.name + p.left, Shown(p) + p.post;
    PlainPieces(p);
    var s1 := Start(f).(key := name);
    var s2 := s1.(expectVal := true);
    var s3 := s2.(val := p.right);
    ScanJoins(Start(f), name, "=" + (p.right + tail));
    ScanPlain(Start(f), name);
    assert "" + name == name && "" + p.right == p.right;
    ScanJoins(s1, "=", p.right + tail);
    ScanOne(s1, '=');
    ScanJoins(s2, p.right, tail);
    ScanPlain(s2, p.right);
    ScanJoins(s3, Shown(p), p.post);
    ScanShown(s3, p);
    ScanPlain(s3.(val := p.right + p.value), p.post);
  }

  lemma CommitParam(f: Fields, p: Param)
    requires Clean(p)
    ensures Commit(Read(f, p)) == Start(Assign(f, p.name, p.value))
  {
    TrimAround(p.pre, p.name, p.left, IsSpace);
    TrimAround(p.right, p.value, p.post, IsSpace);
  }

  function AssignAll(f: Fields, ps: seq<Param>): Fields
    decreases |ps|
  {
    if ps == [] then f else AssignAll(Assign(f, ps[0].name, ps[0].value), ps[1..])
  }

  lemma {:induction false} ScanList(f: Fields, ps: seq<Param>)
    requires ps != [] && forall i :: 0 <= i < |ps| ==> Clean(ps[i])
    ensures Finish(ScanAll(Start(f), PrintAll(ps))) == AssignAll(f, ps)
    decreases |ps|
  {
    var p, more := ps[0], ps[1..];
    var f' := Assign(f, p.name, p.value);
    var s := Read(f, p);
    ScanParam(f, p);
    CommitParam(f, p);
    if more == [] {
      assert AssignAll(f, ps) == f';
    } else {
      ScanJoins(Start(f), PrintParam(p), "," + PrintAll(more));
      ScanJoins(s, ",", PrintAll(more));
      ScanOne(s, ',');
      ScanList(f', more);
    }
  }

  lemma {:induction false} AssignJoins(f: Fields, ps: seq<Param>, p: Param)
    ensures AssignAll(f, ps + [p]) == Assign(AssignAll(f, ps), p.name, p.value)
    decreases |ps|
  {
    if ps == [] {
      assert ps + [p] == [p] && [p][1..] == [];
    } else {
      assert (ps + [p])[0] == ps[0] && (ps + [p])[1..] == ps[1..] + [p];
      AssignJoins(Assign(f, ps[0].name, ps[0].value), ps[1..], p);
    }
  }

  lemma {:induction false} AssignIsLast(ps: seq<Param>)
    ensures AssignAll(NOTHING, ps) == Fields(LastValue(ps, "realm"), LastValue(ps, "service"), LastValue(ps, "scope"))
  {
    if ps != [] {
      var front, p := ps[..|ps| - 1], ps[|ps| - 1];
      AssignIsLast(front);
      AssignJoins(NOTHING, front, p);
      assert ps == front + [p];
    }
  }

  /** The list without the white space after its last value. */
  function Bare(ps: seq<Param>): seq<Param>
    requires ps != []
  {
    ps[|ps| - 1 := ps[|ps| - 1].(post := "")]
  }

  lemma {:induction false} BareIsClean(ps: seq<Param>)
    requires ps != [] && forall i :: 0 <= i < |ps| ==> Clean(ps[i])
    ensures forall i :: 0 <= i < |Bare(ps)| ==> Clean(Bare(ps)[i])
    ensures AssignAll(NOTHING, Bare(ps)) == AssignAll(NOTHING, ps)
  {
    var front, p := ps[..|ps| - 1], ps[|ps| - 1];
    assert ps == front + [p] && Bare(ps) == front + [p.(post := "")];
    AssignJoins(NOTHING, front, p);
    AssignJoins(NOTHING, front, p.(post := ""));
  }

  lemma PrintWithPost(p: Param)
    ensures PrintParam(p) == PrintParam(p.(post := "")) + p.post
  {
    var bare := p.(post := "");
    assert Shown(bare) == Shown(p) && Shown(p) + "" == Shown(p);
    Assoc(p.pre + p.name + p.left, "=" + (p.right + Shown(p)), p.post);
    Assoc("=", p.right + Shown(p), p.post);
    Assoc(p.right, Shown(p), p.post);
  }

  lemma BareCons(ps: seq<Param>)
    requires |ps| > 1
    ensures Bare(ps)[0] == ps[0] && Bare(ps)[1..] == Bare(ps[1..]) && |Bare(ps)| == |ps|
  {
  }

  lemma PrintCons(ps: seq<Param>)
    requires |ps| > 1
    ensures PrintAll(ps) == PrintParam(ps[0]) + ("," + PrintAll(ps[1..]))
  {
  }

  lemma Comma(a: string, b: string, c: string)
    ensures a + ("," + b) + c == a + ("," + (b + c))
  {
  }

  lemma {:induction false} PrintBare(ps: seq<Param>)
    requires ps != []
    ensures PrintAll(ps) == PrintAll(Bare(ps)) + ps[|ps| - 1].post
    decreases |ps|
  {
    if |ps| == 1 {
      PrintWithPost(ps[0]);
    } else {
      var rest := ps[1..];
      PrintBare(rest);
      BareCons(ps);
      PrintCons(ps);
      PrintCons(Bare(ps));
      Comma(PrintParam(ps[0]), PrintAll(Bare(rest)), rest[|rest| - 1].post);
    }
  }

  lemma {:induction false} EndsSolid(ps: seq<Param>)
    requires ps != [] && Clean(ps[|ps| - 1]) && ps[|ps| - 1].post == ""
    ensures var s := PrintAll(ps); s != "" && !IsSpace(s[|s| - 1])
    decreases |ps|
  {
    if |ps| == 1 {
      ParamEndsSolid(ps[0]);
    } else {
      EndsSolid(ps[1..]);
      SolidAfter(PrintParam(ps[0]) + ",", PrintAll(ps[1..]));
    }
  }

  lemma SolidAfter(front: string, last: string)
    requires last != "" && !IsSpace(last[|last| - 1])
    ensures var s := front + last; s != "" && !IsSpace(s[|s| - 1])
  {
  }

  lemma ParamEndsSolid(p: Param)
    requires Clean(p) && p.post == ""
    ensures var s := PrintParam(p); s != "" && !IsSpace(s[|s| - 1])
  {
    var shown := Shown(p);
    assert shown != "" && !IsSpace(shown[|shown| - 1]);
    assert PrintParam(p) == (p.pre + p.name + p.left + "=" + p.right) + shown;
  }

  lemma SchemeSplits(scheme: string, body: string)
    requires ToLower(scheme) == "bearer"
    ensures var h := scheme + " " + body; |h| >= 7 && ToLower(h[..7]) == "bearer " && h[7..] == body && !IsSpace(h[0])
  {
    var h := scheme + " " + body;
    assert |scheme| == |ToLower(scheme)| == 6;
    assert LowerChar(scheme[0]) == "bearer"[0];
    assert h[..7] == scheme + " ";
    forall i | 0 <= i < 7 ensures ToLower(scheme + " ")[i] == "bearer "[i] {
      if i < 6 {
        assert ToLower(scheme)[i] == "bearer"[i];
      }
    }
  }

  lemma {:induction false} ParseScheme(scheme: string, body: string, post: string)
    requires ToLower(scheme) == "bearer" && body != "" && !IsSpace(body[|body| - 1]) && Blank(post)
    ensures Parse(scheme + " " + (body + post)) == Finish(ScanAll(Start(NOTHING), body))
  {
    var h := scheme + " " + body;
    SchemeSplits(scheme, body);
    assert h[|h| - 1] == body[|body| - 1];
    Assoc(scheme + " ", body, post);
    assert "" + h + post == scheme + " " + (body + post);
    TrimAround("", h, post, IsSpace);
  }

  lemma ParseBareScheme(scheme: string)
    requires ToLower(scheme) == "bearer"
    ensures Parse(scheme + " " + "") == NOTHING
  {
    var h := scheme + " " + "";
    assert |h| == |ToLower(scheme)| + 1 == 7;
    assert h[6] == ' ';
    TrimShorter(h, IsSpace);
  }

  /**
   * The challenge round trip: a Bearer challenge in any letter case, with any list of clean parameters, gives the
   * last value of realm, service and scope, their names compared without regard to case.
   */
  lemma {:induction false} ChallengeRoundTrip(scheme: string, ps: seq<Param>)
    requires ToLower(scheme) == "bearer" && forall i :: 0 <= i < |ps| ==> Clean(ps[i])
    ensures Parse(scheme + " " + PrintAll(ps))
      == Fields(LastValue(ps, "realm"), LastValue(ps, "service"), LastValue(ps, "scope"))
  {
    if ps == [] {
      ParseBareScheme(scheme);
    } else {
      BareIsClean(ps);
      PrintBare(ps);
      EndsSolid(Bare(ps));
      ParseScheme(scheme, PrintAll(Bare(ps)), ps[|ps| - 1].post);
      ScanList(NOTHING, Bare(ps));
      AssignIsLast(ps);
    }
  }

  lemma BearerIsTheWord(h: string)
    requires |h| >= 7 && ToLower(h[..7]) == "bearer "
    ensures h[6] == ' ' && (forall i :: 0 <= i < 6 ==> h[i] != ' ') && ToLower(h[..6]) == "bearer"
  {
    var low := ToLower(h[..7]);
    assert forall i :: 0 <= i < 7 ==> LowerChar(h[i]) == low[i];
    assert low[0] == 'b' && low[1] == 'e' && low[2] == 'a' && low[3] == 'r' && low[4] == 'e' && low[5] == 'r' && low[6] == ' ';
    assert ToLower(h[..6]) == low[..6] == "bearer";
  }

  lemma NoSpaceWithin(scheme: string, rest: string)
    requires ' ' !in scheme
    ensures forall i :: 0 <= i < |scheme| ==> (scheme + " " + rest)[i] != ' '
  {
    assert forall i :: 0 <= i < |scheme| ==> (scheme + " " + rest)[i] == scheme[i];
  }

  lemma SchemeIsTheWord(scheme: string, rest: string)
    requires ' ' !in scheme
    ensures var h := scheme + " " + rest; |h| >= 7 && ToLower(h[..7]) == "bearer " ==> ToLower(scheme) == "bearer"
  {
    var h := scheme + " " + rest;
    if |h| >= 7 && ToLower(h[..7]) == "bearer " {
      BearerIsTheWord(h);
      assert h[|scheme|] == ' ';
      assert |scheme| >= 6;
      NoSpaceWithin(scheme, rest);
      assert h[..6] == scheme;
    }
  }

  /** A challenge of any other scheme gives nothing. */
  lemma OtherSchemes(scheme: string, rest: string)
    requires scheme != "" && ' ' !in scheme && ToLower(scheme) != "bearer" && Trimmed(scheme + " " + rest, IsSpace)
    ensures Parse(scheme + " " + rest) == NOTHING
  {
    TrimSpec(scheme + " " + rest, IsSpace);
    SchemeIsTheWord(scheme, rest);
  }
}
