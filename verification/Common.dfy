/** Options, sums, and the ASCII string operations the Go sources lean on. */
module Common {

  datatype Option<+T> = None | Some(value: T)

  function Flatten<T>(xss: seq<seq<T>>): seq<T> {
    if xss == [] then [] else xss[0] + Flatten(xss[1..])
  }

  lemma {:induction false} FlattenAppend<T>(xss: seq<seq<T>>, yss: seq<seq<T>>)
    ensures Flatten(xss + yss) == Flatten(xss) + Flatten(yss)
  {
    if xss == [] {
      assert xss + yss == yss;
    } else {
      assert (xss + yss)[1..] == xss[1..] + yss;
      FlattenAppend(xss[1..], yss);
    }
  }

  lemma FlattenSnoc<T>(xss: seq<seq<T>>, ys: seq<T>)
    ensures Flatten(xss + [ys]) == Flatten(xss) + ys
  {
    FlattenAppend(xss, [ys]);
    assert Flatten([ys]) == ys;
  }

  lemma Assoc<T>(a: seq<T>, b: seq<T>, c: seq<T>)
    ensures a + b + c == a + (b + c)
  {
  }

  function Map<A, B>(f: A -> B, xs: seq<A>): seq<B> {
    if xs == [] then [] else Map(f, xs[..|xs| - 1]) + [f(xs[|xs| - 1])]
  }

  lemma {:induction false} MapLength<A, B>(f: A -> B, xs: seq<A>)
    ensures |Map(f, xs)| == |xs|
  {
    if xs != [] {
      MapLength(f, xs[..|xs| - 1]);
    }
  }

  lemma {:induction false} MapAt<A, B>(f: A -> B, xs: seq<A>, i: nat)
    requires i < |xs|
    ensures |Map(f, xs)| == |xs| && Map(f, xs)[i] == f(xs[i])
  {
    var front := xs[..|xs| - 1];
    MapLength(f, front);
    if i < |front| {
      MapAt(f, front, i);
    }
  }

  lemma {:induction false} MapExtends<A, B>(f: A -> B, xs: seq<A>, i: nat)
    requires i <= |xs|
    ensures Map(f, xs[..i]) <= Map(f, xs)
    decreases |xs|
  {
    if i < |xs| {
      MapExtends(f, xs[..|xs| - 1], i);
      assert xs[..|xs| - 1][..i] == xs[..i];
    } else {
      assert xs[..i] == xs;
    }
  }

  lemma {:induction false} MapSame<A>(f: A -> A, xs: seq<A>)
    requires forall x :: x in xs ==> f(x) == x
    ensures Map(f, xs) == xs
  {
    MapLength(f, xs);
    forall i | 0 <= i < |xs| ensures Map(f, xs)[i] == xs[i] {
      MapAt(f, xs, i);
    }
  }

  // ---- subsequences ----

  /** xs is a subsequence of ys. */
  predicate Sub<T(==)>(xs: seq<T>, ys: seq<T>) {
    xs == [] || (ys != [] && ((xs[0] == ys[0] && Sub(xs[1..], ys[1..])) || Sub(xs, ys[1..])))
  }

  lemma {:induction false} SubSelf<T>(xs: seq<T>)
    ensures Sub(xs, xs)
  {
    if xs != [] {
      SubSelf(xs[1..]);
    }
  }

  lemma {:induction false} SubAppend<T>(xs: seq<T>, ys: seq<T>, zs: seq<T>)
    requires Sub(xs, ys)
    ensures Sub(xs + zs, ys + zs)
    decreases |ys|
  {
    if ys == [] {
      SubSelf(zs);
      assert xs + zs == zs && ys + zs == zs;
    } else {
      assert (ys + zs)[1..] == ys[1..] + zs && (ys + zs)[0] == ys[0];
      if xs != [] && xs[0] == ys[0] && Sub(xs[1..], ys[1..]) {
        SubAppend(xs[1..], ys[1..], zs);
        assert (xs + zs)[1..] == xs[1..] + zs;
      } else {
        if xs == [] { assert Sub(xs, ys[1..]); }
        SubAppend(xs, ys[1..], zs);
      }
    }
  }

  lemma {:induction false} SubMembers<T>(xs: seq<T>, ys: seq<T>)
    requires Sub(xs, ys)
    ensures forall x :: x in xs ==> x in ys
    decreases |ys|
  {
    if xs != [] {
      assert xs == [xs[0]] + xs[1..] && ys == [ys[0]] + ys[1..];
      if xs[0] == ys[0] && Sub(xs[1..], ys[1..]) {
        SubMembers(xs[1..], ys[1..]);
      } else {
        SubMembers(xs, ys[1..]);
      }
    }
  }

  lemma {:induction false} SubExtend<T>(xs: seq<T>, ys: seq<T>, zs: seq<T>)
    requires Sub(xs, ys)
    ensures Sub(xs, ys + zs)
    decreases |ys|
  {
    if xs != [] {
      assert (ys + zs)[1..] == ys[1..] + zs && (ys + zs)[0] == ys[0];
      if xs[0] == ys[0] && Sub(xs[1..], ys[1..]) {
        SubExtend(xs[1..], ys[1..], zs);
      } else {
        SubExtend(xs, ys[1..], zs);
      }
    }
  }

  lemma {:induction false} SubConcat<T>(a: seq<T>, b: seq<T>, c: seq<T>, d: seq<T>)
    requires Sub(a, b) && Sub(c, d)
    ensures Sub(a + c, b + d)
    decreases |b|
  {
    if b == [] {
      assert a + c == c && b + d == d;
    } else {
      assert (b + d)[1..] == b[1..] + d && (b + d)[0] == b[0];
      if a != [] && a[0] == b[0] && Sub(a[1..], b[1..]) {
        SubConcat(a[1..], b[1..], c, d);
        assert (a + c)[1..] == a[1..] + c;
      } else {
        if a == [] { assert Sub(a, b[1..]); }
        SubConcat(a, b[1..], c, d);
      }
    }
  }

  /** A common last element can be dropped from both. */
  lemma {:induction false} SubCancel<T>(xs: seq<T>, ys: seq<T>, z: T)
    ensures Sub(xs + [z], ys + [z]) ==> Sub(xs, ys)
    decreases |ys|
  {
    var a, b := xs + [z], ys + [z];
    if xs != [] {
      assert a[1..] == xs[1..] + [z] && a[0] == xs[0];
      if ys == [] {
        assert b[1..] == [] && !Sub(a[1..], b[1..]) && !Sub(a, b[1..]);
      } else {
        assert b[1..] == ys[1..] + [z] && b[0] == ys[0];
        SubCancel(xs[1..], ys[1..], z);
        SubCancel(xs, ys[1..], z);
      }
    }
  }

  // ---- histories ----

  /** Something was started before step n and has not been stopped since. */
  ghost predicate Since(start: nat -> bool, stop: nat -> bool, n: nat) {
    exists i: nat :: i < n && start(i) && forall j: nat :: i < j < n ==> !stop(j)
  }

  lemma SinceStep(start: nat -> bool, stop: nat -> bool, n: nat)
    ensures Since(start, stop, n + 1) <==> (Since(start, stop, n) && !stop(n)) || start(n)
  {
    if Since(start, stop, n) && !stop(n) {
      var i: nat :| i < n && start(i) && forall j: nat :: i < j < n ==> !stop(j);
      assert forall j: nat :: i < j < n + 1 ==> !stop(j);
    }
  }

  // ---- distinct elements ----

  predicate Distinct<T(==)>(xs: seq<T>) {
    forall i, j :: 0 <= i < j < |xs| ==> xs[i] != xs[j]
  }

  lemma DistinctSnoc<T>(xs: seq<T>, x: T)
    ensures Distinct(xs + [x]) <==> Distinct(xs) && x !in xs
  {
    if Distinct(xs + [x]) {
      forall i, j | 0 <= i < j < |xs| ensures xs[i] != xs[j] {
        assert (xs + [x])[i] != (xs + [x])[j];
      }
      forall i | 0 <= i < |xs| ensures xs[i] != x {
        assert (xs + [x])[i] != (xs + [x])[|xs|];
      }
    }
  }

  lemma DistinctCons<T>(xs: seq<T>)
    requires xs != []
    ensures Distinct(xs) <==> Distinct(xs[1..]) && xs[0] !in xs[1..]
  {
    if Distinct(xs) {
      assert forall i :: 0 <= i < |xs[1..]| ==> xs[1..][i] == xs[i + 1];
    } else {
      var i, j :| 0 <= i < j < |xs| && xs[i] == xs[j];
      assert xs[1..][j - 1] == xs[j];
      assert i > 0 ==> xs[1..][i - 1] == xs[i];
    }
  }

  lemma {:induction false} SubDistinct<T>(xs: seq<T>, ys: seq<T>)
    requires Sub(xs, ys) && Distinct(ys)
    ensures Distinct(xs)
    decreases |ys|
  {
    if xs != [] {
      DistinctCons(ys);
      if xs[0] == ys[0] && Sub(xs[1..], ys[1..]) {
        SubDistinct(xs[1..], ys[1..]);
        SubMembers(xs[1..], ys[1..]);
        DistinctCons(xs);
      } else {
        SubDistinct(xs, ys[1..]);
      }
    }
  }

  function Max(a: int, b: int): int {
    if a < b then b else a
  }

  // strings.ToLower / strings.ToUpper on ASCII

  function LowerChar(c: char): char {
    if 'A' <= c <= 'Z' then (c as int + 32) as char else c
  }

  function UpperChar(c: char): char {
    if 'a' <= c <= 'z' then (c as int - 32) as char else c
  }

  function ToLower(s: string): (r: string)
    ensures |r| == |s|
    ensures forall i :: 0 <= i < |s| ==> r[i] == LowerChar(s[i])
  {
    seq(|s|, i requires 0 <= i < |s| => LowerChar(s[i]))
  }

  function ToUpper(s: string): (r: string)
    ensures |r| == |s|
    ensures forall i :: 0 <= i < |s| ==> r[i] == UpperChar(s[i])
  {
    seq(|s|, i requires 0 <= i < |s| => UpperChar(s[i]))
  }

  predicate IsLower(s: string) {
    forall i :: 0 <= i < |s| ==> LowerChar(s[i]) == s[i]
  }

  lemma LowerIsLower(s: string)
    ensures IsLower(ToLower(s))
    ensures IsLower(s) ==> ToLower(s) == s
  {
  }

  lemma LowerConcat(a: string, b: string)
    ensures ToLower(a + b) == ToLower(a) + ToLower(b)
  {
    assert |ToLower(a + b)| == |ToLower(a) + ToLower(b)|;
    forall i | 0 <= i < |a + b| ensures ToLower(a + b)[i] == (ToLower(a) + ToLower(b))[i] {
    }
  }

  lemma LowerJoins(a: string, b: string, c: string)
    ensures ToLower(a + b + c) == ToLower(a) + ToLower(b) + ToLower(c)
  {
    LowerConcat(a + b, c);
    LowerConcat(a, b);
  }

  // strings.TrimSpace and strings.Trim(s, "/")

  predicate IsSpace(c: char) {
    c in "\t\n\r \U{0B}\U{0C}"
  }

  predicate IsSlash(c: char) {
    c == '/'
  }

  function TrimLeft(s: string, cut: char -> bool): string {
    if s != "" && cut(s[0]) then TrimLeft(s[1..], cut) else s
  }

  function TrimRight(s: string, cut: char -> bool): string {
    if s != "" && cut(s[|s| - 1]) then TrimRight(s[..|s| - 1], cut) else s
  }

  function Trim(s: string, cut: char -> bool): string {
    TrimRight(TrimLeft(s, cut), cut)
  }

  function TrimSpace(s: string): string {
    Trim(s, IsSpace)
  }

  /** Neither end of s would be cut. */
  predicate Trimmed(s: string, cut: char -> bool) {
    s == "" || (!cut(s[0]) && !cut(s[|s| - 1]))
  }

  lemma {:induction false} TrimRightKeeps(s: string, cut: char -> bool)
    ensures TrimRight(s, cut) <= s
    ensures TrimRight(s, cut) == "" || !cut(TrimRight(s, cut)[|TrimRight(s, cut)| - 1])
  {
    if s != "" && cut(s[|s| - 1]) {
      TrimRightKeeps(s[..|s| - 1], cut);
    }
  }

  lemma {:induction false} TrimLeftKeeps(s: string, cut: char -> bool)
    ensures |TrimLeft(s, cut)| <= |s| && TrimLeft(s, cut) == s[|s| - |TrimLeft(s, cut)|..]
    ensures TrimLeft(s, cut) == "" || !cut(TrimLeft(s, cut)[0])
  {
    if s != "" && cut(s[0]) {
      TrimLeftKeeps(s[1..], cut);
    }
  }

  /** Trim returns a trimmed string, is the identity on trimmed strings, and never invents characters. */
  lemma TrimSpec(s: string, cut: char -> bool)
    ensures Trimmed(Trim(s, cut), cut)
    ensures Trim(s, cut) == s <==> Trimmed(s, cut)
    ensures |Trim(s, cut)| <= |s|
    ensures forall c :: c in Trim(s, cut) ==> c in s
  {
    TrimLeftKeeps(s, cut);
    TrimRightKeeps(TrimLeft(s, cut), cut);
  }

  lemma TrimShorter(s: string, cut: char -> bool)
    requires !Trimmed(s, cut)
    ensures |Trim(s, cut)| < |s|
  {
    if cut(s[0]) {
      TrimLeftKeeps(s[1..], cut);
      TrimRightKeeps(TrimLeft(s, cut), cut);
    } else {
      TrimRightKeeps(s[..|s| - 1], cut);
    }
  }

  predicate AllCut(s: string, cut: char -> bool) {
    forall i :: 0 <= i < |s| ==> cut(s[i])
  }

  lemma {:induction false} TrimLeftAround(a: string, s: string, cut: char -> bool)
    requires AllCut(a, cut) && (s == "" || !cut(s[0]))
    ensures TrimLeft(a + s, cut) == s
  {
    if a == "" {
      assert a + s == s;
    } else {
      assert (a + s)[1..] == a[1..] + s;
      TrimLeftAround(a[1..], s, cut);
    }
  }

  lemma {:induction false} TrimRightAround(s: string, b: string, cut: char -> bool)
    requires AllCut(b, cut) && (s == "" || !cut(s[|s| - 1]))
    ensures TrimRight(s + b, cut) == s
  {
    if b == "" {
      assert s + b == s;
    } else {
      assert (s + b)[..|s + b| - 1] == s + b[..|b| - 1];
      TrimRightAround(s, b[..|b| - 1], cut);
    }
  }

  /** Trimming takes off exactly what surrounds a trimmed text. */
  lemma TrimAround(a: string, s: string, b: string, cut: char -> bool)
    requires AllCut(a, cut) && AllCut(b, cut) && Trimmed(s, cut)
    ensures Trim(a + s + b, cut) == s
  {
    if s == "" {
      assert a + s + b == (a + b) + s;
      TrimLeftAround(a + b, s, cut);
      assert TrimRight(s, cut) == s;
    } else {
      assert a + s + b == a + (s + b);
      TrimLeftAround(a, s + b, cut);
      TrimRightAround(s, b, cut);
    }
  }

  predicate HasPrefix(s: string, p: string) {
    p <= s
  }

  predicate HasSuffix(s: string, p: string) {
    |p| <= |s| && s[|s| - |p|..] == p
  }
}
