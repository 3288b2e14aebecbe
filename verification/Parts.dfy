/** strings.Split and strings.Join: a text as the list of its parts between separators. */
module Parts {
  import opened Common

  function Split(s: string, sep: char): (parts: seq<string>)
    ensures parts != []
  {
    if s == "" then [""]
    else
      var parts := Split(s[1..], sep);
      if s[0] == sep then [""] + parts else [[s[0]] + parts[0]] + parts[1..]
  }

  /** strings.Split cuts at the separators: joining two texts with one joins their parts. */
  lemma {:induction false} SplitJoins(a: string, b: string, sep: char)
    ensures Split(a + [sep] + b, sep) == Split(a, sep) + Split(b, sep)
  {
    var whole := a + [sep] + b;
    if a == "" {
      assert whole[1..] == b;
    } else {
      assert whole[1..] == a[1..] + [sep] + b && whole[0] == a[0];
      SplitJoins(a[1..], b, sep);
    }
  }

  lemma {:induction false} SplitWhole(s: string, sep: char)
    requires sep !in s
    ensures Split(s, sep) == [s]
  {
    if s != "" {
      SplitWhole(s[1..], sep);
      assert s == [s[0]] + s[1..];
    }
  }

  lemma {:induction false} SplitCuts(s: string, sep: char)
    ensures |Split(s, sep)| > 1 <==> sep in s
    ensures forall part :: part in Split(s, sep) ==> sep !in part
  {
    if s != "" {
      SplitCuts(s[1..], sep);
      assert s == [s[0]] + s[1..];
      var parts := Split(s[1..], sep);
      assert parts[0] in parts && forall p :: p in parts[1..] ==> p in parts;
    }
  }

  function Join(parts: seq<string>, sep: char): string
    requires parts != []
  {
    if |parts| == 1 then parts[0] else parts[0] + [sep] + Join(parts[1..], sep)
  }

  lemma {:induction false} JoinParts(xs: seq<string>, ys: seq<string>, sep: char)
    requires xs != [] && ys != []
    ensures Join(xs + ys, sep) == Join(xs, sep) + [sep] + Join(ys, sep)
    decreases |xs|
  {
    assert (xs + ys)[0] == xs[0];
    if |xs| == 1 {
      assert (xs + ys)[1..] == ys;
    } else {
      assert (xs + ys)[1..] == xs[1..] + ys;
      JoinParts(xs[1..], ys, sep);
      Assoc(xs[0] + [sep], Join(xs[1..], sep) + [sep], Join(ys, sep));
      Assoc(xs[0] + [sep], Join(xs[1..], sep), [sep]);
    }
  }

  lemma {:induction false} JoinSplit(s: string, sep: char)
    ensures Join(Split(s, sep), sep) == s
  {
    if s != "" {
      JoinSplit(s[1..], sep);
      assert s == [s[0]] + s[1..];
      var parts := Split(s[1..], sep);
      if s[0] == sep {
        assert ([""] + parts)[1..] == parts;
        assert "" + [sep] + s[1..] == [sep] + s[1..];
      } else {
        var first := [s[0]] + parts[0];
        assert ([first] + parts[1..])[1..] == parts[1..];
        if |parts| > 1 {
          Assoc([s[0]], parts[0], [sep]);
          Assoc([s[0]], parts[0] + [sep], Join(parts[1..], sep));
        }
      }
    }
  }

  /** A text starts with another and a separator exactly if its parts start with the other's and go on. */
  lemma PrefixIsParts(k: string, p: string, sep: char)
    ensures HasPrefix(k, p + [sep]) <==> Split(p, sep) < Split(k, sep)
  {
    if HasPrefix(k, p + [sep]) {
      var rest := k[|p| + 1..];
      assert k == p + [sep] + rest;
      SplitJoins(p, rest, sep);
    }
    if Split(p, sep) < Split(k, sep) {
      var more := Split(k, sep)[|Split(p, sep)|..];
      assert Split(k, sep) == Split(p, sep) + more;
      JoinParts(Split(p, sep), more, sep);
      JoinSplit(k, sep);
      JoinSplit(p, sep);
    }
  }

  predicate ProperSuffix(xs: seq<string>, ys: seq<string>) {
    |xs| < |ys| && ys[|ys| - |xs|..] == xs
  }

  lemma SuffixIsParts(k: string, p: string, sep: char)
    ensures HasSuffix(k, [sep] + p) <==> ProperSuffix(Split(p, sep), Split(k, sep))
  {
    if HasSuffix(k, [sep] + p) {
      var rest := k[..|k| - |p| - 1];
      assert k == rest + ([sep] + p);
      Assoc(rest, [sep], p);
      SplitJoins(rest, p, sep);
    }
    if ProperSuffix(Split(p, sep), Split(k, sep)) {
      var more := Split(k, sep)[..|Split(k, sep)| - |Split(p, sep)|];
      assert Split(k, sep) == more + Split(p, sep);
      JoinParts(more, Split(p, sep), sep);
      JoinSplit(k, sep);
      JoinSplit(p, sep);
      Assoc(Join(more, sep), [sep], p);
      assert k[|k| - |p| - 1..] == [sep] + p;
    }
  }
}
