/**
 * The dashboard queries of internal/store/stats.go and images.go over stats_daily.
 * What the SQL engine returns for a GROUP BY is a parameter of the Go loops that consume it: any rows that
 * satisfy the query, in any order among ties.
 */
module Stats {
  import opened Common
  import opened Record
  import opened Tables

  // ---- ParseRange ----

  predicate IsDigit(c: char) {
    '0' <= c <= '9'
  }

  function Digit(c: char): int
    requires IsDigit(c)
  {
    c as int - '0' as int
  }

  /** The value of a non-empty string of decimal digits. */
  function Digits(s: string): Option<int> {
    if s == "" || !IsDigit(s[|s| - 1]) then None
    else if |s| == 1 then Some(Digit(s[0]))
    else
      var high := Digits(s[..|s| - 1]);
      if high.None? then None else Some(10 * high.value + Digit(s[|s| - 1]))
  }

  /** strconv.Atoi: an optional sign, then digits. */
  function Atoi(s: string): Option<int> {
    if s != "" && s[0] in "+-" then
      var v := Digits(s[1..]);
      if v.None? then None else Some(if s[0] == '-' then -v.value else v.value)
    else Digits(s)
  }

  datatype Range = Range(lo: int, hi: int, days: int)

  /** Inclusive day bounds ending today; None is the error return. */
  function ParseRange(text: string, now: int): Option<Range> {
    var s0 := TrimSpace(ToLower(text));
    var s := if s0 == "" then "7d" else s0;
    if !HasSuffix(s, "d") then None
    else
      var n := Atoi(s[..|s| - 1]);
      if n.None? || n.value < 1 || n.value > 366 then None
      else Some(Range(Day(now - (n.value - 1) * SECONDS_PER_DAY), Day(now), n.value))
  }

  function Decimal(n: nat): string {
    if n < 10 then [(n + '0' as int) as char] else Decimal(n / 10) + [(n % 10 + '0' as int) as char]
  }

  lemma {:induction false} DigitsOfDecimal(n: nat)
    ensures Digits(Decimal(n)) == Some(n) && Decimal(n) != ""
    ensures forall c :: c in Decimal(n) ==> IsDigit(c)
  {
    if n >= 10 {
      DigitsOfDecimal(n / 10);
      assert Decimal(n)[..|Decimal(n)| - 1] == Decimal(n / 10);
    }
  }

  /** A range that parses covers exactly its number of days, ends today, and is between 1 and 366 days long. */
  lemma RangeCoversDays(text: string, now: int)
    requires ParseRange(text, now).Some?
    ensures var r := ParseRange(text, now).value;
      r.hi == Day(now) && r.hi - r.lo + 1 == r.days && 1 <= r.days <= 366
  {
  }

  lemma PrintedIsClean(n: nat)
    ensures var s := Decimal(n) + "d";
      TrimSpace(ToLower(s)) == s && s[0] !in "+-" && s[..|s| - 1] == Decimal(n)
  {
    DigitsOfDecimal(n);
    PaddedDigits("", n);
    assert "" + Decimal(n) == Decimal(n) && IsDigit(Decimal(n)[0]);
    SignedIsClean("", Decimal(n), "d");
    TrimSpec(Decimal(n) + "d", IsSpace);
  }

  /** Every printed length in bounds is accepted and read back, and every other one is refused. */
  lemma RangeRoundTrip(n: nat, now: int)
    ensures ParseRange(Decimal(n) + "d", now) ==
      if 1 <= n <= 366 then Some(Range(Day(now) - (n - 1), Day(now), n)) else None
  {
    PrintedIsClean(n);
    DigitsOfDecimal(n);
    assert Atoi(Decimal(n)) == Some(n) by {
      assert Decimal(n)[0] == (Decimal(n) + "d")[0];
    }
  }

  // what else it accepts: the default, and signs, zeros, case and spaces around a number

  /** Nothing but space means seven days. */
  lemma RangeDefault(text: string, now: int)
    requires AllCut(text, IsSpace)
    ensures ParseRange(text, now) == Some(Range(Day(now) - 6, Day(now), 7))
  {
    BlankStays(text);
    TrimAround(text, "", "", IsSpace);
    assert text + "" + "" == text && Decimal(7) + "d" == "7d";
    RangeRoundTrip(7, now);
    TrimSpec("7d", IsSpace);
    LowerIsLower("7d");
  }

  lemma BlankStays(a: string)
    requires AllCut(a, IsSpace)
    ensures ToLower(a) == a
  {
  }

  predicate Zeros(z: string) {
    forall i :: 0 <= i < |z| ==> z[i] == '0'
  }

  lemma {:induction false} DigitsOfZeros(z: string)
    requires Zeros(z) && z != ""
    ensures Digits(z) == Some(0)
  {
    if |z| > 1 {
      DigitsOfZeros(z[..|z| - 1]);
    }
  }

  lemma {:induction false} DigitsAfterZeros(z: string, n: nat)
    requires Zeros(z)
    ensures Digits(z + Decimal(n)) == Some(n)
    decreases n
  {
    var s := z + Decimal(n);
    DigitsOfDecimal(n);
    if z == "" {
      assert s == Decimal(n);
    } else if n < 10 {
      DigitsOfZeros(z);
      assert s[..|s| - 1] == z;
    } else {
      DigitsAfterZeros(z, n / 10);
      assert s[..|s| - 1] == z + Decimal(n / 10);
    }
  }

  predicate AllDigits(s: string) {
    forall i :: 0 <= i < |s| ==> IsDigit(s[i])
  }

  lemma SignedIsClean(sign: string, digits: string, unit: string)
    requires sign in {"", "+"} && AllDigits(digits) && digits != "" && unit in {"d", "D"}
    ensures var s := sign + digits; ToLower(s + unit) == s + "d" && Trimmed(s + "d", IsSpace)
  {
    var s := sign + digits;
    assert forall i :: 0 <= i < |s| ==> s[i] == '+' || IsDigit(s[i]);
    LowerConcat(s, unit);
    assert ToLower(unit) == "d";
    assert ToLower(s) == s;
  }

  lemma SignedReads(sign: string, digits: string)
    requires sign in {"", "+"} && AllDigits(digits) && digits != ""
    ensures Atoi(sign + digits) == Digits(digits)
  {
    if sign == "+" {
      assert (sign + digits)[1..] == digits;
    } else {
      assert sign + digits == digits;
    }
  }

  lemma PaddedDigits(z: string, n: nat)
    requires Zeros(z)
    ensures AllDigits(z + Decimal(n)) && z + Decimal(n) != ""
  {
    DigitsOfDecimal(n);
    forall i | 0 <= i < |z + Decimal(n)| ensures IsDigit((z + Decimal(n))[i]) {
      if i >= |z| {
        assert Decimal(n)[i - |z|] in Decimal(n);
      }
    }
  }

  lemma NumberIsClean(sign: string, z: string, n: nat, unit: string)
    requires sign in {"", "+"} && Zeros(z) && unit in {"d", "D"}
    ensures var s := sign + z + Decimal(n); ToLower(s + unit) == s + "d" && Trimmed(s + "d", IsSpace)
    ensures Atoi(sign + z + Decimal(n)) == Some(n)
  {
    Assoc(sign, z, Decimal(n));
    PaddedDigits(z, n);
    DigitsAfterZeros(z, n);
    SignedIsClean(sign, z + Decimal(n), unit);
    SignedReads(sign, z + Decimal(n));
  }

  lemma RangeReads(a: string, sign: string, z: string, n: nat, unit: string, b: string, now: int)
    requires AllCut(a, IsSpace) && AllCut(b, IsSpace) && sign in {"", "+"} && Zeros(z) && unit in {"d", "D"}
    ensures ParseRange(a + (sign + z + Decimal(n) + unit) + b, now) ==
      if 1 <= n <= 366 then Some(Range(Day(now) - (n - 1), Day(now), n)) else None
  {
    NumberIsClean(sign, z, n, unit);
    CleanReads(a, sign + z + Decimal(n), unit, b);
    ParsesAs(a + (sign + z + Decimal(n) + unit) + b, sign + z + Decimal(n), n, now);
  }

  lemma CleanReads(a: string, s: string, unit: string, b: string)
    requires AllCut(a, IsSpace) && AllCut(b, IsSpace) && ToLower(s + unit) == s + "d" && Trimmed(s + "d", IsSpace)
    ensures TrimSpace(ToLower(a + (s + unit) + b)) == s + "d"
  {
    BlankStays(a);
    BlankStays(b);
    LowerJoins(a, s + unit, b);
    TrimAround(a, s + "d", b, IsSpace);
  }

  lemma ParsesAs(text: string, s: string, n: nat, now: int)
    requires TrimSpace(ToLower(text)) == s + "d" && Atoi(s) == Some(n)
    ensures ParseRange(text, now) == if 1 <= n <= 366 then Some(Range(Day(now) - (n - 1), Day(now), n)) else None
  {
    assert (s + "d")[..|s + "d"| - 1] == s;
  }

  lemma {:induction false} DigitsAreDigits(s: string)
    requires Digits(s).Some?
    ensures s != "" && forall c :: c in s ==> '0' <= c <= '9'
  {
    if |s| > 1 {
      DigitsAreDigits(s[..|s| - 1]);
      assert s == s[..|s| - 1] + [s[|s| - 1]];
    }
  }

  /** Nothing else is accepted: what is not blank is, between spaces, an optional sign, digits and a d. */
  lemma RangeForm(text: string, now: int)
    requires ParseRange(text, now).Some? && TrimSpace(ToLower(text)) != ""
    ensures exists sign, digits ::
      && TrimSpace(ToLower(text)) == sign + digits + "d" && sign in {"", "+", "-"}
      && digits != "" && forall c :: c in digits ==> '0' <= c <= '9'
  {
    var s := TrimSpace(ToLower(text));
    var body := s[..|s| - 1];
    var sign, digits := AtoiForm(body);
    assert s == body + "d" == sign + digits + "d";
  }

  lemma AtoiForm(s: string) returns (sign: string, digits: string)
    requires Atoi(s).Some?
    ensures s == sign + digits && sign in {"", "+", "-"} && digits != "" && forall c :: c in digits ==> '0' <= c <= '9'
  {
    if s != "" && s[0] in "+-" {
      sign, digits := [s[0]], s[1..];
    } else {
      sign, digits := "", s;
    }
    DigitsAreDigits(digits);
  }

  // ---- splitting a slice into disjoint slices ----

  function TotalOver(slices: seq<Slice>, t: seq<DailyRow>, m: Measure): int {
    if slices == [] then 0 else DailyTotal(t, slices[0], m) + TotalOver(slices[1..], t, m)
  }

  function Hits(slices: seq<Slice>, d: DailyRow): int {
    if slices == [] then 0
    else (if InSlice(slices[0], d.day, d.registry, d.repository) then 1 else 0) + Hits(slices[1..], d)
  }

  /** Every row of the whole is in exactly one part and no other row is in any. */
  predicate Splits(parts: seq<Slice>, whole: Slice, t: seq<DailyRow>) {
    forall d :: d in t ==> Hits(parts, d) == if InSlice(whole, d.day, d.registry, d.repository) then 1 else 0
  }

  lemma {:induction false} TotalOverCons(parts: seq<Slice>, t: seq<DailyRow>, m: Measure)
    requires t != []
    ensures TotalOver(parts, t, m) == TotalOver(parts, t[1..], m) + Hits(parts, t[0]) * DailyValue(t[0], m)
  {
    if parts != [] {
      TotalOverCons(parts[1..], t, m);
      var h, v := Hits(parts[1..], t[0]), DailyValue(t[0], m);
      assert (1 + h) * v == v + h * v;
    }
  }

  /** The sums over the parts add up to the sum over the whole. */
  lemma {:induction false} PartsAddUp(parts: seq<Slice>, whole: Slice, t: seq<DailyRow>, m: Measure)
    requires Splits(parts, whole, t)
    ensures TotalOver(parts, t, m) == DailyTotal(t, whole, m)
  {
    if t == [] {
      NothingOverEmpty(parts, m);
    } else {
      assert t[0] in t && forall d :: d in t[1..] ==> d in t;
      TotalOverCons(parts, t, m);
      PartsAddUp(parts, whole, t[1..], m);
    }
  }

  lemma {:induction false} NothingOverEmpty(parts: seq<Slice>, m: Measure)
    ensures TotalOver(parts, [], m) == 0
  {
    if parts != [] {
      NothingOverEmpty(parts[1..], m);
    }
  }

  function DaySlice(s: Slice, day: int): Slice {
    s.(lo := day, hi := day)
  }

  function DaySlices(s: Slice, lo: int, n: nat): seq<Slice>
    decreases n
  {
    if n == 0 then [] else [DaySlice(s, lo)] + DaySlices(s, lo + 1, n - 1)
  }

  lemma {:induction false} DayHits(s: Slice, lo: int, n: nat, d: DailyRow)
    ensures Hits(DaySlices(s, lo, n), d) ==
      if InSlice(s.(lo := lo, hi := lo + n - 1), d.day, d.registry, d.repository) then 1 else 0
    decreases n
  {
    if n > 0 {
      DayHits(s, lo + 1, n - 1, d);
    }
  }

  // ---- sumDaily, registryShare ----

  function SumDaily(t: seq<DailyRow>, lo: int, hi: int, m: Measure): int {
    DailyTotal(t, Slice(lo, hi, None, None), m)
  }

  datatype GroupRow = GroupRow(registry: string, pulls: int, bytes: int, errors: int)

  datatype Share = Share(registry: string, pulls: int, bytes: int, errors: int,
                         errorRate: real, pullShare: real, bytesShare: real)

  function RegistrySlice(registry: string, lo: int, hi: int): Slice {
    Slice(lo, hi, Some(registry), None)
  }

  /** SELECT registry, SUM.. WHERE day BETWEEN lo AND hi GROUP BY registry ORDER BY SUM(pulls) DESC, SUM(bytes) DESC */
  ghost predicate IsRegistryGroup(q: seq<GroupRow>, t: seq<DailyRow>, lo: int, hi: int) {
    && (forall i, j :: 0 <= i < j < |q| ==> q[i].registry != q[j].registry)
    && (forall d :: d in t && lo <= d.day <= hi ==> exists i :: 0 <= i < |q| && q[i].registry == d.registry)
    && (forall i :: 0 <= i < |q| ==>
      && q[i].pulls == DailyTotal(t, RegistrySlice(q[i].registry, lo, hi), Pulls)
      && q[i].bytes == DailyTotal(t, RegistrySlice(q[i].registry, lo, hi), Bytes)
      && q[i].errors == DailyTotal(t, RegistrySlice(q[i].registry, lo, hi), Errors))
    && (forall i :: 0 < i < |q| ==>
      q[i - 1].pulls > q[i].pulls || (q[i - 1].pulls == q[i].pulls && q[i - 1].bytes >= q[i].bytes))
  }

  function RegistrySlices(q: seq<GroupRow>, lo: int, hi: int): seq<Slice> {
    if q == [] then [] else [RegistrySlice(q[0].registry, lo, hi)] + RegistrySlices(q[1..], lo, hi)
  }

  lemma {:induction false} RegistryHits(q: seq<GroupRow>, lo: int, hi: int, d: DailyRow)
    requires forall i, j :: 0 <= i < j < |q| ==> q[i].registry != q[j].registry
    ensures Hits(RegistrySlices(q, lo, hi), d) ==
      if lo <= d.day <= hi && exists i :: 0 <= i < |q| && q[i].registry == d.registry then 1 else 0
  {
    if q != [] {
      RegistryHits(q[1..], lo, hi, d);
      if exists i :: 0 <= i < |q| && q[i].registry == d.registry {
        var i :| 0 <= i < |q| && q[i].registry == d.registry;
        assert i > 0 ==> q[1..][i - 1].registry == d.registry;
      }
      assert forall i :: 0 <= i < |q[1..]| ==> q[1..][i] == q[i + 1];
    }
  }

  function GroupValue(g: GroupRow, m: Measure): int {
    match m
    case Pulls => g.pulls
    case Bytes => g.bytes
    case Errors => g.errors
  }

  function GroupSum(q: seq<GroupRow>, m: Measure): int {
    if q == [] then 0 else GroupSum(q[..|q| - 1], m) + GroupValue(q[|q| - 1], m)
  }

  lemma {:induction false} GroupSumIsTotal(q: seq<GroupRow>, t: seq<DailyRow>, lo: int, hi: int, m: Measure)
    requires forall i :: 0 <= i < |q| ==> GroupValue(q[i], m) == DailyTotal(t, RegistrySlice(q[i].registry, lo, hi), m)
    ensures GroupSum(q, m) == TotalOver(RegistrySlices(q, lo, hi), t, m)
  {
    if q != [] {
      GroupSumIsTotal(q[1..], t, lo, hi, m);
      GroupSumCons(q, m);
    }
  }

  lemma {:induction false} GroupSumCons(q: seq<GroupRow>, m: Measure)
    requires q != []
    ensures GroupSum(q, m) == GroupValue(q[0], m) + GroupSum(q[1..], m)
  {
    if |q| > 1 {
      GroupSumCons(q[..|q| - 1], m);
      assert q[..|q| - 1][1..] == q[1..][..|q| - 2];
    }
  }

  /** The registries partition the traffic: their sums add up to sumDaily over the same days. */
  lemma RegistriesAddUp(q: seq<GroupRow>, t: seq<DailyRow>, lo: int, hi: int, m: Measure)
    requires IsRegistryGroup(q, t, lo, hi)
    ensures GroupSum(q, m) == SumDaily(t, lo, hi, m)
  {
    GroupSumIsTotal(q, t, lo, hi, m);
    forall d | d in t ensures Hits(RegistrySlices(q, lo, hi), d) ==
        if InSlice(Slice(lo, hi, None, None), d.day, d.registry, d.repository) then 1 else 0
    {
      RegistryHits(q, lo, hi, d);
    }
    PartsAddUp(RegistrySlices(q, lo, hi), Slice(lo, hi, None, None), t, m);
  }

  function PullShares(out: seq<Share>): real {
    if out == [] then 0.0 else PullShares(out[..|out| - 1]) + out[|out| - 1].pullShare
  }

  lemma {:induction false} AddShare(share: real, part: int, more: int, total: int)
    requires total > 0 && share == part as real / total as real
    ensures share + more as real / total as real == (part + more) as real / total as real
  {
  }

  lemma {:induction false} SharesSum(out: seq<Share>, q: seq<GroupRow>, total: int)
    requires total > 0 && |out| == |q|
    requires forall i :: 0 <= i < |q| ==> out[i].pullShare == q[i].pulls as real / total as real
    ensures PullShares(out) == GroupSum(q, Pulls) as real / total as real
  {
    if q != [] {
      var k := |q| - 1;
      SharesSum(out[..k], q[..k], total);
      AddShare(PullShares(out[..k]), GroupSum(q[..k], Pulls), q[k].pulls, total);
    }
  }

  lemma {:induction false} Whole(n: int)
    requires n > 0
    ensures n as real / n as real == 1.0
  {
  }

  /** failures / attempts, and 0 without attempts. */
  function Rate(errors: int, pulls: int): real {
    if pulls + errors > 0 then errors as real / (pulls + errors) as real else 0.0
  }

  function Fraction(part: int, total: int): real {
    if total > 0 then part as real / total as real else 0.0
  }

  function BaseShare(g: GroupRow): Share {
    Share(g.registry, g.pulls, g.bytes, g.errors, Rate(g.errors, g.pulls), 0.0, 0.0)
  }

  function FullShare(g: GroupRow, totalPulls: int, totalBytes: int): Share {
    BaseShare(g).(pullShare := Fraction(g.pulls, totalPulls), bytesShare := Fraction(g.bytes, totalBytes))
  }

  /** What the fractions are fractions of. */
  lemma {:induction false} ShareMeans(g: GroupRow, totalPulls: int, totalBytes: int)
    ensures var s := FullShare(g, totalPulls, totalBytes);
      && s.registry == g.registry && s.pulls == g.pulls && s.bytes == g.bytes && s.errors == g.errors
      && (if totalPulls > 0 then s.pullShare * totalPulls as real == g.pulls as real else s.pullShare == 0.0)
      && (if totalBytes > 0 then s.bytesShare * totalBytes as real == g.bytes as real else s.bytesShare == 0.0)
      && (if g.pulls + g.errors > 0 then s.errorRate * (g.pulls + g.errors) as real == g.errors as real
          else s.errorRate == 0.0)
  {
    if totalPulls > 0 { DivideBack(g.pulls, totalPulls); }
    if totalBytes > 0 { DivideBack(g.bytes, totalBytes); }
    if g.pulls + g.errors > 0 { DivideBack(g.errors, g.pulls + g.errors); }
  }

  lemma {:induction false} DivideBack(part: int, total: int)
    requires total > 0
    ensures (part as real / total as real) * total as real == part as real
  {
  }

  /**
   * registryShare: per registry its sums, its error rate and its fractions of the range totals. The pull
   * shares of a range with pulls sum to 1.
   */
  method RegistryShares(q: seq<GroupRow>, ghost t: seq<DailyRow>, lo: int, hi: int) returns (out: seq<Share>)
    requires IsRegistryGroup(q, t, lo, hi)
    ensures |out| == |q|
    ensures forall i :: 0 <= i < |q| ==>
      out[i] == FullShare(q[i], SumDaily(t, lo, hi, Pulls), SumDaily(t, lo, hi, Bytes))
    ensures SumDaily(t, lo, hi, Pulls) > 0 ==> PullShares(out) == 1.0
  {
    out := [];
    var totalPulls, totalBytes := 0, 0;
    for i := 0 to |q|
      invariant |out| == i
      invariant totalPulls == GroupSum(q[..i], Pulls) && totalBytes == GroupSum(q[..i], Bytes)
      invariant forall k :: 0 <= k < i ==> out[k] == BaseShare(q[k])
    {
      var denom := q[i].pulls + q[i].errors;
      var rate := 0.0;
      if denom > 0 {
        rate := q[i].errors as real / denom as real;
      }
      assert q[..i + 1][..i] == q[..i];
      totalPulls := totalPulls + q[i].pulls;
      totalBytes := totalBytes + q[i].bytes;
      out := out + [Share(q[i].registry, q[i].pulls, q[i].bytes, q[i].errors, rate, 0.0, 0.0)];
    }
    assert q[..|q|] == q;
    assert totalPulls == SumDaily(t, lo, hi, Pulls) by { RegistriesAddUp(q, t, lo, hi, Pulls); }
    assert totalBytes == SumDaily(t, lo, hi, Bytes) by { RegistriesAddUp(q, t, lo, hi, Bytes); }
    for i := 0 to |out|
      invariant |out| == |q|
      invariant forall k :: i <= k < |q| ==> out[k] == BaseShare(q[k])
      invariant forall k :: 0 <= k < i ==> out[k] == FullShare(q[k], totalPulls, totalBytes)
    {
      if totalPulls > 0 {
        out := out[i := out[i].(pullShare := out[i].pulls as real / totalPulls as real)];
      }
      if totalBytes > 0 {
        out := out[i := out[i].(bytesShare := out[i].bytes as real / totalBytes as real)];
      }
    }
    if totalPulls > 0 {
      SharesSumToOne(out, q, totalPulls);
    }
  }

  lemma {:induction false} SharesSumToOne(out: seq<Share>, q: seq<GroupRow>, total: int)
    requires total > 0 && total == GroupSum(q, Pulls) && |out| == |q|
    requires forall i :: 0 <= i < |q| ==> out[i].pullShare == q[i].pulls as real / total as real
    ensures PullShares(out) == 1.0
  {
    SharesSum(out, q, total);
    Whole(total);
  }

  // ---- Timeseries, ImageAnalytics ----

  datatype DayPoint = DayPoint(day: int, pulls: int, bytes: int, errors: int)

  function PointValue(p: DayPoint, m: Measure): int {
    match m
    case Pulls => p.pulls
    case Bytes => p.bytes
    case Errors => p.errors
  }

  /** p shows the totals of its day within the slice. */
  ghost predicate PointOf(p: DayPoint, t: seq<DailyRow>, s: Slice) {
    forall m :: PointValue(p, m) == DailyTotal(t, DaySlice(s, p.day), m)
  }

  /** SELECT day, SUM.. FROM stats_daily WHERE <slice> GROUP BY day (for one image: no GROUP BY, the key is unique) */
  ghost predicate IsDayGroup(q: seq<DayPoint>, t: seq<DailyRow>, s: Slice) {
    && (forall i, j :: 0 <= i < j < |q| ==> q[i].day < q[j].day)
    && (forall i :: 0 <= i < |q| ==> s.lo <= q[i].day <= s.hi && PointOf(q[i], t, s))
    && (forall d :: d in t && InSlice(s, d.day, d.registry, d.repository) ==>
      exists i :: 0 <= i < |q| && q[i].day == d.day)
  }

  lemma {:induction false} NoRowsNoTotal(t: seq<DailyRow>, s: Slice, m: Measure)
    requires forall d :: d in t ==> !InSlice(s, d.day, d.registry, d.repository)
    ensures DailyTotal(t, s, m) == 0
  {
    if t != [] {
      assert t[0] in t && forall d :: d in t[1..] ==> d in t;
      NoRowsNoTotal(t[1..], s, m);
    }
  }

  /** The loops of Timeseries and ImageAnalytics: index the query by day, then fill every day of the range. */
  method FillDays(q: seq<DayPoint>, ghost t: seq<DailyRow>, ghost s: Slice, lo: int, days: nat) returns (out: seq<DayPoint>)
    requires s.lo == lo && s.hi == lo + days - 1 && IsDayGroup(q, t, s)
    ensures |out| == days
    ensures forall i :: 0 <= i < days ==> out[i].day == lo + i && PointOf(out[i], t, s)
  {
    var byDay: map<int, DayPoint> := map[];
    for i := 0 to |q|
      invariant forall d :: d in byDay <==> exists k :: 0 <= k < i && q[k].day == d
      invariant forall d :: d in byDay ==> byDay[d].day == d && PointOf(byDay[d], t, s)
    {
      byDay := byDay[q[i].day := q[i]];
    }
    out := [];
    for i := 0 to days
      invariant |out| == i
      invariant forall k :: 0 <= k < i ==> out[k].day == lo + k && PointOf(out[k], t, s)
    {
      var d := lo + i;
      if d in byDay {
        out := out + [byDay[d]];
      } else {
        forall m ensures DailyTotal(t, DaySlice(s, d), m) == 0 {
          NoRowsNoTotal(t, DaySlice(s, d), m);
        }
        out := out + [DayPoint(d, 0, 0, 0)];
      }
    }
  }

  function SeriesSum(out: seq<DayPoint>, m: Measure): int {
    if out == [] then 0 else PointValue(out[0], m) + SeriesSum(out[1..], m)
  }

  lemma {:induction false} SeriesIsDays(out: seq<DayPoint>, t: seq<DailyRow>, s: Slice, lo: int, m: Measure)
    requires forall i :: 0 <= i < |out| ==> out[i].day == lo + i && PointOf(out[i], t, s)
    ensures SeriesSum(out, m) == TotalOver(DaySlices(s, lo, |out|), t, m)
  {
    if out != [] {
      SeriesIsDays(out[1..], t, s, lo + 1, m);
    }
  }

  /** A series that shows each day of [lo, hi] adds up to the sum over the range. */
  lemma SeriesAddsUp(out: seq<DayPoint>, t: seq<DailyRow>, s: Slice, m: Measure)
    requires |out| == s.hi - s.lo + 1
    requires forall i :: 0 <= i < |out| ==> out[i].day == s.lo + i && PointOf(out[i], t, s)
    ensures SeriesSum(out, m) == DailyTotal(t, s, m)
  {
    SeriesIsDays(out, t, s, s.lo, m);
    var parts := DaySlices(s, s.lo, |out|);
    forall d | d in t ensures Hits(parts, d) == if InSlice(s, d.day, d.registry, d.repository) then 1 else 0 {
      DayHits(s, s.lo, |out|, d);
      assert s.(lo := s.lo, hi := s.lo + |out| - 1) == s;
    }
    PartsAddUp(parts, s, t, m);
  }

  function Filter(registry: string): Option<string> {
    if registry == "" then None else Some(registry)
  }

  /**
   * Timeseries: an error for a bad range, otherwise one point for each of the n days ending today; without a
   * registry filter the points add up to sumDaily over the range.
   */
  method Timeseries(text: string, registry: string, now: int, ghost t: seq<DailyRow>, q: seq<DayPoint>)
    returns (out: Option<seq<DayPoint>>)
    requires ParseRange(text, now).Some? ==>
      IsDayGroup(q, t, Slice(ParseRange(text, now).value.lo, Day(now), Filter(TrimSpace(registry)), None))
    ensures out.None? <==> ParseRange(text, now).None?
    ensures out.Some? ==> var r := ParseRange(text, now).value;
      var s := Slice(r.lo, r.hi, if TrimSpace(registry) == "" then None else Some(TrimSpace(registry)), None);
      && |out.value| == r.days
      && (forall i :: 0 <= i < r.days ==> out.value[i].day == r.lo + i && PointOf(out.value[i], t, s))
      && (forall m :: SeriesSum(out.value, m) == DailyTotal(t, s, m))
  {
    var r := ParseRange(text, now);
    if r.None? {
      return None;
    }
    RangeCoversDays(text, now);
    ghost var s := Slice(r.value.lo, r.value.hi, Filter(TrimSpace(registry)), None);
    var points := FillDays(q, t, s, r.value.lo, r.value.days);
    forall m ensures SeriesSum(points, m) == DailyTotal(t, s, m) {
      SeriesAddsUp(points, t, s, m);
    }
    out := Some(points);
  }

  /** ImageAnalytics: the same for one image. */
  method ImageAnalytics(registry: string, repository: string, text: string, now: int, ghost t: seq<DailyRow>, q: seq<DayPoint>)
    returns (out: Option<seq<DayPoint>>)
    requires ParseRange(text, now).Some? ==>
      IsDayGroup(q, t, Slice(ParseRange(text, now).value.lo, Day(now), Some(registry), Some(repository)))
    ensures out.None? <==> ParseRange(text, now).None?
    ensures out.Some? ==> var r := ParseRange(text, now).value;
      var s := Slice(r.lo, r.hi, Some(registry), Some(repository));
      && |out.value| == r.days
      && (forall i :: 0 <= i < r.days ==> out.value[i].day == r.lo + i && PointOf(out.value[i], t, s))
      && (forall m :: SeriesSum(out.value, m) == DailyTotal(t, s, m))
  {
    var r := ParseRange(text, now);
    if r.None? {
      return None;
    }
    RangeCoversDays(text, now);
    ghost var s := Slice(r.value.lo, r.value.hi, Some(registry), Some(repository));
    var points := FillDays(q, t, s, r.value.lo, r.value.days);
    forall m ensures SeriesSum(points, m) == DailyTotal(t, s, m) {
      SeriesAddsUp(points, t, s, m);
    }
    out := Some(points);
  }

  // ---- per image ----

  datatype Image = Image(registry: string, repository: string)

  function ImageSlice(im: Image, lo: int, hi: int): Slice {
    Slice(lo, hi, Some(im.registry), Some(im.repository))
  }

  function ImageSlices(ims: seq<Image>, lo: int, hi: int): seq<Slice> {
    if ims == [] then [] else [ImageSlice(ims[0], lo, hi)] + ImageSlices(ims[1..], lo, hi)
  }

  lemma {:induction false} ImageHits(ims: seq<Image>, lo: int, hi: int, d: DailyRow)
    requires forall i, j :: 0 <= i < j < |ims| ==> ims[i] != ims[j]
    ensures Hits(ImageSlices(ims, lo, hi), d) ==
      if lo <= d.day <= hi && Image(d.registry, d.repository) in ims then 1 else 0
  {
    if ims != [] {
      ImageHits(ims[1..], lo, hi, d);
      assert ims == [ims[0]] + ims[1..];
    }
  }

  /** Over any list of all images in the range, each once, the per-image totals add up to sumDaily. */
  lemma {:induction false} ImagesAddUp(ims: seq<Image>, t: seq<DailyRow>, lo: int, hi: int, m: Measure)
    requires forall i, j :: 0 <= i < j < |ims| ==> ims[i] != ims[j]
    requires forall d :: d in t && lo <= d.day <= hi ==> Image(d.registry, d.repository) in ims
    ensures TotalOver(ImageSlices(ims, lo, hi), t, m) == SumDaily(t, lo, hi, m)
  {
    forall d | d in t ensures Hits(ImageSlices(ims, lo, hi), d) ==
        if InSlice(Slice(lo, hi, None, None), d.day, d.registry, d.repository) then 1 else 0
    {
      ImageHits(ims, lo, hi, d);
    }
    PartsAddUp(ImageSlices(ims, lo, hi), Slice(lo, hi, None, None), t, m);
  }

  // ---- Summary ----

  lemma {:induction false} LogCountsNonneg(rows: seq<Row>, s: Slice)
    ensures LogTotal(rows, s, Pulls) >= 0 && LogTotal(rows, s, Errors) >= 0
  {
    if rows != [] {
      LogCountsNonneg(rows[1..], s);
    }
  }

  lemma {:induction false} RateIsFraction(errors: int, pulls: int)
    requires errors >= 0 && pulls >= 0
    ensures 0.0 <= Rate(errors, pulls) <= 1.0 && (Rate(errors, pulls) == 0.0 <==> errors == 0)
  {
    if pulls + errors > 0 {
      var e, n := errors as real, (pulls + errors) as real;
      assert e / n * n == e;
      assert e <= n;
    }
  }

  /** The dashboard error rate is a fraction, and is 0 exactly when no manifest request failed. */
  lemma ErrorRateIsFraction(t: seq<DailyRow>, rows: seq<Row>, s: Slice)
    requires IsDailyView(t, rows)
    ensures var r := Rate(DailyTotal(t, s, Errors), DailyTotal(t, s, Pulls));
      0.0 <= r <= 1.0 && (r == 0.0 <==> DailyTotal(t, s, Errors) == 0)
  {
    LogCountsNonneg(rows, s);
    RateIsFraction(DailyTotal(t, s, Errors), DailyTotal(t, s, Pulls));
  }

  // ---- ListImages: pulls straight from the log ----

  /** The CASE expression of ListImages, which upper-cases the method but does not trim it. */
  predicate SqlPull(e: Event) {
    e.eventType == MANIFEST && ToUpper(e.verb) in {"", "GET"} && 200 <= e.status < 300
  }

  /** It agrees with IsPull except on a successful manifest request whose padded method trims to GET or nothing. */
  lemma SqlPullIsExact(e: Event)
    ensures (SqlPull(e) <==> e.IsPull()) <==> !(e.IsPull() && !Trimmed(e.verb, IsSpace))
  {
    TrimSpec(e.verb, IsSpace);
    if ToUpper(e.verb) in {"", "GET"} {
      assert |e.verb| == |ToUpper(e.verb)|;
      if e.verb != "" {
        assert UpperChar(e.verb[0]) == 'G' && UpperChar(e.verb[2]) == 'T';
      }
    }
  }

  function ListImagePulls(rows: seq<Row>, im: Image): int {
    if rows == [] then 0
    else (if rows[0].col.registry == im.registry && rows[0].col.repository == im.repository && SqlPull(rows[0].col)
          then 1 else 0) + ListImagePulls(rows[1..], im)
  }

  /** For unpadded methods the image list counts the pulls that stats_daily counts for the same rows. */
  lemma {:induction false} ListImagesMatchesLog(rows: seq<Row>, im: Image, lo: int, hi: int)
    requires forall r :: r in rows ==> Trimmed(r.col.verb, IsSpace) && lo <= Day(r.ts) <= hi
    ensures ListImagePulls(rows, im) == LogTotal(rows, ImageSlice(im, lo, hi), Pulls)
  {
    if rows != [] {
      assert rows[0] in rows && forall r :: r in rows[1..] ==> r in rows;
      SqlPullIsExact(rows[0].col);
      ListImagesMatchesLog(rows[1..], im, lo, hi);
    }
  }
}
