/** RFC 8785 numbers (section 3.2.2.3): ECMAScript's Number::toString over exact decimals.

    A finite non-zero float reaches `canonicalDigits` as its shortest round-trip digits and an exponent,
    meaning 0.digits x 10^n. Digit strings produced by FormatFloat neither start nor end with '0'. */
module Decimal {

  // ---- digit strings --------------------------------------------------------------------------

  predicate IsDigit(c: char) { '0' <= c <= '9' }

  predicate AllDigits(s: string) { forall i :: 0 <= i < |s| ==> IsDigit(s[i]) }

  /** The digits FormatFloat(f, 'e', -1, 64) yields for a finite non-zero f. */
  predicate Normal(d: string) {
    d != "" && AllDigits(d) && d[0] != '0' && d[|d| - 1] != '0'
  }

  function Zeros(k: int): (s: string)
    ensures |s| == (if k < 0 then 0 else k)
    ensures forall i :: 0 <= i < |s| ==> s[i] == '0'
  {
    if k <= 0 then "" else seq(k, _ => '0')
  }

  function DigitOf(v: nat): (c: char)
    requires v < 10
    ensures IsDigit(c) && c as int - '0' as int == v
  {
    '0' + v as char
  }

  /** strconv.Itoa on a natural number. */
  function NatText(v: nat): (s: string)
    ensures s != "" && AllDigits(s)
    ensures v > 0 ==> s[0] != '0'
  {
    if v < 10 then [DigitOf(v)] else NatText(v / 10) + [DigitOf(v % 10)]
  }

  /** strconv.Itoa / strconv.AppendInt. */
  function IntText(v: int): string {
    if v < 0 then "-" + NatText(-v) else NatText(v)
  }

  function DigitsVal(d: string): nat
    requires AllDigits(d)
  {
    if d == "" then 0
    else DigitsVal(d[..|d| - 1]) * 10 + (d[|d| - 1] as int - '0' as int)
  }

  lemma {:induction false} NatTextVal(v: nat)
    ensures DigitsVal(NatText(v)) == v
  {
    if v < 10 {
      assert NatText(v)[..0] == "";
    } else {
      NatTextVal(v / 10);
      assert NatText(v)[..|NatText(v)| - 1] == NatText(v / 10);
    }
  }

  // ---- the code -------------------------------------------------------------------------------

  function CanonicalExponent(e: int): string {
    if e >= 0 then "+" + IntText(e) else IntText(e)
  }

  function CanonicalDigits(digits: string, n: int): string
    requires digits != ""
  {
    var k := |digits|;
    if k <= n <= 21 then digits + Zeros(n - k)
    else if 0 < n <= 21 then digits[..n] + "." + digits[n..]
    else if -6 < n <= 0 then "0." + Zeros(-n) + digits
    else if k == 1 then digits + "e" + CanonicalExponent(n - 1)
    else digits[..1] + "." + digits[1..] + "e" + CanonicalExponent(n - 1)
  }

  // ---- what a JSON number text denotes, independent of the printer ---------------------------

  /** A number text split by the JSON grammar: integer part, fraction part, exponent. */
  datatype Literal = Literal(ip: string, fp: string, ex: int)

  /** strings.Cut: what precedes the first c, and what follows it (empty when c is absent). */
  function Cut(s: string, c: char): (r: (string, string))
    ensures |r.0| + |r.1| <= |s|
  {
    if s == "" then ("", "")
    else if s[0] == c then ("", s[1..])
    else var t := Cut(s[1..], c); ([s[0]] + t.0, t.1)
  }

  function ReadDigits(s: string): nat {
    if AllDigits(s) then DigitsVal(s) else 0
  }

  function ReadExponent(s: string): int {
    if s == "" then 0
    else if s[0] == '-' then -(ReadDigits(s[1..]) as int)
    else if s[0] == '+' then ReadDigits(s[1..])
    else ReadDigits(s)
  }

  function ReadLiteral(text: string): Literal {
    var (mantissa, exponent) := Cut(text, 'e');
    var (ip, fp) := Cut(mantissa, '.');
    Literal(ip, fp, ReadExponent(exponent))
  }

  function Pow10(k: nat): (p: nat)
    ensures p >= 1
  {
    if k == 0 then 1 else 10 * Pow10(k - 1)
  }

  /** The exact number m x 10^e. */
  datatype Exact = Exact(m: nat, e: int)

  /** m x 10^e == m' x 10^e', compared at the smaller of the two exponents. */
  predicate Same(x: Exact, y: Exact) {
    if x.e >= y.e then x.m * Pow10(x.e - y.e) == y.m else x.m == y.m * Pow10(y.e - x.e)
  }

  /** ip.fp x 10^ex. */
  ghost function LiteralNumber(l: Literal): Exact
    requires AllDigits(l.ip) && AllDigits(l.fp)
  {
    Exact(DigitsVal(l.ip + l.fp), l.ex - |l.fp|)
  }

  /** 0.d x 10^n. */
  ghost function Number(d: string, n: int): Exact
    requires AllDigits(d)
  {
    Exact(DigitsVal(d), n - |d|)
  }

  // ---- reading the text back -----------------------------------------------------------------

  lemma {:induction false} CutFound(a: string, c: char, b: string)
    requires c !in a
    ensures Cut(a + [c] + b, c) == (a, b)
  {
    var s := a + [c] + b;
    if a == "" {
      assert s[1..] == b;
    } else {
      assert s[0] == a[0] && s[1..] == a[1..] + [c] + b;
      CutFound(a[1..], c, b);
      assert a == [a[0]] + a[1..];
    }
  }

  lemma {:induction false} CutAbsent(s: string, c: char)
    requires c !in s
    ensures Cut(s, c) == (s, "")
  {
    if s != "" {
      CutAbsent(s[1..], c);
      assert s == [s[0]] + s[1..];
    }
  }

  lemma ReadExponentBack(e: int)
    ensures ReadExponent(CanonicalExponent(e)) == e
    ensures 'e' !in CanonicalExponent(e) && '.' !in CanonicalExponent(e)
  {
    var v := if e < 0 then -e else e;
    NatTextVal(v);
    var t := CanonicalExponent(e);
    assert t[1..] == NatText(v);
    forall i | 0 <= i < |t| ensures t[i] != 'e' && t[i] != '.' {
      if i > 0 { assert t[i] == NatText(v)[i - 1]; }
    }
  }

  /** The literal the grammar reads out of a canonical text, case by case. */
  function ExpectedLiteral(d: string, n: int): Literal
    requires d != ""
  {
    var k := |d|;
    if k <= n <= 21 then Literal(d + Zeros(n - k), "", 0)
    else if 0 < n <= 21 then Literal(d[..n], d[n..], 0)
    else if -6 < n <= 0 then Literal("0", Zeros(-n) + d, 0)
    else Literal(d[..1], d[1..], n - 1)
  }

  lemma DigitsHaveNoMark(s: string)
    requires AllDigits(s)
    ensures 'e' !in s && '.' !in s
  {}

  function Mantissa(ip: string, fp: string): string {
    if fp == "" then ip else ip + "." + fp
  }

  lemma ReadMantissa(ip: string, fp: string, ex: string)
    requires AllDigits(ip) && AllDigits(fp)
    ensures ReadLiteral(Mantissa(ip, fp)) == Literal(ip, fp, 0)
    ensures ReadLiteral(Mantissa(ip, fp) + "e" + ex) == Literal(ip, fp, ReadExponent(ex))
  {
    DigitsHaveNoMark(ip);
    DigitsHaveNoMark(fp);
    var m := Mantissa(ip, fp);
    if fp == "" { CutAbsent(ip, '.'); } else { CutFound(ip, '.', fp); }
    assert 'e' !in m;
    hide Cut, AllDigits;
    CutAbsent(m, 'e');
    CutFound(m, 'e', ex);
  }

  /** The grammar splits a canonical text as ExpectedLiteral says. */
  lemma CanonicalShape(d: string, n: int)
    requires d != ""
    ensures var l := ExpectedLiteral(d, n);
      CanonicalDigits(d, n) == Mantissa(l.ip, l.fp)
        + (if n > 21 || n <= -6 then "e" + CanonicalExponent(n - 1) else "")
  {
    hide CanonicalExponent, Zeros;
    var ex := "e" + CanonicalExponent(n - 1);
    if n > 21 || n <= -6 {
      assert |d| == 1 ==> d[..1] == d && d[1..] == "";
      assert CanonicalDigits(d, n) == Mantissa(d[..1], d[1..]) + ex;
    } else if -6 < n <= 0 {
      assert "0." + Zeros(-n) + d == "0" + "." + (Zeros(-n) + d);
    }
  }

  lemma ExpectedLiteralParts(d: string, n: int)
    requires d != "" && AllDigits(d)
    ensures var l := ExpectedLiteral(d, n);
      AllDigits(l.ip) && AllDigits(l.fp) && l.ex == (if n > 21 || n <= -6 then n - 1 else 0)
  {}

  lemma ReadCanonical(d: string, n: int)
    requires d != "" && AllDigits(d)
    ensures ReadLiteral(CanonicalDigits(d, n)) == ExpectedLiteral(d, n)
  {
    hide *;
    var l := ExpectedLiteral(d, n);
    ExpectedLiteralParts(d, n);
    ReadMantissa(l.ip, l.fp, CanonicalExponent(n - 1));
    ReadExponentBack(n - 1);
    CanonicalShape(d, n);
    if n > 21 || n <= -6 {
      assert Mantissa(l.ip, l.fp) + ("e" + CanonicalExponent(n - 1))
          == Mantissa(l.ip, l.fp) + "e" + CanonicalExponent(n - 1);
    } else {
      assert Mantissa(l.ip, l.fp) + "" == Mantissa(l.ip, l.fp);
    }
  }

  // ---- exactness -----------------------------------------------------------------------------

  lemma {:induction false} LeadingZeros(k: nat, d: string)
    requires AllDigits(d)
    ensures AllDigits(Zeros(k) + d) && DigitsVal(Zeros(k) + d) == DigitsVal(d)
    decreases k + |d|
  {
    var s := Zeros(k) + d;
    if d != "" {
      assert s[..|s| - 1] == Zeros(k) + d[..|d| - 1];
      LeadingZeros(k, d[..|d| - 1]);
    } else if k > 0 {
      assert s[..|s| - 1] == Zeros(k - 1) + d;
      LeadingZeros(k - 1, d);
    }
  }

  lemma TimesTen(m: nat, k: nat)
    requires k > 0
    ensures m * Pow10(k) == (m * Pow10(k - 1)) * 10
  {
    var p := Pow10(k - 1);
    assert Pow10(k) == 10 * p;
    hide Pow10;
    assert m * (10 * p) == (m * p) * 10;
  }

  lemma AppendZero(d: string, k: nat)
    requires AllDigits(d) && k > 0
    ensures AllDigits(d + Zeros(k)) && AllDigits(d + Zeros(k - 1))
    ensures DigitsVal(d + Zeros(k)) == DigitsVal(d + Zeros(k - 1)) * 10
  {
    var s := d + Zeros(k);
    assert s[..|s| - 1] == d + Zeros(k - 1) && s[|s| - 1] == '0';
  }

  lemma {:induction false} TrailingZeros(d: string, k: nat)
    requires AllDigits(d)
    ensures AllDigits(d + Zeros(k))
    ensures DigitsVal(d + Zeros(k)) == DigitsVal(d) * Pow10(k)
  {
    if k == 0 {
      assert d + Zeros(k) == d && Pow10(0) == 1;
    } else {
      hide *;
      AppendZero(d, k);
      TrailingZeros(d, k - 1);
      TimesTen(DigitsVal(d), k);
    }
  }

  lemma SameScaled(m: nat, k: nat, e: int)
    ensures Same(Exact(m, k + e), Exact(m * Pow10(k), e))
    ensures k == 0 ==> m * Pow10(k) == m
  {}

  lemma ExpectedLiteralDigits(d: string, n: int)
    requires d != "" && AllDigits(d)
    ensures var l := ExpectedLiteral(d, n);
      AllDigits(l.ip) && AllDigits(l.fp)
      && DigitsVal(l.ip + l.fp) == DigitsVal(d) * Pow10(if |d| <= n <= 21 then n - |d| else 0)
  {
    var l, k := ExpectedLiteral(d, n), |d|;
    SameScaled(DigitsVal(d), 0, 0);
    if k <= n <= 21 {
      TrailingZeros(d, n - k);
      assert l.ip + l.fp == d + Zeros(n - k);
    } else if -6 < n <= 0 {
      assert l.ip + l.fp == Zeros(1 - n) + d;
      LeadingZeros(1 - n, d);
    } else {
      assert l.ip + l.fp == d;
    }
  }

  lemma ExpectedLiteralExact(d: string, n: int)
    requires d != "" && AllDigits(d)
    ensures var l := ExpectedLiteral(d, n);
      AllDigits(l.ip) && AllDigits(l.fp) && Same(Number(d, n), LiteralNumber(l))
  {
    var k := if |d| <= n <= 21 then n - |d| else 0;
    ExpectedLiteralDigits(d, n);
    SameScaled(DigitsVal(d), k, n - |d| - k);
  }

  /** Every canonical text denotes exactly 0.digits x 10^n, in all five ECMAScript cases. */
  lemma CanonicalDigitsExact(d: string, n: int)
    requires d != "" && AllDigits(d)
    ensures var l := ReadLiteral(CanonicalDigits(d, n));
      AllDigits(l.ip) && AllDigits(l.fp) && Same(Number(d, n), LiteralNumber(l))
  {
    ReadCanonical(d, n);
    ExpectedLiteralExact(d, n);
  }

  // ---- uniqueness ----------------------------------------------------------------------------

  lemma {:induction false} LeadingDigitCounts(d: string)
    requires d != "" && AllDigits(d) && d[0] != '0'
    ensures DigitsVal(d) >= 1 && (|d| > 1 ==> DigitsVal(d) >= 10)
  {
    if |d| == 1 {
      assert d[..0] == "";
    } else {
      LeadingDigitCounts(d[..|d| - 1]);
    }
  }

  lemma {:induction false} SameValueSameDigits(a: string, b: string)
    requires a != "" && b != "" && AllDigits(a) && AllDigits(b)
    requires a[0] != '0' && b[0] != '0' && DigitsVal(a) == DigitsVal(b)
    ensures a == b
  {
    LeadingDigitCounts(a);
    LeadingDigitCounts(b);
    var a', b' := a[..|a| - 1], b[..|b| - 1];
    assert DigitsVal(a') == DigitsVal(b') && a[|a| - 1] == b[|b| - 1];
    if |a| > 1 && |b| > 1 {
      SameValueSameDigits(a', b');
    }
    assert a == a' + [a[|a| - 1]] && b == b' + [b[|b| - 1]];
  }

  lemma ScaledEndsInZero(a: nat, k: nat)
    requires k > 0
    ensures (a * Pow10(k)) % 10 == 0
  {
    TimesTen(a, k);
    hide Pow10;
    var b := a * Pow10(k - 1);
    assert (b * 10) % 10 == 0;
  }

  lemma LastDigitCounts(d: string)
    requires Normal(d)
    ensures DigitsVal(d) % 10 != 0
  {
    var last := d[|d| - 1] as int - '0' as int;
    assert 0 < last < 10;
    assert DigitsVal(d) == DigitsVal(d[..|d| - 1]) * 10 + last;
  }

  /** A normalized decimal is determined by the number it denotes. */
  lemma NormalUnique(d: string, n: int, d': string, n': int)
    requires Normal(d) && Normal(d') && Same(Number(d, n), Number(d', n'))
    ensures d == d' && n == n'
  {
    var e, e' := n - |d|, n' - |d'|;
    LastDigitCounts(d);
    LastDigitCounts(d');
    if e > e' {
      ScaledEndsInZero(DigitsVal(d), e - e');
      assert false;
    } else if e' > e {
      ScaledEndsInZero(DigitsVal(d'), e' - e);
      assert false;
    } else {
      assert DigitsVal(d) == DigitsVal(d') by { SameScaled(DigitsVal(d), 0, e); }
      SameValueSameDigits(d, d');
    }
  }

  // ---- the reader inverts the printer ---------------------------------------------------------

  function LeadingCount(s: string): (k: nat)
    ensures k <= |s|
  {
    if s == "" || s[0] != '0' then 0 else 1 + LeadingCount(s[1..])
  }

  function TrimRight(s: string): string {
    if s == "" || s[|s| - 1] != '0' then s else TrimRight(s[..|s| - 1])
  }

  /** The normalized pair (d, n) with 0.d x 10^n equal to the literal. */
  function Normalize(l: Literal): (string, int) {
    var s := l.ip + l.fp;
    var k := LeadingCount(s);
    (TrimRight(s[k..]), |l.ip| + l.ex - k)
  }

  lemma {:induction false} LeadingCountOf(k: nat, d: string)
    requires d != "" && d[0] != '0'
    ensures LeadingCount(Zeros(k) + d) == k
  {
    var s := Zeros(k) + d;
    if k == 0 {
      assert s == d;
    } else {
      assert s[1..] == Zeros(k - 1) + d;
      LeadingCountOf(k - 1, d);
    }
  }

  lemma {:induction false} TrimRightOf(d: string, k: nat)
    requires d != "" && d[|d| - 1] != '0'
    ensures TrimRight(d + Zeros(k)) == d
  {
    var s := d + Zeros(k);
    if k == 0 {
      assert s == d;
    } else {
      assert s[..|s| - 1] == d + Zeros(k - 1);
      TrimRightOf(d, k - 1);
    }
  }

  lemma NormalizeFrom(l: Literal, lead: nat, t: string)
    requires LeadingCount(l.ip + l.fp) == lead <= |l.ip + l.fp| && (l.ip + l.fp)[lead..] == t
    ensures Normalize(l) == (TrimRight(t), |l.ip| + l.ex - lead)
  {
    hide LeadingCount, TrimRight;
  }

  lemma PaddedNormalizes(l: Literal, lead: nat, d: string, trail: nat)
    requires Normal(d) && l.ip + l.fp == Zeros(lead) + (d + Zeros(trail))
    ensures Normalize(l) == (d, |l.ip| + l.ex - lead)
  {
    var t := d + Zeros(trail);
    hide *;
    NormalEnds(d);
    assert t[0] == d[0];
    LeadingCountOf(lead, t);
    TrimRightOf(d, trail);
    assert (Zeros(lead) + t)[lead..] == t;
    NormalizeFrom(l, lead, t);
  }

  lemma NormalEnds(d: string)
    requires Normal(d)
    ensures d != "" && AllDigits(d) && d[0] != '0' && d[|d| - 1] != '0'
  {}

  lemma ExpectedLiteralNormalizes(d: string, n: int)
    requires Normal(d)
    ensures Normalize(ExpectedLiteral(d, n)) == (d, n)
  {
    hide Normalize;
    var l, k := ExpectedLiteral(d, n), |d|;
    var lead := if -6 < n <= 0 then 1 - n else 0;
    var trail := if k <= n <= 21 then n - k else 0;
    assert l.ip + l.fp == Zeros(lead) + (d + Zeros(trail));
    PaddedNormalizes(l, lead, d, trail);
  }

  /** Reading a canonical text gives back the digits and the exponent it was printed from. */
  lemma CanonicalDigitsRoundTrip(d: string, n: int)
    requires Normal(d)
    ensures Normalize(ReadLiteral(CanonicalDigits(d, n))) == (d, n)
  {
    ReadCanonical(d, n);
    ExpectedLiteralNormalizes(d, n);
  }

  /** Distinct normalized pairs print differently; equal ones alike. */
  lemma CanonicalDigitsInjective(d: string, n: int, d': string, n': int)
    requires Normal(d) && Normal(d')
    ensures CanonicalDigits(d, n) == CanonicalDigits(d', n') <==> d == d' && n == n'
  {
    CanonicalDigitsRoundTrip(d, n);
    CanonicalDigitsRoundTrip(d', n');
  }

  // ---- integers -------------------------------------------------------------------------------

  /** The normalized pair of a non-zero natural number. */
  function NatPair(v: nat): (string, int) {
    (TrimRight(NatText(v)), |NatText(v)|)
  }

  lemma {:induction false} TrimRightSplit(s: string)
    requires s != "" && AllDigits(s) && s[0] != '0'
    ensures Normal(TrimRight(s)) && |TrimRight(s)| <= |s|
    ensures s == TrimRight(s) + Zeros(|s| - |TrimRight(s)|)
  {
    if s[|s| - 1] == '0' {
      var t := s[..|s| - 1];
      TrimRightSplit(t);
      assert s == t + "0";
      assert Zeros(|t| - |TrimRight(t)|) + "0" == Zeros(|s| - |TrimRight(s)|);
    } else {
      assert s == s + Zeros(0);
    }
  }

  lemma {:induction false} NatTextLength(v: nat, k: nat)
    requires v < Pow10(k) && k > 0
    ensures |NatText(v)| <= k
  {
    if v >= 10 { NatTextLength(v / 10, k - 1); }
  }

  /** strconv's spelling of an int64 or uint64 is the canonical spelling of the same number: integers
      and floats of equal value print alike. */
  lemma IntegersPrintCanonically(v: nat)
    requires 0 < v < Pow10(21)
    ensures var (d, n) := NatPair(v);
      Normal(d) && NatText(v) == CanonicalDigits(d, n) && Same(Number(d, n), Exact(v, 0))
  {
    TrimRightSplit(NatText(v));
    NatTextLength(v, 21);
    NatTextVal(v);
    var (d, n) := NatPair(v);
    TrailingZeros(d, n - |d|);
  }

  lemma Uint64Fits()
    ensures 0x1_0000_0000_0000_0000 < Pow10(21)
  {
    assert Pow10(7) == 10_000_000;
    assert Pow10(14) == 10_000_000 * 10_000_000;
  }
}
