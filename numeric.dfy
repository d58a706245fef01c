/**
 * Decimal number tokens as the program reads and writes them.
 *
 * Readings are kept as decimal literals `mantissa / 10^scale`, so that a value read
 * from "23.5" is exactly 23.5 and printing it again gives back "23.5". Scanning
 * follows the shape of the C++ extractors used by the program (`std::stof`,
 * `std::stoi`, `operator>>` on float and on time_t): an optional sign, a run of
 * digits and, for decimals, an optional fraction; the longest such prefix is taken
 * and the rest of the text is left for the caller.
 */
module Numeric {
  import opened Wrappers

  /** A decimal literal: its value is mantissa / 10^scale. */
  datatype Decimal = Decimal(mantissa: int, scale: nat) {
    function Value(): real {
      mantissa as real / Pow10(scale) as real
    }
  }

  /** A whole number as a decimal literal without a fraction. */
  function Whole(n: int): (d: Decimal)
    ensures d.Value() == n as real
  {
    Decimal(n, 0)
  }

  function Pow10(n: nat): (r: nat)
    ensures r >= 1
  {
    if n == 0 then 1 else 10 * Pow10(n - 1)
  }

  /** `lo <= d.Value() <= hi`, compared on whole numbers: lo * 10^scale <= mantissa <= hi * 10^scale. */
  predicate Between(d: Decimal, lo: int, hi: int) {
    lo * Pow10(d.scale) <= d.mantissa <= hi * Pow10(d.scale)
  }

  /** 2^128 - 2^103: from this magnitude up, `strtof` rounds to infinity and reports `ERANGE`. */
  const FloatOverflow: real := 340282356779733661637539395458142568448.0

  /** `FLT_MIN`, 2^-126: below this magnitude, but above 0, `strtof` reports `ERANGE`. */
  const FloatMinNormal: real := 1.0 / 85070591730234615865843651857942052864.0

  /**
   * The values `std::stof` returns instead of throwing `std::out_of_range`: zero,
   * or a magnitude from `FLT_MIN` up to the largest that does not round to infinity.
   */
  predicate FloatRange(x: real) {
    x == 0.0 || (0.0 < x && FloatMinNormal <= x < FloatOverflow) || (x < 0.0 && FloatMinNormal <= -x < FloatOverflow)
  }

  lemma BetweenMeaning(d: Decimal, lo: int, hi: int)
    ensures Between(d, lo, hi) <==> lo as real <= d.Value() <= hi as real
  {
    LowerBound(lo, Pow10(d.scale), d.mantissa);
    UpperBound(hi, Pow10(d.scale), d.mantissa);
  }

  /** A bound on a fraction m / p, with p positive, compared on whole numbers. */
  lemma LowerBound(l: int, p: int, m: int)
    requires p > 0
    ensures l * p <= m <==> l as real <= m as real / p as real
  {
    var v := m as real / p as real;
    assert v * p as real == m as real;
    assert (l * p) as real == l as real * p as real;
    ScaledOrder(l as real, v, p as real);
  }

  lemma UpperBound(h: int, p: int, m: int)
    requires p > 0
    ensures m <= h * p <==> m as real / p as real <= h as real
  {
    var v := m as real / p as real;
    assert v * p as real == m as real;
    assert (h * p) as real == h as real * p as real;
    ScaledOrder(v, h as real, p as real);
  }

  /** Multiplying both sides by a positive number keeps their order. */
  lemma ScaledOrder(a: real, b: real, p: real)
    requires p > 0.0
    ensures a * p <= b * p <==> a <= b
  {
    assert b * p - a * p == (b - a) * p;
    if a > b {
      assert (a - b) * p > 0.0;
    }
  }

  predicate IsDigit(c: char) {
    '0' <= c <= '9'
  }

  /** The characters that `isspace` accepts in the C locale. */
  predicate IsSpace(c: char) {
    c == ' ' || '\t' <= c <= '\r'
  }

  predicate AllDigits(s: string) {
    forall i | 0 <= i < |s| :: IsDigit(s[i])
  }

  function DigitValue(c: char): (d: nat)
    requires IsDigit(c)
    ensures d < 10
  {
    c as int - '0' as int
  }

  function DigitChar(d: nat): (c: char)
    requires d < 10
    ensures IsDigit(c) && DigitValue(c) == d
  {
    ('0' as int + d) as char
  }

  /** The number a run of digits denotes, most significant digit first. */
  function DigitsValue(ds: string): nat
    requires AllDigits(ds)
  {
    if ds == [] then 0 else DigitsValue(ds[..|ds| - 1]) * 10 + DigitValue(ds[|ds| - 1])
  }

  /** The shortest decimal rendering of a natural number. */
  function NatToDigits(n: nat): (s: string)
    ensures 0 < |s| && AllDigits(s)
  {
    if n < 10 then [DigitChar(n)] else NatToDigits(n / 10) + [DigitChar(n % 10)]
  }

  /** The last `width` decimal digits of `n`, with leading zeros. */
  function PadDigits(n: nat, width: nat): (s: string)
    ensures |s| == width && AllDigits(s)
  {
    if width == 0 then [] else PadDigits(n / 10, width - 1) + [DigitChar(n % 10)]
  }

  lemma {:induction false} NatToDigitsValue(n: nat)
    ensures DigitsValue(NatToDigits(n)) == n
  {
    if n >= 10 {
      var s := NatToDigits(n);
      assert s[..|s| - 1] == NatToDigits(n / 10);
      NatToDigitsValue(n / 10);
    }
  }

  lemma {:induction false} PadDigitsValue(n: nat, width: nat)
    ensures DigitsValue(PadDigits(n, width)) == LowDigits(n, width)
  {
    if width > 0 {
      var s := PadDigits(n, width);
      assert s[..|s| - 1] == PadDigits(n / 10, width - 1);
      PadDigitsValue(n / 10, width - 1);
    }
  }

  /** Length of the longest prefix of `s` made of digits. */
  function LeadingDigits(s: string): (n: nat)
    ensures n <= |s| && AllDigits(s[..n])
    ensures n < |s| ==> !IsDigit(s[n])
  {
    if s == [] || !IsDigit(s[0]) then 0
    else
      var k := LeadingDigits(s[1..]);
      assert s[..1 + k] == [s[0]] + s[1..][..k];
      1 + k
  }

  /** Length of the longest prefix of `s` made of white space. */
  function LeadingSpaces(s: string): (n: nat)
    ensures n <= |s| && (forall i | 0 <= i < n :: IsSpace(s[i]))
    ensures n < |s| ==> !IsSpace(s[n])
  {
    if s == [] || !IsSpace(s[0]) then 0 else 1 + LeadingSpaces(s[1..])
  }

  /** `s` without its leading white space, as the C++ extractors skip it. */
  function SkipSpaces(s: string): (r: string)
    ensures r == s[LeadingSpaces(s)..]
    ensures r != [] ==> !IsSpace(r[0])
  {
    s[LeadingSpaces(s)..]
  }

  /** Whether `s` starts with "<digits>" or "<sign><digits>". */
  function SignLength(s: string): (n: nat)
    ensures n <= 1 && n <= |s|
  {
    if |s| > 0 && (s[0] == '-' || s[0] == '+') then 1 else 0
  }

  function ApplySign(s: string, magnitude: nat): int {
    if SignLength(s) == 1 && s[0] == '-' then -(magnitude as int) else magnitude
  }

  /**
   * The integer at the very start of `s` (optional sign, then digits) and the
   * number of characters it takes; None when there is no digit after the sign.
   */
  function ScanInt(s: string): (r: Option<(int, nat)>)
    ensures r.Some? ==> 0 < r.value.1 <= |s|
    ensures r.Some? ==> r.value.1 == |s| || !IsDigit(s[r.value.1])
    ensures r.None? <==> LeadingDigits(s[SignLength(s)..]) == 0
  {
    var sign := SignLength(s);
    var n := LeadingDigits(s[sign..]);
    if n == 0 then None
    else Some((ApplySign(s, DigitsValue(s[sign..][..n])), sign + n))
  }

  /**
   * The decimal at the very start of `s` (optional sign, digits, and optionally a
   * point followed by digits) and the number of characters it takes.
   */
  function ScanDecimal(s: string): (r: Option<(Decimal, nat)>)
    ensures r.Some? ==> 0 < r.value.1 <= |s|
    ensures r.Some? ==> r.value.1 == |s| || !IsDigit(s[r.value.1])
    ensures r.None? <==> LeadingDigits(s[SignLength(s)..]) == 0
  {
    var sign := SignLength(s);
    if LeadingDigits(s[sign..]) == 0 then None
    else
      var u := ScanUnsigned(s[sign..]);
      Some((Decimal(ApplySign(s, u.0), u.1), sign + u.2))
  }

  /**
   * An unsigned decimal at the start of `s`: its digits read as one number, the
   * number of fraction digits, and the number of characters taken.
   */
  function ScanUnsigned(s: string): (r: (nat, nat, nat))
    requires 0 < LeadingDigits(s)
    ensures 0 < r.2 <= |s|
    ensures r.2 == |s| || !IsDigit(s[r.2])
  {
    var n := LeadingDigits(s);
    var whole := DigitsValue(s[..n]);
    var rest := s[n..];
    if 2 <= |rest| && rest[0] == '.' && IsDigit(rest[1]) then
      var f := LeadingDigits(rest[1..]);
      (whole * Pow10(f) + DigitsValue(rest[1..][..f]), f, n + 1 + f)
    else
      (whole, 0, n)
  }

  /** How `operator<<` renders an integer. */
  function FormatInt(i: int): (s: string)
    ensures 0 < |s| && (s[0] == '-' || IsDigit(s[0]))
  {
    (if i < 0 then "-" else "") + NatToDigits(if i < 0 then -i else i)
  }

  function Magnitude(i: int): nat {
    if i < 0 then -i else i
  }

  /** `m` with its last `k` decimal digits dropped: m / 10^k. */
  function DropDigits(m: nat, k: nat): nat {
    if k == 0 then m else DropDigits(m / 10, k - 1)
  }

  /** The number formed by the last `k` decimal digits of `m`: m % 10^k. */
  function LowDigits(m: nat, k: nat): nat {
    if k == 0 then 0 else LowDigits(m / 10, k - 1) * 10 + m % 10
  }

  lemma {:induction false} SplitDigits(m: nat, k: nat)
    ensures DropDigits(m, k) * Pow10(k) + LowDigits(m, k) == m
    ensures LowDigits(m, k) < Pow10(k)
  {
    if k > 0 {
      SplitDigits(m / 10, k - 1);
      var d, l, p := DropDigits(m / 10, k - 1), LowDigits(m / 10, k - 1), Pow10(k - 1);
      assert Pow10(k) == 10 * p;
      assert DropDigits(m, k) == d;
      assert LowDigits(m, k) == l * 10 + m % 10;
      Regroup(d, p, l, m % 10);
      assert m == 10 * (m / 10) + m % 10;
      assert l * 10 + m % 10 < 10 * p by {
        assert l + 1 <= p;
        assert (l + 1) * 10 <= p * 10;
      }
    }
  }

  lemma Regroup(d: int, p: int, l: int, r: int)
    ensures d * (10 * p) + (l * 10 + r) == 10 * (d * p + l) + r
  {
  }

  /** A decimal literal rendered with exactly `scale` fraction digits. */
  function FormatDecimal(d: Decimal): (s: string)
    ensures 0 < |s| && (s[0] == '-' || IsDigit(s[0]))
  {
    var m := Magnitude(d.mantissa);
    (if d.mantissa < 0 then "-" else "") + NatToDigits(DropDigits(m, d.scale))
      + (if d.scale == 0 then "" else "." + PadDigits(m, d.scale))
  }

  /** A character that cannot continue a number token. */
  predicate EndsNumber(rest: string) {
    rest == [] || (!IsDigit(rest[0]) && rest[0] != '.')
  }

  lemma {:induction false} LeadingDigitsOfDigits(ds: string, rest: string)
    requires AllDigits(ds)
    requires rest == [] || !IsDigit(rest[0])
    ensures LeadingDigits(ds + rest) == |ds|
  {
    if ds != [] {
      assert (ds + rest)[1..] == ds[1..] + rest;
      LeadingDigitsOfDigits(ds[1..], rest);
    } else {
      assert ds + rest == rest;
    }
  }

  /** How a rendered number splits into its sign, its leading digits and the rest. */
  lemma SplitNumber(sign: string, ds: string, tail: string)
    requires sign == "" || sign == "-"
    requires 0 < |ds| && AllDigits(ds)
    requires tail == [] || !IsDigit(tail[0])
    ensures SignLength(sign + ds + tail) == |sign|
    ensures (sign + ds + tail)[|sign|..] == ds + tail
    ensures LeadingDigits(ds + tail) == |ds|
    ensures (ds + tail)[..|ds|] == ds
    ensures (sign + ds + tail)[|sign| + |ds|..] == tail
  {
    SignOf(sign, ds + tail);
    assert sign + ds + tail == sign + (ds + tail);
    LeadingDigitsOfDigits(ds, tail);
    assert (ds + tail)[..|ds|] == ds;
    assert (sign + (ds + tail))[|sign| + |ds|..] == (ds + tail)[|ds|..];
  }

  /** An optional minus sign in front of a text that starts with a digit. */
  lemma SignOf(sign: string, body: string)
    requires sign == "" || sign == "-"
    requires 0 < |body| && IsDigit(body[0])
    ensures SignLength(sign + body) == |sign|
    ensures (sign + body)[|sign|..] == body
  {
    if sign == "" {
      assert sign + body == body;
    } else {
      assert (sign + body)[0] == '-';
    }
  }

  /** Scanning the rendering of an integer gives the integer back. */
  lemma ScanFormatInt(i: int, rest: string)
    requires rest == [] || !IsDigit(rest[0])
    ensures ScanInt(FormatInt(i) + rest) == Some((i, |FormatInt(i)|))
  {
    var ds := NatToDigits(if i < 0 then -i else i);
    var sign: string := if i < 0 then "-" else "";
    assert FormatInt(i) + rest == sign + ds + rest;
    SplitNumber(sign, ds, rest);
    NatToDigitsValue(if i < 0 then -i else i);
  }

  /** Scanning the rendering of a decimal literal gives the same literal back. */
  lemma ScanFormatDecimal(d: Decimal, rest: string)
    requires EndsNumber(rest)
    ensures ScanDecimal(FormatDecimal(d) + rest) == Some((d, |FormatDecimal(d)|))
  {
    var m := Magnitude(d.mantissa);
    var ws := NatToDigits(DropDigits(m, d.scale));
    var sign: string := if d.mantissa < 0 then "-" else "";
    NatToDigitsValue(DropDigits(m, d.scale));
    SplitDigits(m, d.scale);
    if d.scale == 0 {
      ScanFormatWhole(d, sign, ws, rest);
    } else {
      ScanFormatFraction(d, sign, ws, rest);
    }
  }

  lemma ScanFormatWhole(d: Decimal, sign: string, ws: string, rest: string)
    requires EndsNumber(rest) && d.scale == 0
    requires sign == (if d.mantissa < 0 then "-" else "")
    requires ws == NatToDigits(DropDigits(Magnitude(d.mantissa), 0))
    requires DigitsValue(ws) == DropDigits(Magnitude(d.mantissa), 0)
    requires DropDigits(Magnitude(d.mantissa), 0) * Pow10(0) + LowDigits(Magnitude(d.mantissa), 0) == Magnitude(d.mantissa)
    requires LowDigits(Magnitude(d.mantissa), 0) < Pow10(0)
    ensures ScanDecimal(FormatDecimal(d) + rest) == Some((d, |FormatDecimal(d)|))
  {
    var s := FormatDecimal(d) + rest;
    assert s == sign + ws + rest;
    SplitNumber(sign, ws, rest);
  }

  lemma ScanFormatFraction(d: Decimal, sign: string, ws: string, rest: string)
    requires EndsNumber(rest) && 0 < d.scale
    requires sign == (if d.mantissa < 0 then "-" else "")
    requires ws == NatToDigits(DropDigits(Magnitude(d.mantissa), d.scale))
    requires DigitsValue(ws) == DropDigits(Magnitude(d.mantissa), d.scale)
    requires DigitsValue(ws) * Pow10(d.scale) + LowDigits(Magnitude(d.mantissa), d.scale)
             == Magnitude(d.mantissa)
    ensures ScanDecimal(FormatDecimal(d) + rest) == Some((d, |FormatDecimal(d)|))
  {
    var fs := PadDigits(Magnitude(d.mantissa), d.scale);
    PadDigitsValue(Magnitude(d.mantissa), d.scale);
    var tail := "." + fs + rest;
    var s := FormatDecimal(d) + rest;
    assert s == sign + ws + tail;
    SplitNumber(sign, ws, tail);
    ScanUnsignedFraction(ws, fs, rest);
    var u := ScanUnsigned(ws + tail);
    assert u.0 == Magnitude(d.mantissa) && u.1 == d.scale && u.2 == |ws| + 1 + |fs|;
    assert s[SignLength(s)..] == ws + tail;
    assert ApplySign(s, u.0) == d.mantissa;
    var r := ScanDecimal(s);
    assert r.Some? && r.value.0 == d && r.value.1 == |FormatDecimal(d)|;
  }

  lemma ScanUnsignedFraction(ws: string, fs: string, rest: string)
    requires 0 < |ws| && AllDigits(ws) && 0 < |fs| && AllDigits(fs)
    requires rest == [] || !IsDigit(rest[0])
    ensures LeadingDigits(ws + ("." + fs + rest)) == |ws|
    ensures ScanUnsigned(ws + ("." + fs + rest)).0 == DigitsValue(ws) * Pow10(|fs|) + DigitsValue(fs)
    ensures ScanUnsigned(ws + ("." + fs + rest)).1 == |fs|
    ensures ScanUnsigned(ws + ("." + fs + rest)).2 == |ws| + 1 + |fs|
  {
    var tail := "." + fs + rest;
    LeadingDigitsOfDigits(ws, tail);
    FractionTail(fs, rest);
    ScanUnsignedPoint(ws, tail, fs);
  }

  lemma FractionTail(fs: string, rest: string)
    requires 0 < |fs| && AllDigits(fs)
    requires rest == [] || !IsDigit(rest[0])
    ensures var tail := "." + fs + rest;
      2 <= |tail| && tail[0] == '.' && IsDigit(tail[1]) &&
      LeadingDigits(tail[1..]) == |fs| && tail[1..][..|fs|] == fs
  {
    var tail := "." + fs + rest;
    assert tail[1..] == fs + rest;
    LeadingDigitsOfDigits(fs, rest);
    assert (fs + rest)[..|fs|] == fs;
  }

  lemma ScanUnsignedPoint(ws: string, tail: string, fs: string)
    requires 0 < |ws| && AllDigits(ws) && LeadingDigits(ws + tail) == |ws|
    requires 2 <= |tail| && tail[0] == '.' && IsDigit(tail[1])
    requires AllDigits(fs) && LeadingDigits(tail[1..]) == |fs| && tail[1..][..|fs|] == fs
    ensures ScanUnsigned(ws + tail).0 == DigitsValue(ws) * Pow10(|fs|) + DigitsValue(fs)
    ensures ScanUnsigned(ws + tail).1 == |fs|
    ensures ScanUnsigned(ws + tail).2 == |ws| + 1 + |fs|
  {
    var s := ws + tail;
    assert s[|ws|..] == tail;
    assert s[..|ws|] == ws;
  }
}
