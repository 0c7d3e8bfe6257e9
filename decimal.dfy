/**
 * The number handling the scripts rely on: Python's `float(str)` and
 * `int(str)` on plain decimal text, `round(x, 2)` and the `"%.2f"` format.
 * Numbers are exact reals, so binary floating-point effects are not part of
 * this model; rounding is to the nearest hundredth with ties to even.
 */
module Decimal {
  import opened Common

  function DigitValue(c: char): nat
    requires IsDigit(c)
  {
    c as int - '0' as int
  }

  /** The value of a string of decimal digits (0 for the empty string). */
  function DigitsValue(s: string): nat
    requires AllDigits(s)
  {
    if s == [] then 0 else DigitsValue(s[..|s| - 1]) * 10 + DigitValue(s[|s| - 1])
  }

  function Pow10(k: nat): (r: nat)
    ensures r >= 1
  {
    if k == 0 then 1 else 10 * Pow10(k - 1)
  }

  function Digit(d: nat): (c: char)
    requires d < 10
    ensures IsDigit(c) && DigitValue(c) == d
  {
    ('0' as int + d) as char
  }

  /** `str(n)` for a natural number: its shortest decimal digits. */
  function NatToString(n: nat): (r: string)
    ensures |r| >= 1 && AllDigits(r) && DigitsValue(r) == n
    ensures |r| > 1 ==> r[0] != '0'
  {
    if n < 10 then [Digit(n)]
    else
      var a := NatToString(n / 10);
      assert (a + [Digit(n % 10)])[..|a|] == a;
      a + [Digit(n % 10)]
  }

  /** `float(s)` on an unsigned body: digits, at most one '.', at least one digit. */
  function ParseUnsigned(t: string): (r: Option<real>)
    ensures r.Some? ==> r.value >= 0.0
  {
    var ip := BeforeFirst(t, '.');
    if |ip| == |t| then
      if t != [] && AllDigits(t) then Some(DigitsValue(t) as real) else None
    else
      var fp := t[|ip| + 1..];
      if AllDigits(ip) && AllDigits(fp) && |ip| + |fp| > 0 then
        Some(PointValue(ip, fp))
      else None
  }

  /** The number written `ip.fp`. */
  function PointValue(ip: string, fp: string): (v: real)
    requires AllDigits(ip) && AllDigits(fp)
    ensures v >= 0.0
  {
    DigitsValue(ip) as real + DigitsValue(fp) as real / Pow10(|fp|) as real
  }

  /**
   * `float(s)`: surrounding whitespace is ignored, an optional sign, then an
   * unsigned body; `None` stands for the `ValueError` Python raises.
   */
  function ParseFloat(s: string): Option<real> {
    var t := Strip(s);
    if |t| > 0 && t[0] == '-' then
      match ParseUnsigned(t[1..])
      case Some(v) => Some(-v)
      case None => None
    else if |t| > 0 && t[0] == '+' then ParseUnsigned(t[1..])
    else ParseUnsigned(t)
  }

  /** `int(s)`: surrounding whitespace, an optional sign and decimal digits. */
  function ParseInt(s: string): (r: Option<int>)
    ensures r.Some? ==> ParseFloat(s) == Some(r.value as real)
  {
    var t := Strip(s);
    var neg := |t| > 0 && t[0] == '-';
    var body := if |t| > 0 && (t[0] == '-' || t[0] == '+') then t[1..] else t;
    if body != [] && AllDigits(body) then
      assert BeforeFirst(body, '.') == body by { NoSepBeforeFirst(body, '.'); }
      Some(if neg then -(DigitsValue(body) as int) else DigitsValue(body))
    else None
  }

  lemma NoSepBeforeFirst(s: string, sep: char)
    requires sep !in s
    ensures BeforeFirst(s, sep) == s
  {
  }

  /** Round half to even, as Python's `round` and `"%.2f"` break ties. */
  function RoundHalfEven(y: real): (r: int)
    ensures r as real - 0.5 <= y <= r as real + 0.5
    ensures y < 0.0 ==> r <= 0
    ensures y >= 0.0 ==> r >= 0
  {
    var f := y.Floor;
    var d := y - f as real;
    if d < 0.5 then f
    else if d > 0.5 then f + 1
    else if f % 2 == 0 then f
    else f + 1
  }

  /** `x` in hundredths, rounded to nearest (ties to even). */
  function Hundredths(x: real): (h: int)
    ensures x < 0.0 ==> h <= 0
    ensures x >= 0.0 ==> h >= 0
  {
    RoundHalfEven(x * 100.0)
  }

  /** `round(x, 2)`: never further than half a hundredth from `x`. */
  function Round2(x: real): (r: real)
    ensures x - 0.005 <= r <= x + 0.005
    ensures x >= 0.0 ==> r >= 0.0
  {
    Hundredths(x) as real / 100.0
  }

  /** A whole number of hundredths is already rounded. */
  lemma Round2Cents(h: int)
    ensures Round2(h as real / 100.0) == h as real / 100.0
  {
    assert (h as real / 100.0) * 100.0 == h as real;
    assert (h as real).Floor == h;
  }

  /** Rounding twice is rounding once. */
  lemma Round2Idempotent(x: real)
    ensures Round2(Round2(x)) == Round2(x)
  {
    Round2Cents(Hundredths(x));
  }

  /** The sum of two rounded values needs no further rounding. */
  lemma Round2SumExact(a: real, b: real)
    requires Round2(a) == a && Round2(b) == b
    ensures Round2(a + b) == a + b
  {
    var ha, hb := Hundredths(a), Hundredths(b);
    assert a + b == (ha + hb) as real / 100.0;
    Round2Cents(ha + hb);
  }

  /** Rounding to nearest never reverses an order. */
  lemma RoundHalfEvenMonotone(x: real, y: real)
    requires x <= y
    ensures RoundHalfEven(x) <= RoundHalfEven(y)
  {
    var fx, fy := x.Floor, y.Floor;
    assert fx <= fy;
    if fx < fy {
      assert RoundHalfEven(x) <= fx + 1 <= fy <= RoundHalfEven(y);
    }
  }

  lemma Round2Monotone(x: real, y: real)
    requires x <= y
    ensures Round2(x) <= Round2(y)
  {
    RoundHalfEvenMonotone(x * 100.0, y * 100.0);
  }

  /** `"%.2f" % x`: a sign for a negative, the whole hundreds, '.', two digits. */
  function Fmt2(x: real): string {
    SignOf(x) + Unsigned2(Magnitude(Hundredths(x)))
  }

  function SignOf(x: real): string { if x < 0.0 then "-" else "" }

  function Magnitude(h: int): nat { if h < 0 then -h else h }

  /** A count of hundredths written as "whole.dd". */
  function Unsigned2(m: nat): string {
    NatToString(m / 100) + "." + [Digit(m % 100 / 10), Digit(m % 10)]
  }

  /** A character that can appear in `"%.2f"` output. */
  predicate IsNumChar(c: char) { IsDigit(c) || c == '.' }

  /** Text made of digits and '.' only reads, if at all, as a non-negative number. */
  lemma NumCharsNonNegative(g: string)
    requires |g| > 0 && forall i :: 0 <= i < |g| ==> IsNumChar(g[i])
    ensures ParseFloat(g).Some? ==> ParseFloat(g).value >= 0.0
  {
    assert !IsSpace(g[0]) && !IsSpace(g[|g| - 1]);
    StripNoop(g);
  }

  /** `"%.2f"` of a non-negative number is made of digits and one '.' only. */
  lemma Fmt2Chars(x: real)
    requires x >= 0.0
    ensures |Fmt2(x)| >= 4
    ensures forall i :: 0 <= i < |Fmt2(x)| ==> IsNumChar(Fmt2(x)[i])
  {
    assert Fmt2(x) == Unsigned2(Hundredths(x));
  }

  /** The value of the two-digit fraction of `"%.2f"` output. */
  lemma TwoDigits(m: nat)
    ensures DigitsValue([Digit(m % 100 / 10), Digit(m % 10)]) == m % 100
  {
    var r := m % 100;
    var s := [Digit(r / 10), Digit(m % 10)];
    assert s[..1] == [Digit(r / 10)];
    assert [Digit(r / 10)][..0] == [];
    assert DigitsValue(s[..1]) == r / 10;
    assert m % 10 == r % 10 by {
      assert m == (m / 100) * 100 + r;
      assert m == ((m / 100) * 10) * 10 + r;
    }
  }

  /** `float` reads "digits.digits" as the whole part plus the scaled fraction. */
  lemma ParsePointed(n: string, frac: string)
    requires AllDigits(n) && AllDigits(frac) && |n| > 0
    ensures ParseUnsigned(n + "." + frac) == Some(PointValue(n, frac))
  {
    var body := n + ['.'] + frac;
    assert forall i :: 0 <= i < |n| ==> IsDigit(n[i]);
    assert '.' !in n;
    BeforeFirstSplit(n, frac, '.');
    var ip := BeforeFirst(body, '.');
    assert ip == n;
    assert body[|ip| + 1..] == frac;
    assert |ip| != |body|;
  }

  /** "whole.dd" reads back as the hundredths it spells. */
  lemma Unsigned2Value(m: nat)
    ensures DigitBounded(Unsigned2(m), m as real / 100.0)
  {
    var n := NatToString(m / 100);
    var frac := [Digit(m % 100 / 10), Digit(m % 10)];
    var body := n + "." + frac;
    assert Unsigned2(m) == body;
    ParsePointed(n, frac);
    TwoDigits(m);
    assert Pow10(|frac|) == 100;
    assert PointValue(n, frac) == (m / 100) as real + (m % 100) as real / 100.0;
    HundredthsSplit(m);
    assert body[0] == n[0] && body[|body| - 1] == Digit(m % 10);
  }

  lemma HundredthsSplit(m: nat)
    ensures (m / 100) as real + (m % 100) as real / 100.0 == m as real / 100.0
  {
    var q := m / 100;
    var r := m % 100;
    assert m == q * 100 + r;
    assert m as real == q as real * 100.0 + r as real;
  }

  /** An unsigned body that starts and ends with a digit and reads as `v`. */
  predicate DigitBounded(body: string, v: real) {
    |body| > 0 && IsDigit(body[0]) && IsDigit(body[|body| - 1]) && ParseUnsigned(body) == Some(v)
  }

  /** A sign in front of an unsigned body that starts and ends with a digit. */
  lemma SignedParse(sign: string, body: string, v: real)
    requires sign == "" || sign == "-"
    requires DigitBounded(body, v)
    ensures ParseFloat(sign + body) == Some(if sign == "-" then -v else v)
  {
    var t := sign + body;
    assert t[|t| - 1] == body[|body| - 1];
    if sign == "-" {
      assert t[1..] == body;
      StrippedNegative(t, v);
    } else {
      assert t == body;
      StrippedPlain(body, v);
    }
  }

  lemma StrippedPlain(t: string, v: real)
    requires |t| > 0 && IsDigit(t[0]) && !IsSpace(t[|t| - 1]) && ParseUnsigned(t) == Some(v)
    ensures ParseFloat(t) == Some(v)
  {
    assert !IsSpace(t[0]) && t[0] != '-' && t[0] != '+';
    StripNoop(t);
  }

  lemma StrippedNegative(t: string, v: real)
    requires |t| > 1 && t[0] == '-' && !IsSpace(t[|t| - 1]) && ParseUnsigned(t[1..]) == Some(v)
    ensures ParseFloat(t) == Some(-v)
  {
    StripNoop(t);
  }

  lemma SignedUnsigned2(sign: string, m: nat)
    requires sign == "" || sign == "-"
    ensures ParseFloat(sign + Unsigned2(m)) == Some(if sign == "-" then -(m as real / 100.0) else m as real / 100.0)
  {
    Unsigned2Value(m);
    SignedParse(sign, Unsigned2(m), m as real / 100.0);
  }

  /** Reading `"%.2f" % x` back with `float` gives `round(x, 2)`. */
  lemma Fmt2RoundTrip(x: real)
    ensures ParseFloat(Fmt2(x)) == Some(Round2(x))
  {
    SignedUnsigned2(SignOf(x), Magnitude(Hundredths(x)));
    SignedMagnitude(x);
  }

  /** The sign and the magnitude of the hundredths put back together. */
  lemma SignedMagnitude(x: real)
    ensures (if SignOf(x) == "-" then -(Magnitude(Hundredths(x)) as real / 100.0) else Magnitude(Hundredths(x)) as real / 100.0) == Round2(x)
  {
  }

  /**
   * Text whose last character is neither whitespace, a digit nor '.' is not a
   * number: `float` raises on it (e.g. "12.30元").
   */
  lemma ParseFloatRejectsSuffix(s: string)
    requires |s| > 0 && !IsSpace(s[|s| - 1]) && !IsNumChar(s[|s| - 1])
    ensures ParseFloat(s) == None
  {
    var c := s[|s| - 1];
    var l := StripLeft(s);
    StripLeftSpaces(s);
    assert |l| > 0 && l[|l| - 1] == c;
    var t := Strip(s);
    assert t == l;
    var u := if |t| > 0 && (t[0] == '-' || t[0] == '+') then t[1..] else t;
    assert u == [] || u[|u| - 1] == c;
    UnsignedRejects(u, c);
  }

  lemma UnsignedRejects(u: string, c: char)
    requires u == [] || u[|u| - 1] == c
    requires !IsNumChar(c)
    ensures ParseUnsigned(u) == None
  {
    var ip := BeforeFirst(u, '.');
    if |ip| < |u| {
      var fp := u[|ip| + 1..];
      assert |fp| > 0 ==> fp[|fp| - 1] == c;
    }
  }
}
