/** Amounts: JSON number literals, rounding to two places, the GST factor,
    two-decimal formatting, and minimum/maximum of a list of rates.
    Floating point is replaced by exact reals; round(x, 2) is rounding of
    the exact value to hundredths, ties to even, as Python's round does. */
module Numbers {
  import opened Text

  datatype Option<T> = None | Some(value: T)

  type DigitString = s: string | AllDigits(s)

  /** A JSON number as the market API sends it: sign, whole part and the
      digits after the decimal point. json.loads makes a literal without a
      decimal point a Python int and one with a point a float, so an empty
      frac marks an int. */
  datatype Dec = Dec(negative: bool, whole: nat, frac: DigitString)

  /** 0.d1d2d3... for the digit characters ds. */
  function FracValue(ds: string): (r: real)
    requires AllDigits(ds)
    ensures 0.0 <= r <= 1.0
  {
    if ds == [] then 0.0 else (CharDigit(ds[0]) as real + FracValue(ds[1..])) / 10.0
  }

  function Magnitude(d: Dec): (r: real)
    ensures r >= 0.0
  {
    d.whole as real + FracValue(d.frac)
  }

  function Value(d: Dec): real {
    if d.negative then -Magnitude(d) else Magnitude(d)
  }

  const Zero := Dec(false, 0, [])

  /** 1e-4 and 1e16: str() writes a non-zero float whose magnitude lies
      outside [ExponentLow, ExponentHigh) in exponent notation. */
  const ExponentLow: real := 0.0001
  const ExponentHigh: real := 10000000000000000.0

  /** str() writes the number without an exponent: an int, a zero, or a
      float of magnitude in [ExponentLow, ExponentHigh). */
  predicate Positional(d: Dec) {
    d.frac == [] || Magnitude(d) == 0.0 || (ExponentLow <= Magnitude(d) < ExponentHigh)
  }

  /** The digits of ds without its trailing zeros. */
  function TrimZeros(ds: string): string {
    if ds == [] || ds[|ds| - 1] != '0' then ds else TrimZeros(ds[..|ds| - 1])
  }

  lemma {:induction false} TrimZerosShape(ds: string)
    ensures var r := TrimZeros(ds);
      |r| <= |ds| && r == ds[..|r|] && (r == [] || r[|r| - 1] != '0') &&
      forall i :: |r| <= i < |ds| ==> ds[i] == '0'
    decreases |ds|
  {
    if ds != [] && ds[|ds| - 1] == '0' {
      var p := ds[..|ds| - 1];
      TrimZerosShape(p);
      assert p[..|TrimZeros(p)|] == ds[..|TrimZeros(p)|];
    }
  }

  /** The fraction digits str() prints for a float in positional notation:
      the shortest that keep its value, and a single "0" for a whole number. */
  function FracDigits(f: string): string {
    var t := TrimZeros(f);
    if t == [] then "0" else t
  }

  /** Index of the first character of s that is not '0' (|s| when none). */
  function FirstNonZero(s: string): nat {
    if s == [] || s[0] != '0' then 0 else 1 + FirstNonZero(s[1..])
  }

  lemma {:induction false} FirstNonZeroShape(s: string)
    ensures FirstNonZero(s) <= |s|
    ensures forall i :: 0 <= i < FirstNonZero(s) ==> s[i] == '0'
    ensures FirstNonZero(s) < |s| ==> s[FirstNonZero(s)] != '0'
    decreases |s|
  {
    if s != [] && s[0] == '0' {
      FirstNonZeroShape(s[1..]);
    }
  }

  /** The significant digits of a literal, without trailing zeros. */
  function SigDigits(d: Dec): string {
    var f := d.frac;
    if d.whole > 0 then TrimZeros(NatText(d.whole) + f)
    else if FirstNonZero(f) <= |f| then TrimZeros(f[FirstNonZero(f)..])
    else []
  }

  /** The power of ten of the first significant digit. */
  function DecimalExponent(d: Dec): int {
    if d.whole > 0 then |NatText(d.whole)| - 1 else -(FirstNonZero(d.frac) + 1)
  }

  /** The significant digits with a point after the first when there are
      more than one ("0" for none). */
  function MantissaText(ds: string): string {
    if ds == [] then "0"
    else if |ds| == 1 then ds
    else [ds[0]] + "." + ds[1..]
  }

  /** "e", the exponent's sign and at least two digits, as in "e-05" or "e+16". */
  function ExponentText(e: int): string {
    var a: nat := if e < 0 then -e else e;
    "e" + (if e < 0 then "-" else "+") + (if a < 10 then "0" else "") + NatText(a)
  }

  /** A float in exponent notation, without its sign: "5e-05", "1.25e+16". */
  function SciText(d: Dec): string {
    MantissaText(SigDigits(d)) + ExponentText(DecimalExponent(d))
  }

  /** Python's str() of the number json.loads makes of the literal. An int
      prints its digits, with a "-" unless it is zero. A float prints its
      sign, then either positionally with FracDigits after the point or, when
      not Positional, in exponent notation. */
  function Show(d: Dec): (s: string)
    ensures |s| >= 1
  {
    if d.frac == [] then (if d.negative && d.whole != 0 then "-" else "") + NatText(d.whole)
    else
      (if d.negative then "-" else "")
      + (if Positional(d) then NatText(d.whole) + "." + FracDigits(d.frac) else SciText(d))
  }

  lemma {:induction false} FracValueOfZeros(z: string)
    requires forall i :: 0 <= i < |z| ==> z[i] == '0'
    ensures AllDigits(z) && FracValue(z) == 0.0
    decreases |z|
  {
    if z != [] {
      FracValueOfZeros(z[1..]);
    }
  }

  lemma {:induction false} FracValueAppendZeros(t: string, z: string)
    requires AllDigits(t)
    requires forall i :: 0 <= i < |z| ==> z[i] == '0'
    ensures AllDigits(t + z) && FracValue(t + z) == FracValue(t)
    decreases |t|
  {
    assert forall i :: 0 <= i < |t + z| ==> (t + z)[i] == if i < |t| then t[i] else z[i - |t|];
    if t == [] {
      assert t + z == z;
      FracValueOfZeros(z);
    } else {
      assert (t + z)[1..] == t[1..] + z;
      FracValueAppendZeros(t[1..], z);
    }
  }

  lemma FracDigitsDigits(f: DigitString)
    ensures AllDigits(FracDigits(f)) && FracDigits(f) != []
  {
    TrimZerosShape(f);
    var t := TrimZeros(f);
    assert forall i :: 0 <= i < |t| ==> t[i] == f[i];
  }

  /** Dropping trailing zeros keeps the value of a fraction. */
  lemma FracDigitsValue(f: DigitString)
    ensures AllDigits(FracDigits(f))
    ensures FracValue(FracDigits(f)) == FracValue(f)
  {
    FracDigitsDigits(f);
    TrimZerosShape(f);
    var t := TrimZeros(f);
    var z := f[|t|..];
    assert f == t + z;
    assert forall i :: 0 <= i < |t| ==> t[i] == f[i];
    FracValueAppendZeros(t, z);
    if t == [] {
      assert FracValue("0") == 0.0 by { assert "0"[1..] == []; }
    }
  }

  /** Every character is a digit or a dot: what the regex class [\d.] accepts. */
  predicate NumberChars(s: string) {
    forall i :: 0 <= i < |s| ==> IsDigitChar(s[i]) || s[i] == '.'
  }

  /** Position of the first '.' in s, or |s| when there is none. */
  function FirstDot(s: string): (k: nat)
    ensures k <= |s|
    ensures forall i :: 0 <= i < k ==> s[i] != '.'
    ensures k < |s| ==> s[k] == '.'
  {
    if s == [] then 0 else if s[0] == '.' then 0 else 1 + FirstDot(s[1..])
  }

  /** Python's float() applied to a run of digits and dots, as the regex
      group [\d.]+ captures it: None where float() raises ValueError
      (more than one dot, or no digit at all). */
  function ParseNumberRun(s: string): (r: Option<real>)
    requires NumberChars(s)
    ensures r.Some? ==> r.value >= 0.0
  {
    var k := FirstDot(s);
    assert AllDigits(s[..k]);
    ParseParts(s[..k], if k < |s| then s[k + 1..] else [])
  }

  /** float() of "<intPart>.<fracPart>", or of "<intPart>" when fracPart is empty. */
  function ParseParts(intPart: string, fracPart: string): (r: Option<real>)
    requires AllDigits(intPart) && NumberChars(fracPart)
    ensures r.Some? ==> r.value >= 0.0
  {
    if '.' in fracPart || (intPart == [] && fracPart == []) then None
    else
      assert AllDigits(fracPart) by {
        forall i | 0 <= i < |fracPart| ensures IsDigitChar(fracPart[i]) {
          assert fracPart[i] in fracPart;
        }
      }
      Some(DigitsValue(intPart) as real + FracValue(fracPart))
  }

  /** Reading back the text of a non-negative number str() writes without
      an exponent gives its value. */
  lemma ShowParses(d: Dec)
    requires !d.negative && Positional(d)
    ensures NumberChars(Show(d))
    ensures ParseNumberRun(Show(d)) == Some(Magnitude(d))
  {
    if d.frac == [] {
      ShowUnsignedWhole(d);
      ShowParsesWhole(d.whole);
    } else {
      ShowParsesFloat(d);
    }
  }

  lemma ShowParsesFloat(d: Dec)
    requires !d.negative && d.frac != [] && Positional(d)
    ensures NumberChars(Show(d))
    ensures ParseNumberRun(Show(d)) == Some(Magnitude(d))
  {
    ShowUnsignedFrac(d);
    FloatTextParses(Show(d), d.whole, d.frac, Magnitude(d));
  }

  /** "<whole>.<fraction without trailing zeros>" reads back as the value. */
  lemma FloatTextParses(s: string, w: nat, f: DigitString, v: real)
    requires s == NatText(w) + "." + FracDigits(f)
    requires v == w as real + FracValue(f)
    ensures NumberChars(s)
    ensures ParseNumberRun(s) == Some(v)
  {
    FracDigitsValue(f);
    ShowParsesFrac(w, FracDigits(f));
  }

  lemma ShowUnsignedWhole(d: Dec)
    requires !d.negative && d.frac == []
    ensures Show(d) == NatText(d.whole)
  {
    var w := NatText(d.whole);
    assert "" + w == w;
  }

  lemma ShowUnsignedFrac(d: Dec)
    requires !d.negative && d.frac != [] && Positional(d)
    ensures Show(d) == NatText(d.whole) + "." + FracDigits(d.frac)
  {
    var w := NatText(d.whole);
    assert "" + (w + "." + FracDigits(d.frac)) == w + "." + FracDigits(d.frac);
  }

  /** A positive float outside the positional range is written as its
      mantissa followed by the exponent text. */
  lemma ShowSci(d: Dec)
    requires Value(d) > 0.0 && !Positional(d)
    ensures Show(d) == MantissaText(SigDigits(d)) + ExponentText(DecimalExponent(d))
  {
    assert "" + SciText(d) == SciText(d);
  }

  lemma SigDigitsDigits(d: Dec)
    ensures AllDigits(SigDigits(d))
  {
    var f := d.frac;
    if d.whole > 0 || FirstNonZero(f) <= |f| {
      var src := if d.whole > 0 then NatText(d.whole) + f else f[FirstNonZero(f)..];
      assert AllDigits(src);
      TrimZerosShape(src);
      var t := TrimZeros(src);
      assert forall i :: 0 <= i < |t| ==> t[i] == src[i];
    }
  }

  /** The mantissa is a run of digits and at most one point, led by a digit. */
  lemma MantissaChars(ds: string)
    requires AllDigits(ds)
    ensures var m := MantissaText(ds);
      m != [] && IsDigitChar(m[0]) && NumberChars(m)
  {
    if |ds| > 1 {
      var m := [ds[0]] + "." + ds[1..];
      assert forall i :: 2 <= i < |m| ==> m[i] == ds[i - 1];
    }
  }

  /** Exponent notation is a mantissa run followed by 'e'; it holds no ';'. */
  lemma SciTextShape(d: Dec)
    ensures var m := MantissaText(SigDigits(d));
      SciText(d) == m + ExponentText(DecimalExponent(d)) &&
      m != [] && IsDigitChar(m[0]) && NumberChars(m) &&
      ExponentText(DecimalExponent(d))[0] == 'e' && ';' !in SciText(d)
  {
    SigDigitsDigits(d);
    var m := MantissaText(SigDigits(d));
    MantissaChars(SigDigits(d));
  }

  /** Exponent notation starts with a digit. */
  lemma SciFirstDigit(d: Dec)
    ensures IsDigitChar(SciText(d)[0])
  {
    SciTextShape(d);
  }

  lemma ShowParsesWhole(n: nat)
    ensures NumberChars(NatText(n))
    ensures ParseNumberRun(NatText(n)) == Some(n as real)
  {
    NatTextValue(n);
    ParseWhole(NatText(n));
  }

  lemma ShowParsesFrac(n: nat, f: string)
    requires AllDigits(f)
    ensures NumberChars(NatText(n) + "." + f)
    ensures ParseNumberRun(NatText(n) + "." + f) == Some(n as real + FracValue(f))
  {
    NatTextValue(n);
    ParseDigitsDotFrac(NatText(n), f, n);
  }

  lemma ParseDigitsDotFrac(w: string, f: string, n: nat)
    requires AllDigits(w) && |w| >= 1 && AllDigits(f) && DigitsValue(w) == n
    ensures NumberChars(w + "." + f)
    ensures ParseNumberRun(w + "." + f) == Some(n as real + FracValue(f))
  {
    ParseWholeDotFrac(w, f);
  }

  lemma ParseWhole(w: string)
    requires AllDigits(w) && |w| >= 1
    ensures NumberChars(w)
    ensures ParseNumberRun(w) == Some(DigitsValue(w) as real)
  {
    FirstDotAfterDigits(w, "");
    assert w + "" == w;
    assert w[..|w|] == w;
  }

  lemma ParseWholeDotFrac(w: string, f: string)
    requires AllDigits(w) && |w| >= 1 && AllDigits(f)
    ensures NumberChars(w + "." + f)
    ensures ParseNumberRun(w + "." + f) == Some(DigitsValue(w) as real + FracValue(f))
  {
    DecimalNumberChars(w, f);
    DecimalSlices(w, f);
    NoDotInDigits(f);
    ParseSplitAt(w + "." + f, w, f);
  }

  lemma DecimalSlices(w: string, f: string)
    requires AllDigits(w)
    ensures FirstDot(w + "." + f) == |w|
    ensures (w + "." + f)[..|w|] == w && (w + "." + f)[|w| + 1..] == f
  {
    assert w + "." + f == w + ("." + f);
    FirstDotAfterDigits(w, "." + f);
  }

  lemma ParseSplitAt(s: string, w: string, f: string)
    requires NumberChars(s)
    requires AllDigits(w) && AllDigits(f) && |w| >= 1
    requires FirstDot(s) == |w| < |s|
    requires s[..|w|] == w && s[|w| + 1..] == f
    requires '.' !in f
    ensures ParseNumberRun(s) == Some(DigitsValue(w) as real + FracValue(f))
  {
  }

  lemma DecimalNumberChars(w: string, f: string)
    requires AllDigits(w) && AllDigits(f)
    ensures NumberChars(w + "." + f)
  {
    var s := w + "." + f;
    forall i | 0 <= i < |s| ensures IsDigitChar(s[i]) || s[i] == '.' {
      if i < |w| {
        assert s[i] == w[i];
      } else if i > |w| {
        assert s[i] == f[i - |w| - 1];
      }
    }
  }

  lemma NoDotInDigits(t: string)
    requires AllDigits(t)
    ensures '.' !in t
  {
  }

  lemma {:induction false} FirstDotAfterDigits(w: string, tail: string)
    requires AllDigits(w)
    requires tail == [] || tail[0] == '.'
    ensures FirstDot(w + tail) == |w|
    decreases |w|
  {
    if w == [] {
      assert w + tail == tail;
    } else {
      assert (w + tail)[0] == w[0];
      assert IsDigitChar(w[0]);
      assert (w + tail)[1..] == w[1..] + tail;
      FirstDotAfterDigits(w[1..], tail);
    }
  }

  /** The nearest integer to y, ties going to the even neighbour. */
  function RoundHalfEven(y: real): (n: int)
    ensures y - 0.5 <= n as real <= y + 0.5
    ensures n as real - y == 0.5 || y - n as real == 0.5 ==> n % 2 == 0
  {
    var f := y.Floor;
    var rest := y - f as real;
    if rest < 0.5 then f
    else if rest > 0.5 then f + 1
    else if f % 2 == 0 then f else f + 1
  }

  /** The two properties of RoundHalfEven determine it: no other integer is
      within a half of y and even on a tie. */
  lemma RoundHalfEvenUnique(y: real, m: int)
    requires y - 0.5 <= m as real <= y + 0.5
    requires m as real - y == 0.5 || y - m as real == 0.5 ==> m % 2 == 0
    ensures m == RoundHalfEven(y)
  {
  }

  /** r is x rounded to two places as round(x, 2) does: a whole number of
      hundredths, at most half a hundredth from x, the even one on a tie. */
  predicate IsRound2(x: real, r: real) {
    var c := r * 100.0;
    c.Floor as real == c &&
    x * 100.0 - 0.5 <= c <= x * 100.0 + 0.5 &&
    (c - x * 100.0 == 0.5 || x * 100.0 - c == 0.5 ==> c.Floor % 2 == 0)
  }

  /** Python's round(x, 2), on the exact value. */
  function Round2(x: real): (r: real)
    ensures IsRound2(x, r)
    ensures x - 0.005 <= r <= x + 0.005
  {
    var n := RoundHalfEven(x * 100.0);
    Hundredths(n);
    n as real / 100.0
  }

  /** n hundredths times 100 is the whole number n. */
  lemma Hundredths(n: int)
    ensures (n as real / 100.0) * 100.0 == n as real
    ensures ((n as real / 100.0) * 100.0).Floor == n
  {
  }

  /** Only one amount is x rounded to two places. */
  lemma Round2Unique(x: real, r: real)
    requires IsRound2(x, r)
    ensures r == Round2(x)
  {
    var m := (r * 100.0).Floor;
    RoundHalfEvenUnique(x * 100.0, m);
  }

  /** An amount already in whole hundredths is left unchanged by rounding. */
  lemma Round2Exact(n: int)
    ensures Round2(n as real / 100.0) == n as real / 100.0
  {
    assert (n as real / 100.0) * 100.0 == n as real;
    assert (n as real).Floor == n;
  }

  lemma {:induction false} RoundHalfEvenMonotone(x: real, y: real)
    requires x <= y
    ensures RoundHalfEven(x) <= RoundHalfEven(y)
  {
    var fx, fy := x.Floor, y.Floor;
    if fx < fy {
      assert RoundHalfEven(x) <= fx + 1 <= fy <= RoundHalfEven(y);
    } else {
      assert fx == fy;
    }
  }

  lemma Round2Monotone(x: real, y: real)
    requires x <= y
    ensures Round2(x) <= Round2(y)
  {
    RoundHalfEvenMonotone(x * 100.0, y * 100.0);
  }

  /** The goods-and-services-tax factor 1.1 the scraper applies to tariff amounts. */
  const GstFactor: real := 1.1

  /** round(amount * 1.1, 2): a tax-exclusive API amount made tax-inclusive. */
  function WithGst(amount: real): (r: real)
    ensures IsRound2(amount * GstFactor, r)
    ensures amount * GstFactor - 0.005 <= r <= amount * GstFactor + 0.005
  {
    Round2(amount * GstFactor)
  }

  /** The two-digit fraction text of n % 100. */
  function Cents(n: nat): (s: DigitString)
    ensures |s| == 2
  {
    [DigitChar((n % 100) / 10), DigitChar(n % 10)]
  }

  /** Python's f"{x:.2f}": the value rounded to hundredths, two fraction digits. */
  function Fixed2(x: real): string
    decreases if x < 0.0 then 1 else 0
  {
    if x < 0.0 then "-" + Fixed2(-x)
    else
      var n: nat := RoundHalfEven(x * 100.0);
      NatText(n / 100) + "." + Cents(n)
  }

  /** The whole part and the two fraction digits of n hundredths make n / 100. */
  lemma CentsValue(n: nat)
    ensures (n / 100) as real + FracValue(Cents(n)) == n as real / 100.0
  {
    var a, b := (n % 100) / 10, n % 10;
    var c := Cents(n);
    assert CharDigit(c[0]) == a && CharDigit(c[1]) == b;
    assert FracValue(c[1..]) == b as real / 10.0 by { assert c[1..][1..] == []; }
    assert FracValue(c) == (a as real + b as real / 10.0) / 10.0;
    assert n == (n / 100) * 100 + a * 10 + b;
  }

  lemma Fixed2Unsigned(x: real)
    requires x >= 0.0
    ensures var n: nat := RoundHalfEven(x * 100.0);
      Fixed2(x) == NatText(n / 100) + "." + Cents(n)
  {
  }

  /** The digits Fixed2 prints for a non-negative amount read back as that
      amount rounded to two places. */
  lemma Fixed2Denotes(x: real)
    requires x >= 0.0
    ensures NumberChars(Fixed2(x))
    ensures ParseNumberRun(Fixed2(x)) == Some(Round2(x))
  {
    var n: nat := RoundHalfEven(x * 100.0);
    Fixed2Unsigned(x);
    ShowParsesFrac(n / 100, Cents(n));
    CentsValue(n);
    assert Round2(x) == n as real / 100.0;
  }

  /** Python's min() over a non-empty list of rates. */
  function MinOf(s: seq<real>): (r: real)
    requires |s| > 0
    ensures r in s
    ensures forall i :: 0 <= i < |s| ==> r <= s[i]
  {
    if |s| == 1 then s[0]
    else
      var m := MinOf(s[1..]);
      assert forall i :: 1 <= i < |s| ==> s[i] == s[1..][i - 1];
      if s[0] <= m then s[0] else m
  }

  /** Python's max() over a non-empty list of rates. */
  function MaxOf(s: seq<real>): (r: real)
    requires |s| > 0
    ensures r in s
    ensures forall i :: 0 <= i < |s| ==> s[i] <= r
  {
    if |s| == 1 then s[0]
    else
      var m := MaxOf(s[1..]);
      assert forall i :: 1 <= i < |s| ==> s[i] == s[1..][i - 1];
      if s[0] >= m then s[0] else m
  }
}
