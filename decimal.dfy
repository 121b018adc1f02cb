/**
 * The part of Python's `decimal` module that `NewVisitForm.clean` relies on:
 * finite decimal numbers, `quantize(Decimal("0.000001"), rounding=ROUND_HALF_UP)`
 * in the default context, and `str` of the quantized value.
 *
 * A Decimal is a sign, a coefficient and an exponent; its value is
 * (-1)^sign * coefficient * 10^exponent.  The sign is kept even when the
 * coefficient is zero, as Python does (`Decimal("-0.000000")`).
 */
module PyDecimal {
  import opened Wrappers
  import Digits

  datatype Decimal = Decimal(negative: bool, coefficient: nat, exponent: int)

  /** Fractional digits kept by quantizing to `Decimal("0.000001")`. */
  const Places: nat := 6

  /** Significant digits of the default decimal context. */
  const Precision: nat := 28

  /** `bool(d)`: a Decimal is falsy exactly when it is a zero, of either sign. */
  function IsTruthy(d: Decimal): (b: bool)
    ensures b <==> RealValue(d) != 0.0
  {
    MagnitudeZero(d);
    d.coefficient != 0
  }

  /** 10 to the power `e`, as a real. */
  ghost function Scale(e: int): (r: real)
    ensures r > 0.0
  {
    if e >= 0 then Digits.Pow10(e) as real else 1.0 / Digits.Pow10(-e) as real
  }

  ghost function Magnitude(d: Decimal): real {
    d.coefficient as real * Scale(d.exponent)
  }

  /** The number a Decimal stands for. */
  ghost function RealValue(d: Decimal): real {
    if d.negative then -Magnitude(d) else Magnitude(d)
  }

  lemma MagnitudeZero(d: Decimal)
    ensures Magnitude(d) == 0.0 <==> d.coefficient == 0
  {
    var s := Scale(d.exponent);
    if d.coefficient != 0 {
      assert d.coefficient as real >= 1.0;
      assert d.coefficient as real * s >= s;
    }
  }

  /**
   * `c / unit` rounded to the nearest integer, ties upward.  The result is
   * the one integer whose multiple of `unit` lies in (c - unit/2, c + unit/2].
   */
  function RoundHalfUp(c: nat, unit: nat): (r: nat)
    requires unit >= 1
    ensures 2 * c - unit < 2 * r * unit <= 2 * c + unit
  {
    var q := c / unit;
    var rest := c % unit;
    assert c == q * unit + rest;
    if 2 * rest >= unit then
      assert (q + 1) * unit == q * unit + unit;
      q + 1
    else q
  }

  lemma RoundHalfUpUnique(c: nat, unit: nat, r: nat)
    requires unit >= 1
    requires 2 * c - unit < 2 * r * unit <= 2 * c + unit
    ensures r == RoundHalfUp(c, unit)
  {
    var s := RoundHalfUp(c, unit);
    if r < s {
      MulStep(r, s, unit);
    } else if r > s {
      MulStep(s, r, unit);
    }
  }

  lemma MulStep(a: nat, b: nat, k: nat)
    requires a < b
    ensures a * k + k <= b * k
  {
    assert (a + 1) * k <= b * k;
  }

  /**
   * The coefficient of `d` quantized to exponent -6: exact when `d` has at
   * most six fractional digits, rounded half-up on the magnitude otherwise
   * (which sends ties away from zero for either sign).
   */
  function QuantizedCoefficient(d: Decimal): (r: nat)
    ensures var up: nat := if d.exponent >= -(Places as int) then (d.exponent + Places) as nat else 0;
      var down: nat := if d.exponent >= -(Places as int) then 0 else (-(Places as int) - d.exponent) as nat;
      var c := d.coefficient * Digits.Pow10(up);
      var unit := Digits.Pow10(down);
      2 * c - unit < 2 * r * unit <= 2 * c + unit
  {
    if d.exponent >= -(Places as int) then d.coefficient * Digits.Pow10((d.exponent + Places) as nat)
    else RoundHalfUp(d.coefficient, Digits.Pow10((-(Places as int) - d.exponent) as nat))
  }

  /**
   * `d.quantize(Decimal("0.000001"), rounding=ROUND_HALF_UP)`.  `None` is the
   * InvalidOperation the default context raises when the result would need
   * more than 28 coefficient digits.
   */
  function Quantize(d: Decimal): (r: Option<Decimal>)
    ensures r.Some? ==> r.value.negative == d.negative && r.value.exponent == -(Places as int)
    ensures r.Some? ==> r.value.coefficient < Digits.Pow10(Precision)
  {
    var q := QuantizedCoefficient(d);
    Digits.DigitCount(q, Precision);
    if |Digits.NatToDigits(q)| > Precision then None
    else Some(Decimal(d.negative, q, -(Places as int)))
  }

  function SignText(negative: bool): string {
    if negative then "-" else ""
  }

  /** `str` of a Decimal with exponent -6: always plain notation, since its adjusted exponent is at least -6. */
  function Str(q: Decimal): (s: string)
    requires q.exponent == -(Places as int)
    ensures |s| >= Places + 2 && s[|s| - Places - 1] == '.' && Digits.AllDigits(s[|s| - Places..])
    ensures (s[0] == '-') == q.negative
  {
    var unit := Digits.Pow10(Places);
    var whole := Digits.NatToDigits(q.coefficient / unit);
    var fraction := Digits.PadDigits(q.coefficient % unit, Places);
    var s := SignText(q.negative) + (whole + ("." + fraction));
    assert s[|s| - Places..] == fraction;
    assert !q.negative ==> s[0] == whole[0];
    s
  }

  /** `str(Decimal(str(d)).quantize(...))` as `clean` computes it; `None` when quantizing raises. */
  function NormaliseCoordinate(d: Decimal): (r: Option<string>)
    ensures r.None? <==> QuantizedCoefficient(d) >= Digits.Pow10(Precision)
    ensures r.Some? ==> var s := r.value;
      |s| >= 8 && s[|s| - 7] == '.' && Digits.AllDigits(s[|s| - 6..]) && ((s[0] == '-') == d.negative)
  {
    QuantizeFailsIff(d);
    match Quantize(d)
    case None => None
    case Some(q) => Some(Str(q))
  }

  /** The first index of `c` in `s`, or `|s|` when there is none. */
  function IndexOf(s: string, c: char): (i: nat)
    ensures i <= |s| && (i < |s| ==> s[i] == c)
    ensures forall j :: 0 <= j < i ==> s[j] != c
  {
    if s == [] then 0
    else if s[0] == c then 0
    else 1 + IndexOf(s[1..], c)
  }

  /**
   * `Decimal(text)` for plain notation: an optional sign, digits, and an
   * optional point followed by digits.  Exponents, `Infinity`/`NaN`,
   * blanks and underscores are not part of this model and give `None`.
   */
  function ParsePlain(s: string): (r: Option<Decimal>)
    ensures r.Some? ==> s != [] && (r.value.negative <==> s[0] == '-')
    ensures r.Some? ==> r.value.exponent <= 0 && -r.value.exponent < |s|
  {
    if s != [] && s[0] == '-' then ParseUnsigned(true, s[1..])
    else if s != [] && s[0] == '+' then ParseUnsigned(false, s[1..])
    else ParseUnsigned(false, s)
  }

  function ParseUnsigned(negative: bool, body: string): (r: Option<Decimal>)
    ensures r.Some? ==> r.value.negative == negative && r.value.exponent <= 0 && -r.value.exponent < |body|
  {
    var dot := IndexOf(body, '.');
    FromParts(negative, body[..dot], if dot < |body| then body[dot + 1..] else [])
  }

  /** The Decimal spelled by the digits before and after the point. */
  function FromParts(negative: bool, whole: string, fraction: string): (r: Option<Decimal>)
    ensures r.Some? ==> r.value.negative == negative && r.value.exponent == -|fraction|
    ensures r.Some? ==> |whole| + |fraction| >= 1
  {
    if Digits.AllDigits(whole) && Digits.AllDigits(fraction) && |whole| + |fraction| >= 1 then
      Some(Decimal(negative, Digits.Value(whole) * Digits.Pow10(|fraction|) + Digits.Value(fraction), -|fraction|))
    else None
  }

  // ---------------------------------------------------------------------
  // Properties of quantizing
  // ---------------------------------------------------------------------

  lemma Pow10Six()
    ensures Digits.Pow10(Places) == 1000000
  {
    assert Digits.Pow10(1) == 10;
    assert Digits.Pow10(2) == 100;
    assert Digits.Pow10(3) == 1000;
    assert Digits.Pow10(4) == 10000;
    assert Digits.Pow10(5) == 100000;
  }

  /** Quantizing fails exactly when the rounded coefficient reaches 10^28. */
  lemma QuantizeFailsIff(d: Decimal)
    ensures Quantize(d).None? <==> QuantizedCoefficient(d) >= Digits.Pow10(Precision)
  {
    Digits.DigitCount(QuantizedCoefficient(d), Precision);
  }

  /** A quantized value keeps the sign, has exponent -6, and its coefficient is the rounded one. */
  lemma QuantizeShape(d: Decimal)
    requires Quantize(d).Some?
    ensures Quantize(d).value.negative == d.negative
    ensures Quantize(d).value.exponent == -6
    ensures d.exponent >= -6 ==> Quantize(d).value.coefficient == d.coefficient * Digits.Pow10((d.exponent + 6) as nat)
    ensures d.exponent < -6 ==>
      var unit := Digits.Pow10((-6 - d.exponent) as nat);
      var c := Quantize(d).value.coefficient;
      2 * d.coefficient - unit < 2 * c * unit <= 2 * d.coefficient + unit
  {
  }

  lemma MagnitudeAtPlaces(q: Decimal)
    requires q.exponent == -6
    ensures Magnitude(q) == q.coefficient as real / 1000000.0
  {
    Pow10Six();
  }

  /** Quantizing moves a value by at most half a unit in the sixth decimal place. */
  lemma QuantizeWithinHalfMicro(d: Decimal)
    requires Quantize(d).Some?
    ensures -0.0000005 <= RealValue(Quantize(d).value) - RealValue(d) <= 0.0000005
  {
    var q := Quantize(d).value;
    if d.exponent >= -6 {
      QuantizeExactWhenShort(d);
    } else {
      QuantizeShape(d);
      RoundedMagnitudeWithin(d, q);
      SameSignDifference(d, q);
    }
  }

  lemma RoundedMagnitudeWithin(d: Decimal, q: Decimal)
    requires d.exponent < -6 && q.exponent == -6
    requires var u := Digits.Pow10((-6 - d.exponent) as nat);
      2 * d.coefficient - u < 2 * q.coefficient * u <= 2 * d.coefficient + u
    ensures -0.0000005 <= Magnitude(q) - Magnitude(d) <= 0.0000005
  {
    var k: nat := (-6 - d.exponent) as nat;
    var u := Digits.Pow10(k);
    MagnitudeRounded(d, q, k);
    RoundedWithin(d.coefficient, q.coefficient, u);
  }

  lemma SameSignDifference(d: Decimal, q: Decimal)
    requires d.negative == q.negative
    requires -0.0000005 <= Magnitude(q) - Magnitude(d) <= 0.0000005
    ensures -0.0000005 <= RealValue(q) - RealValue(d) <= 0.0000005
  {
  }

  /** Both magnitudes written over the common denominator 10^6 * 10^k. */
  lemma MagnitudeRounded(d: Decimal, q: Decimal, k: nat)
    requires q.exponent == -6 && d.exponent == -6 - k
    ensures Magnitude(q) == q.coefficient as real / 1000000.0
    ensures Magnitude(d) == d.coefficient as real * (1.0 / (1000000.0 * Digits.Pow10(k) as real))
  {
    MagnitudeAtPlaces(q);
    Digits.Pow10Add(6, k);
    Pow10Six();
    assert Digits.Pow10(6 + k) == 1000000 * Digits.Pow10(k);
  }

  lemma RoundedWithin(c: nat, r: nat, u: nat)
    requires u >= 1 && 2 * c - u < 2 * r * u <= 2 * c + u
    ensures -0.0000005 <= r as real / 1000000.0 - c as real * (1.0 / (1000000.0 * u as real)) <= 0.0000005
  {
    var x := r * u - c;
    var xr := x as real;
    var ur := u as real;
    assert xr == r as real * ur - c as real;
    assert r as real / 1000000.0 - c as real * (1.0 / (1000000.0 * ur)) == xr / (1000000.0 * ur);
    HalfUnitBound(xr, ur);
  }

  lemma HalfUnitBound(x: real, u: real)
    requires u > 0.0 && -u <= 2.0 * x <= u
    ensures -0.0000005 <= x / (1000000.0 * u) <= 0.0000005
  {
    var y := x / (1000000.0 * u);
    assert y * (1000000.0 * u) == x;
    assert 2.0 * 1000000.0 * y * u == 2.0 * x;
  }

  /** A value with at most six fractional digits keeps its numeric value. */
  lemma QuantizeExactWhenShort(d: Decimal)
    requires d.exponent >= -6 && Quantize(d).Some?
    ensures RealValue(Quantize(d).value) == RealValue(d)
  {
    QuantizeShape(d);
    ShiftedMagnitudeExact(d, Quantize(d).value);
  }

  lemma ShiftedMagnitudeExact(d: Decimal, q: Decimal)
    requires d.exponent >= -6 && q.exponent == -6
    requires q.coefficient == d.coefficient * Digits.Pow10((d.exponent + 6) as nat)
    ensures Magnitude(q) == Magnitude(d)
  {
    MagnitudeAtPlaces(q);
    Pow10Six();
    var shift: nat := (d.exponent + 6) as nat;
    var c := d.coefficient as real;
    var p := Digits.Pow10(shift) as real;
    assert q.coefficient as real == c * p;
    if d.exponent >= 0 {
      Digits.Pow10Add(d.exponent as nat, 6);
      var b := Digits.Pow10(d.exponent as nat) as real;
      assert p == b * 1000000.0;
      ShiftCancelsUp(c, b);
    } else {
      var back: nat := (-d.exponent) as nat;
      Digits.Pow10Add(shift, back);
      var b := Digits.Pow10(back) as real;
      assert p * b == 1000000.0;
      ShiftCancels(c, p, b);
    }
  }

  lemma ShiftCancelsUp(c: real, b: real)
    ensures c * (b * 1000000.0) / 1000000.0 == c * b
  {
  }

  lemma ShiftCancels(c: real, p: real, b: real)
    requires p > 0.0 && b > 0.0 && p * b == 1000000.0
    ensures c * p / 1000000.0 == c * (1.0 / b)
  {
    assert c * p / (p * b) == c / b;
  }

  /** At an exact tie the magnitude grows by half a unit: ties go away from zero. */
  lemma QuantizeTiesAwayFromZero(d: Decimal)
    requires d.exponent < -6
    requires 2 * (d.coefficient % Digits.Pow10((-6 - d.exponent) as nat)) == Digits.Pow10((-6 - d.exponent) as nat)
    requires Quantize(d).Some?
    ensures Magnitude(Quantize(d).value) == Magnitude(d) + 0.0000005
    ensures d.negative ==> RealValue(Quantize(d).value) < RealValue(d)
    ensures !d.negative ==> RealValue(Quantize(d).value) > RealValue(d)
  {
    var q := Quantize(d).value;
    var unit := Digits.Pow10((-6 - d.exponent) as nat);
    QuantizeShape(d);
    TieRoundsUp(d.coefficient, unit);
    TieMagnitude(d, q);
  }

  /** At a tie the rounded multiple of `unit` sits exactly half a unit above `c`. */
  lemma TieRoundsUp(c: nat, unit: nat)
    requires unit >= 1 && 2 * (c % unit) == unit
    ensures 2 * RoundHalfUp(c, unit) * unit == 2 * c + unit
  {
    var q := c / unit;
    assert c == q * unit + c % unit;
    assert (q + 1) * unit == q * unit + unit;
  }

  lemma TieMagnitude(d: Decimal, q: Decimal)
    requires d.exponent < -6 && q.exponent == -6
    requires var u := Digits.Pow10((-6 - d.exponent) as nat);
      2 * q.coefficient * u == 2 * d.coefficient + u
    ensures Magnitude(q) == Magnitude(d) + 0.0000005
  {
    var k: nat := (-6 - d.exponent) as nat;
    var u := Digits.Pow10(k);
    MagnitudeRounded(d, q, k);
    var xr := (q.coefficient * u - d.coefficient) as real;
    var ur := u as real;
    assert 2.0 * xr == ur;
    assert q.coefficient as real / 1000000.0 - d.coefficient as real * (1.0 / (1000000.0 * ur)) == xr / (1000000.0 * ur);
  }

  /** Quantizing an already quantized value changes nothing. */
  lemma QuantizeIdempotent(d: Decimal)
    requires Quantize(d).Some?
    ensures Quantize(Quantize(d).value) == Quantize(d)
  {
    var q := Quantize(d).value;
    assert Digits.Pow10(0) == 1;
    assert QuantizedCoefficient(q) == q.coefficient;
  }

  // ---------------------------------------------------------------------
  // Concrete values
  // ---------------------------------------------------------------------

  /** 12.1234565 rounds to 12.123457, and -12.1234565 to -12.123457. */
  lemma QuantizeTieExamples()
    ensures Quantize(Decimal(false, 121234565, -7)) == Some(Decimal(false, 12123457, -6))
    ensures Quantize(Decimal(true, 121234565, -7)) == Some(Decimal(true, 12123457, -6))
  {
    assert Digits.Pow10(1) == 10;
    assert QuantizedCoefficient(Decimal(false, 121234565, -7)) == 12123457;
    Digits.DigitCount(12123457, Precision);
    Pow10Six();
    Digits.Pow10Monotone(6, Precision);
  }

  /** 12.1234564 rounds down to 12.123456. */
  lemma QuantizeBelowTieExample()
    ensures Quantize(Decimal(false, 121234564, -7)) == Some(Decimal(false, 12123456, -6))
  {
    assert Digits.Pow10(1) == 10;
    assert QuantizedCoefficient(Decimal(false, 121234564, -7)) == 12123456;
    Digits.DigitCount(12123456, Precision);
    Pow10Six();
    Digits.Pow10Monotone(6, Precision);
  }

  lemma PadSixExample()
    ensures Digits.PadDigits(123457, 6) == "123457"
  {
    Pow10Six();
    assert Digits.Pow10(5) == 100000 && Digits.Pow10(4) == 10000 && Digits.Pow10(3) == 1000;
    assert Digits.Pow10(2) == 100 && Digits.Pow10(1) == 10;
    assert Digits.PadDigits(1, 1) == "1";
    assert Digits.PadDigits(12, 2) == "12";
    assert Digits.PadDigits(123, 3) == "123";
    assert Digits.PadDigits(1234, 4) == "1234";
    assert Digits.PadDigits(12345, 5) == "12345";
  }

  lemma StrOfTwelve(negative: bool)
    ensures Str(Decimal(negative, 12123457, -6)) == SignText(negative) + "12.123457"
  {
    Pow10Six();
    assert 12123457 / 1000000 == 12 && 12123457 % 1000000 == 123457;
    PadSixExample();
    assert Digits.NatToDigits(12) == "12" by {
      assert Digits.NatToDigits(1) == "1";
    }
    assert "12" + ("." + "123457") == "12.123457";
  }

  lemma StrExamples()
    ensures Str(Decimal(false, 12123457, -6)) == "12.123457"
    ensures Str(Decimal(true, 12123457, -6)) == "-12.123457"
  {
    StrOfTwelve(false);
    StrOfTwelve(true);
    assert SignText(false) + "12.123457" == "12.123457";
    assert SignText(true) + "12.123457" == "-12.123457";
  }

  /** The strings `clean` stores for 12.1234565 and -12.1234565. */
  lemma NormaliseTieExamples()
    ensures NormaliseCoordinate(Decimal(false, 121234565, -7)) == Some("12.123457")
    ensures NormaliseCoordinate(Decimal(true, 121234565, -7)) == Some("-12.123457")
  {
    QuantizeTieExamples();
    StrExamples();
  }

  // ---------------------------------------------------------------------
  // The normalised string
  // ---------------------------------------------------------------------

  lemma {:induction false} IndexOfAfterDigits(w: string, rest: string)
    requires Digits.AllDigits(w) && rest != [] && rest[0] == '.'
    ensures IndexOf(w + rest, '.') == |w|
  {
    if w != [] {
      assert (w + rest)[1..] == w[1..] + rest;
      IndexOfAfterDigits(w[1..], rest);
    }
  }

  /** Plain notation `[-]digits.digits` reads as the digits run together, scaled by the fraction's length. */
  lemma ParsePlainParts(negative: bool, whole: string, fraction: string)
    requires Digits.AllDigits(whole) && Digits.AllDigits(fraction) && |whole| >= 1
    ensures ParsePlain(SignText(negative) + (whole + ("." + fraction)))
         == Some(Decimal(negative, Digits.Value(whole) * Digits.Pow10(|fraction|) + Digits.Value(fraction), -|fraction|))
  {
    var body := whole + ("." + fraction);
    ParseUnsignedParts(negative, whole, fraction);
    if negative {
      var s := "-" + body;
      assert s[1..] == body;
    } else {
      assert SignText(false) + body == body;
      assert body[0] == whole[0];
    }
  }

  lemma ParseUnsignedParts(negative: bool, whole: string, fraction: string)
    requires Digits.AllDigits(whole) && Digits.AllDigits(fraction) && |whole| >= 1
    ensures ParseUnsigned(negative, whole + ("." + fraction))
         == Some(Decimal(negative, Digits.Value(whole) * Digits.Pow10(|fraction|) + Digits.Value(fraction), -|fraction|))
  {
    var rest := "." + fraction;
    var body := whole + rest;
    IndexOfAfterDigits(whole, rest);
    var dot := IndexOf(body, '.');
    assert dot == |whole| < |body|;
    assert body[..dot] == whole;
    assert body[dot..] == rest;
    assert rest[1..] == fraction;
    assert body[dot + 1..] == fraction by {
      assert body[dot + 1..] == body[dot..][1..];
    }
    assert ParseUnsigned(negative, body) == FromParts(negative, whole, fraction);
    FromDigitParts(negative, whole, fraction);
  }

  lemma FromDigitParts(negative: bool, whole: string, fraction: string)
    requires Digits.AllDigits(whole) && Digits.AllDigits(fraction) && |whole| >= 1
    ensures FromParts(negative, whole, fraction)
         == Some(Decimal(negative, Digits.Value(whole) * Digits.Pow10(|fraction|) + Digits.Value(fraction), -|fraction|))
  {
  }

  /** The string of a quantized value reads back as that same value. */
  lemma StrParsesBack(q: Decimal)
    requires q.exponent == -6
    ensures ParsePlain(Str(q)) == Some(q)
  {
    Pow10Six();
    var unit := Digits.Pow10(Places);
    var whole := Digits.NatToDigits(q.coefficient / unit);
    var fraction := Digits.PadDigits(q.coefficient % unit, Places);
    assert Str(q) == SignText(q.negative) + (whole + ("." + fraction));
    ParsePlainParts(q.negative, whole, fraction);
    DivModSplit(q.coefficient, unit);
  }

  lemma DivModSplit(c: nat, unit: nat)
    requires unit >= 1
    ensures (c / unit) * unit + c % unit == c
  {
  }

  /** Normalising the normalised string gives that string back. */
  lemma NormaliseIdempotent(d: Decimal)
    requires NormaliseCoordinate(d).Some?
    ensures ParsePlain(NormaliseCoordinate(d).value).Some?
    ensures NormaliseCoordinate(ParsePlain(NormaliseCoordinate(d).value).value) == NormaliseCoordinate(d)
  {
    var q := Quantize(d).value;
    StrParsesBack(q);
    QuantizeIdempotent(d);
  }
}
