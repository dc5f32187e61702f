/**
 * Exact decimal quantities as the loader handles them with Python's `Decimal`:
 * quantisation to ten fractional digits, the canonical rendering `format_decimal`,
 * a reader for decimal literals, and `parse_pricing_band`.
 * A decimal is modelled by the exact rational number (`real`) it denotes.
 */
module Decimals {
  import opened Wrappers
  import opened Text

  /** TIER_INCREMENT: the step from one tier's upper bound to the next tier's lower bound. */
  const Increment: real := 0.0000000001
  // PRICING_DECIMAL_PLACES is the same step: quantities are quantised to ten
  // fractional digits. The factor 10^10 is written as a literal in the arithmetic
  // below so that the solver sees multiplications by a number.
  /** UNLIMITED_TIER_SENTINEL: the wire value of an unbounded upper band. */
  const UnlimitedSentinel: real := -1.0

  function Abs(v: real): (a: real)
    ensures a >= 0.0 && (a == v || a == -v)
  {
    if v < 0.0 then -v else v
  }

  function Pow10(n: nat): (p: nat)
    ensures p >= 1
  {
    if n == 0 then 1 else 10 * Pow10(n - 1)
  }

  /** True when `v` has at most ten fractional digits. */
  predicate OnGrid(v: real) {
    (v * 10000000000.0).Floor as real == v * 10000000000.0
  }

  /**
   * Rounding to the nearest integer, ties to the even neighbour: the default
   * rounding of Python's decimal context, which `quantize` uses.
   */
  function RoundHalfEven(x: real): (n: nat)
    requires x >= 0.0
    ensures n as real - 0.5 <= x <= n as real + 0.5
    ensures (x == n as real - 0.5 || x == n as real + 0.5) ==> n % 2 == 0
  {
    var f := x.Floor;
    var d := x - f as real;
    if d < 0.5 then f
    else if d > 0.5 then f + 1
    else if f % 2 == 0 then f
    else f + 1
  }

  /** The magnitude of `v` counted in steps of 10^-10, rounded half-even. */
  function Steps(v: real): nat {
    RoundHalfEven(Abs(v) * 10000000000.0)
  }

  /** `value.quantize(Decimal("0.0000000001"))`: the sign is kept, the magnitude is rounded. */
  function Quantize(v: real): real {
    Signed(v < 0.0, Steps(v) as real * 0.0000000001)
  }

  lemma FloorOfWhole(m: int)
    ensures (m as real).Floor == m
  {
  }

  /** Quantising lands on the ten-digit grid. */
  lemma QuantizeOnto(v: real)
    ensures OnGrid(Quantize(v))
  {
    var n := Steps(v);
    var m: int := if v < 0.0 then -(n as int) else n;
    assert Quantize(v) * 10000000000.0 == m as real;
    FloorOfWhole(m);
  }

  /** Quantising moves a value by at most half a step. */
  lemma QuantizeClose(v: real)
    ensures Abs(Quantize(v) - v) <= Increment / 2.0
  {
    var x := Abs(v) * 10000000000.0;
    var n := Steps(v);
    assert n as real - 0.5 <= x <= n as real + 0.5;
  }

  /** Values already on the grid are left alone by quantising. */
  lemma QuantizeOnGrid(v: real)
    requires OnGrid(v)
    ensures Quantize(v) == v
  {
    var k := (v * 10000000000.0).Floor;
    var j: int := if v < 0.0 then -k else k;
    var x := Abs(v) * 10000000000.0;
    assert x == j as real;
    FloorOfWhole(j);
    assert Steps(v) == j;
  }

  /** A whole value is on the grid. */
  lemma WholeOnGrid(v: real)
    requires v == v.Floor as real
    ensures OnGrid(v)
  {
    var k := v.Floor;
    var m := k * 10000000000;
    assert m as real == k as real * 10000000000.0;
    assert v * 10000000000.0 == m as real;
    FloorOfWhole(m);
  }

  /** Exactly `n` decimal digits of `r`, zero padded on the left. */
  function FixedDigits(r: nat, n: nat): (s: string)
    requires r < Pow10(n)
    ensures |s| == n && AllDigits(s)
  {
    if n == 0 then [] else FixedDigits(r / 10, n - 1) + [DigitChar(r % 10)]
  }

  lemma {:induction false} FixedDigitsValue(r: nat, n: nat)
    requires r < Pow10(n)
    ensures DigitsValue(FixedDigits(r, n)) == r
  {
    if n > 0 {
      FixedDigitsValue(r / 10, n - 1);
      var s := FixedDigits(r, n);
      assert s[..|s| - 1] == FixedDigits(r / 10, n - 1);
    }
  }

  function SignText(negative: bool): string {
    if negative then "-" else ""
  }

  /**
   * `format_decimal`: whole values print with no fractional part; any other value is
   * quantised to ten places and printed by `RenderSteps`.
   */
  function FormatDecimal(v: real): string {
    if v == v.Floor as real then
      SignText(v < 0.0) + NatDigits(if v < 0.0 then -v.Floor else v.Floor)
    else
      RenderSteps(v < 0.0, Steps(v))
  }

  /**
   * The fractional branch of `format_decimal` for a quantised magnitude of `q` steps:
   * print with exactly ten fractional digits (`f"{x:.10f}"`), then strip trailing
   * zeros and a trailing point, falling back to `"0"` if nothing were left.
   */
  function RenderSteps(negative: bool, q: nat): string {
    var text := SignText(negative) + (NatDigits(q / 10000000000) + "." + FixedDigits(q % 10000000000, 10));
    var stripped := RStrip(RStrip(text, '0'), '.');
    if stripped == "" then "0" else stripped
  }

  /** The unsigned text `RenderSteps` ends up with: whole digits, then the fraction without its trailing zeros. */
  function TidySteps(q: nat): string {
    var whole := NatDigits(q / 10000000000);
    var frac := RStrip(FixedDigits(q % 10000000000, 10), '0');
    if frac == [] then whole else whole + "." + frac
  }

  /** The value of the digits after a decimal point. */
  function FracValue(s: string): real
    requires AllDigits(s)
  {
    DigitsValue(s) as real / Pow10(|s|) as real
  }

  function Signed(negative: bool, x: real): real {
    if negative then -x else x
  }

  /**
   * `Decimal(text)` for plain decimal literals: an optional sign, then digits with at most
   * one decimal point and at least one digit. Anything else is a parse failure.
   */
  function ParseDecimal(s: string): Option<real> {
    if |s| > 0 && (s[0] == '-' || s[0] == '+') then
      match ParseUnsigned(s[1..])
      case None => None
      case Some(x) => Some(Signed(s[0] == '-', x))
    else ParseUnsigned(s)
  }

  /** An unsigned decimal literal: digits with at most one point, at least one digit. */
  function ParseUnsigned(body: string): Option<real> {
    match IndexOf(body, '.')
    case None =>
      if |body| > 0 && AllDigits(body) then Some(DigitsValue(body) as real) else None
    case Some(i) =>
      var whole := body[..i];
      var frac := body[i + 1..];
      if AllDigits(whole) && AllDigits(frac) && |whole| + |frac| > 0 then
        Some(DigitsValue(whole) as real + FracValue(frac))
      else None
  }

  /** Trailing zeros after the decimal point do not change the value. */
  lemma {:induction false} FracValueRStrip(s: string)
    requires AllDigits(s)
    ensures AllDigits(RStrip(s, '0')) && FracValue(RStrip(s, '0')) == FracValue(s)
    decreases |s|
  {
    if |s| > 0 && s[|s| - 1] == '0' {
      var t := s[..|s| - 1];
      FracValueRStrip(t);
      FracValueZero(t, s);
    }
  }

  /** Appending one zero digit to a fraction keeps its value. */
  lemma FracValueZero(t: string, s: string)
    requires AllDigits(t) && s == t + "0"
    ensures AllDigits(s) && FracValue(s) == FracValue(t)
  {
    assert s[..|s| - 1] == t;
    var a := DigitsValue(t) as real;
    var b := Pow10(|t|) as real;
    assert DigitsValue(s) as real == 10.0 * a;
    assert Pow10(|s|) as real == 10.0 * b;
    ScaleQuotient(a, b);
  }

  lemma ScaleQuotient(a: real, b: real)
    requires b > 0.0
    ensures (10.0 * a) / (10.0 * b) == a / b
  {
    assert (a / b) * (10.0 * b) == 10.0 * a;
  }

  /** The two `rstrip` calls on the unsigned ten-digit text give `TidySteps`. */
  lemma TidyStepsStrip(q: nat)
    ensures var text := NatDigits(q / 10000000000) + "." + FixedDigits(q % 10000000000, 10);
            RStrip(RStrip(text, '0'), '.') == TidySteps(q)
  {
    var whole := NatDigits(q / 10000000000);
    var digits := FixedDigits(q % 10000000000, 10);
    var frac := RStrip(digits, '0');
    var text := whole + "." + digits;
    assert IsDigit(whole[0]) && IsDigit(whole[|whole| - 1]);
    if frac == [] {
      RStripAllOfSuffix(whole + ".", digits, '0');
      assert RStrip(whole + ".", '0') == whole + ".";
      assert (whole + ".")[..|whole + "."| - 1] == whole;
      assert RStrip(RStrip(text, '0'), '.') == whole;
    } else {
      RStripAppend(whole + ".", digits, '0');
      var t := whole + "." + frac;
      assert RStrip(text, '0') == t;
      assert t[|t| - 1] == digits[|frac| - 1];
      assert IsDigit(digits[|frac| - 1]);
      assert RStrip(t, '.') == t;
    }
  }

  /** `TidySteps` starts and ends with a digit. */
  lemma TidyStepsEnds(q: nat, t: string)
    requires t == TidySteps(q)
    ensures t != [] && IsDigit(t[0]) && IsDigit(t[|t| - 1])
  {
    var whole := NatDigits(q / 10000000000);
    var digits := FixedDigits(q % 10000000000, 10);
    var frac := RStrip(digits, '0');
    assert IsDigit(whole[0]) && IsDigit(whole[|whole| - 1]);
    if frac != [] {
      assert t == whole + "." + frac;
      assert t[|t| - 1] == digits[|frac| - 1];
      assert t[0] == whole[0];
    }
  }

  /** `RenderSteps` is the sign followed by `TidySteps`. */
  lemma RenderStepsForm(negative: bool, q: nat)
    ensures RenderSteps(negative, q) == SignText(negative) + TidySteps(q)
  {
    var u := NatDigits(q / 10000000000) + "." + FixedDigits(q % 10000000000, 10);
    TidyStepsStrip(q);
    var once := RStrip(u, '0');
    assert once != [];
    RStripAppend(SignText(negative), u, '0');
    RStripAppend(SignText(negative), once, '.');
  }

  /** A sign in front of an unsigned literal negates it or leaves it alone. */
  lemma ParseSigned(negative: bool, u: string, x: real, s: string)
    requires u != [] && IsDigit(u[0]) && ParseUnsigned(u) == Some(x)
    requires s == SignText(negative) + u
    ensures ParseDecimal(s) == Some(Signed(negative, x))
  {
    if negative {
      assert s[1..] == u;
    } else {
      assert s == u;
    }
  }

  /** The digits of a whole number read back as that number. */
  lemma ParseUnsignedWhole(n: nat, ds: string)
    requires ds == NatDigits(n)
    ensures ParseUnsigned(ds) == Some(n as real)
  {
    NatDigitsValue(n);
    assert forall i :: 0 <= i < |ds| ==> ds[i] != '.';
  }

  /** Where `IndexOf` finds the point in `whole + "." + frac`, and the two sides it leaves. */
  lemma PointAt(whole: string, frac: string)
    requires '.' !in whole
    ensures var body := whole + "." + frac;
            IndexOf(body, '.') == Some(|whole|) && body[..|whole|] == whole && body[|whole| + 1..] == frac
  {
    var body := whole + "." + frac;
    assert body[..|whole|] == whole;
    IndexOfFirst(body, '.', |whole|);
    assert body[|whole| + 1..] == frac;
  }

  /** Whole digits, a point and fraction digits read back as their value. */
  lemma ParseUnsignedFraction(whole: string, frac: string, body: string)
    requires AllDigits(whole) && AllDigits(frac) && |whole| > 0
    requires body == whole + "." + frac
    ensures ParseUnsigned(body) == Some(DigitsValue(whole) as real + FracValue(frac))
  {
    assert '.' !in whole by {
      assert forall i :: 0 <= i < |whole| ==> whole[i] != '.';
    }
    PointAt(whole, frac);
  }

  /** Whole steps and the remainder after them add back up to `q` steps of 10^-10. */
  lemma StepsSplit(q: nat)
    ensures (q / 10000000000) as real + (q % 10000000000) as real / 10000000000.0 == q as real * 0.0000000001
  {
    var w := q / 10000000000;
    var m := q % 10000000000;
    assert q == w * 10000000000 + m;
    assert q as real == w as real * 10000000000.0 + m as real;
  }

  lemma Pow10Ten()
    ensures Pow10(10) == 10000000000
  {
  }

  /** The ten fractional digits of `q` steps, without trailing zeros, denote the remainder. */
  lemma TidyFraction(q: nat)
    ensures var frac := RStrip(FixedDigits(q % 10000000000, 10), '0');
            AllDigits(frac) && FracValue(frac) == (q % 10000000000) as real / 10000000000.0
  {
    Pow10Ten();
    var r := q % 10000000000;
    var digits := FixedDigits(r, 10);
    FixedDigitsValue(r, 10);
    FracValueRStrip(digits);
    assert FracValue(digits) == r as real / 10000000000.0;
  }

  /** `TidySteps(q)` reads back as `q` steps of 10^-10. */
  lemma ParseTidySteps(q: nat, t: string)
    requires t == TidySteps(q)
    ensures ParseUnsigned(t) == Some(q as real * 0.0000000001)
  {
    var whole := NatDigits(q / 10000000000);
    var frac := RStrip(FixedDigits(q % 10000000000, 10), '0');
    if frac == [] {
      ParseTidyWhole(q, whole);
    } else {
      ParseTidyFraction(q, whole, frac, t);
    }
  }

  /** The case of `ParseTidySteps` where the fraction is all zeros. */
  lemma ParseTidyWhole(q: nat, whole: string)
    requires RStrip(FixedDigits(q % 10000000000, 10), '0') == []
    requires whole == NatDigits(q / 10000000000)
    ensures ParseUnsigned(whole) == Some(q as real * 0.0000000001)
  {
    TidyFraction(q);
    StepsSplit(q);
    assert (q % 10000000000) as real / 10000000000.0 == 0.0;
    ParseUnsignedWhole(q / 10000000000, whole);
  }

  /** The case of `ParseTidySteps` with fraction digits left after stripping. */
  lemma ParseTidyFraction(q: nat, whole: string, frac: string, t: string)
    requires whole == NatDigits(q / 10000000000)
    requires frac == RStrip(FixedDigits(q % 10000000000, 10), '0')
    requires t == whole + "." + frac
    ensures ParseUnsigned(t) == Some(q as real * 0.0000000001)
  {
    NatDigitsValue(q / 10000000000);
    TidyFraction(q);
    StepsSplit(q);
    ParseUnsignedFraction(whole, frac, t);
  }

  /** Reading a rendered value back gives the quantised value. */
  lemma FormatDecimalParse(v: real)
    ensures ParseDecimal(FormatDecimal(v)) == Some(Quantize(v))
  {
    if v == v.Floor as real {
      var n: nat := if v < 0.0 then -v.Floor else v.Floor;
      FormatWholeParse(v, n, FormatDecimal(v));
      WholeOnGrid(v);
      QuantizeOnGrid(v);
    } else {
      FormatFractionParse(v, FormatDecimal(v));
    }
  }

  /** A whole value prints as its digits and reads back as itself. */
  lemma FormatWholeParse(v: real, n: nat, s: string)
    requires v == v.Floor as real && n == if v < 0.0 then -v.Floor else v.Floor
    requires s == SignText(v < 0.0) + NatDigits(n)
    ensures ParseDecimal(s) == Some(v)
  {
    ParseUnsignedWhole(n, NatDigits(n));
    ParseSigned(v < 0.0, NatDigits(n), n as real, s);
  }

  /** A value with a fraction prints through `RenderSteps` and reads back quantised. */
  lemma FormatFractionParse(v: real, s: string)
    requires s == RenderSteps(v < 0.0, Steps(v))
    ensures ParseDecimal(s) == Some(Quantize(v))
  {
    var q := Steps(v);
    QuantizeSteps(v, q);
    ParseRenderSteps(v < 0.0, q, s);
  }

  /** Quantising keeps the sign and counts the magnitude in whole steps. */
  lemma QuantizeSteps(v: real, q: nat)
    requires q == Steps(v)
    ensures Quantize(v) == Signed(v < 0.0, q as real * 0.0000000001)
  {
  }

  /** The rendering of `q` steps reads back as `q` steps of 10^-10, with its sign. */
  lemma ParseRenderSteps(negative: bool, q: nat, s: string)
    requires s == RenderSteps(negative, q)
    ensures ParseDecimal(s) == Some(Signed(negative, q as real * 0.0000000001))
  {
    RenderStepsForm(negative, q);
    ParseSignedTidy(negative, q, s);
  }

  /** A sign followed by `TidySteps(q)` reads back as `q` steps of 10^-10, with that sign. */
  lemma ParseSignedTidy(negative: bool, q: nat, s: string)
    requires s == SignText(negative) + TidySteps(q)
    ensures ParseDecimal(s) == Some(Signed(negative, q as real * 0.0000000001))
  {
    TidyStepsEnds(q, TidySteps(q));
    ParseTidySteps(q, TidySteps(q));
    ParseSigned(negative, TidySteps(q), q as real * 0.0000000001, s);
  }

  /** For a value with at most ten fractional digits, rendering and reading back is the identity. */
  lemma FormatDecimalRoundTrip(v: real)
    requires OnGrid(v)
    ensures ParseDecimal(FormatDecimal(v)) == Some(v)
  {
    FormatDecimalParse(v);
    QuantizeOnGrid(v);
  }

  /** Where a point appears in a rendering, at most ten digits follow it and the last is not zero. */
  predicate FractionTidy(s: string) {
    forall i :: 0 <= i < |s| && s[i] == '.' ==> 0 < |s| - 1 - i <= 10 && s[|s| - 1] != '0'
  }

  /** The shape of `TidySteps`. */
  lemma TidyStepsShape(q: nat)
    ensures FractionTidy(TidySteps(q))
  {
    var whole := NatDigits(q / 10000000000);
    var digits := FixedDigits(q % 10000000000, 10);
    var frac := RStrip(digits, '0');
    var t := TidySteps(q);
    assert forall i :: 0 <= i < |whole| ==> whole[i] != '.';
    if frac != [] {
      assert forall i :: 0 <= i < |frac| ==> frac[i] == digits[i];
      assert forall i :: 0 <= i < |frac| ==> frac[i] != '.';
      assert t[|t| - 1] == frac[|frac| - 1];
      forall i | 0 <= i < |t| && t[i] == '.'
        ensures i == |whole|
      {
      }
    }
  }

  /** A sign in front keeps a string tidy. */
  lemma SignedTidy(negative: bool, u: string)
    requires FractionTidy(u)
    ensures FractionTidy(SignText(negative) + u)
  {
    var s := SignText(negative) + u;
    forall i | 0 <= i < |s| && s[i] == '.'
      ensures 0 < |s| - 1 - i <= 10 && s[|s| - 1] != '0'
    {
      if negative {
        assert s[i] == u[i - 1];
        assert s[|s| - 1] == u[|u| - 1];
      } else {
        assert s == u;
      }
    }
  }

  /**
   * Every rendering has the shape `Rendered` describes; whole values print without a
   * point, and a non-negative value prints without a sign, so never as the sentinel `-1`.
   */
  lemma FormatDecimalShape(v: real)
    ensures Rendered(FormatDecimal(v), v == v.Floor as real, v >= 0.0)
  {
    if v == v.Floor as real {
      WholeShape(v < 0.0, if v < 0.0 then -v.Floor else v.Floor, FormatDecimal(v));
    } else {
      FractionShape(v < 0.0, Steps(v), FormatDecimal(v));
    }
  }

  /**
   * The shape of a rendering: never empty and ending in a digit; no point when `whole`;
   * every point followed by one to ten digits, the last not zero; and, when `unsigned`,
   * starting with a digit.
   */
  predicate Rendered(s: string, whole: bool, unsigned: bool) {
    && s != [] && IsDigit(s[|s| - 1])
    && (whole ==> '.' !in s)
    && FractionTidy(s)
    && (unsigned ==> IsDigit(s[0]))
  }

  /** The whole-number branch of `FormatDecimal` has the rendering shape. */
  lemma WholeShape(negative: bool, n: nat, s: string)
    requires s == SignText(negative) + NatDigits(n)
    ensures Rendered(s, true, !negative)
  {
    var ds := NatDigits(n);
    assert forall i :: 0 <= i < |ds| ==> ds[i] != '.';
    assert s[|s| - 1] == ds[|ds| - 1];
    assert !negative ==> s == ds;
  }

  /** The fractional branch of `FormatDecimal` has the rendering shape. */
  lemma FractionShape(negative: bool, q: nat, s: string)
    requires s == RenderSteps(negative, q)
    ensures Rendered(s, false, !negative)
  {
    var t := TidySteps(q);
    RenderStepsForm(negative, q);
    TidyStepsEnds(q, t);
    TidyStepsShape(q);
    SignedTidy(negative, t);
    assert s[|s| - 1] == t[|t| - 1];
    assert !negative ==> s == t;
  }

  /**
   * `parse_pricing_band`: a missing, blank or unparsable band and the sentinel `-1`
   * all mean "unlimited" (`None`); anything else is its numeric value.
   */
  function ParsePricingBand(value: Option<string>): (r: Option<real>)
    ensures r.Some? ==> r.value != UnlimitedSentinel
    ensures r.Some? <==> value.Some? && ParseDecimal(Strip(value.value)).Some?
                         && ParseDecimal(Strip(value.value)).value != UnlimitedSentinel
    ensures r.Some? ==> Some(r.value) == ParseDecimal(Strip(value.value))
  {
    match value
    case None => None
    case Some(raw) =>
      var text := Strip(raw);
      if text == [] then None
      else match ParseDecimal(text)
        case None => None
        case Some(n) => if n == UnlimitedSentinel then None else Some(n)
  }

  /** A band written by `FormatDecimal` is read back by `parse_pricing_band` as the same value. */
  lemma PricingBandRoundTrip(v: real)
    requires OnGrid(v) && v >= 0.0
    ensures ParsePricingBand(Some(FormatDecimal(v))) == Some(v)
  {
    FormatDecimalShape(v);
    FormatDecimalRoundTrip(v);
    BandReadBack(FormatDecimal(v), v);
  }

  /** Text that starts and ends with a digit and parses to a value other than -1 is read as that value. */
  lemma BandReadBack(s: string, v: real)
    requires s != [] && IsDigit(s[0]) && IsDigit(s[|s| - 1])
    requires ParseDecimal(s) == Some(v) && v != UnlimitedSentinel
    ensures ParsePricingBand(Some(s)) == Some(v)
  {
    StripNoSpace(s);
  }

  /** A rendering never has whitespace at either end, so `parse_pricing_band` reads it as written. */
  lemma FormatDecimalUnpadded(v: real)
    ensures Strip(FormatDecimal(v)) == FormatDecimal(v)
  {
    var s := FormatDecimal(v);
    FormatDecimalShape(v);
    if v < 0.0 && v != v.Floor as real {
      RenderStepsForm(true, Steps(v));
    }
    assert s[0] == '-' || IsDigit(s[0]);
    StripNoSpace(s);
  }

  /**
   * Any value written by `format_decimal` reads back through `parse_pricing_band` as its
   * quantisation, except that a value quantising to -1 reads back as unlimited.
   */
  lemma FormatDecimalBand(v: real)
    ensures ParsePricingBand(Some(FormatDecimal(v))) ==
            if Quantize(v) == UnlimitedSentinel then None else Some(Quantize(v))
  {
    FormatDecimalUnpadded(v);
    FormatDecimalParse(v);
    FormatDecimalShape(v);
  }

  /** The zero-padded rendering of 0 is all zeros. */
  lemma {:induction false} ZeroDigits(n: nat)
    ensures forall i :: 0 <= i < n ==> FixedDigits(0, n)[i] == '0'
  {
    if n > 0 {
      ZeroDigits(n - 1);
      assert FixedDigits(0, n) == FixedDigits(0, n - 1) + ['0'];
    }
  }

  /** Every value that quantises to -1, bounded or not, is written as the sentinel text `-1`. */
  lemma SentinelRendering(v: real)
    requires Quantize(v) == UnlimitedSentinel
    ensures FormatDecimal(v) == "-1"
  {
    assert v < 0.0 && Steps(v) == 10000000000;
    if v == v.Floor as real {
      WholeOnGrid(v);
      QuantizeOnGrid(v);
      assert NatDigits(1) == "1";
    } else {
      RenderStepsForm(true, Steps(v));
      ZeroDigits(10);
      assert RStrip(FixedDigits(0, 10), '0') == [];
      assert TidySteps(10000000000) == "1";
    }
  }

  /** A missing band, and one whose text is blank or all whitespace, reads as unlimited. */
  lemma BlankBandUnlimited(s: string)
    requires AllSpace(s)
    ensures ParsePricingBand(None) == None
    ensures ParsePricingBand(Some(s)) == None
  {
  }

  /**
   * The sentinel test is numeric: `-1` written with trailing zeros or padded with whitespace
   * also reads as unlimited.
   */
  lemma SentinelSpellings()
    ensures ParsePricingBand(Some("-1.0")) == None
    ensures ParsePricingBand(Some("-1.00")) == None
    ensures ParsePricingBand(Some(" -1 ")) == None
  {
    SpelledSentinel("-1.0", "0");
    SpelledSentinel("-1.00", "00");
    PaddedSentinel();
  }

  lemma PaddedSentinel()
    ensures ParsePricingBand(Some(" -1 ")) == None
  {
    var padded := " " + "-1" + " ";
    StripPadded(" ", "-1", " ");
    StrippedSentinel(padded);
    assert padded == " -1 ";
  }

  /** A text that strips to `-1` reads as unlimited. */
  lemma StrippedSentinel(s: string)
    requires Strip(s) == "-1"
    ensures ParsePricingBand(Some(s)) == None
  {
    PricingBandSentinel();
  }

  /** `-1.` followed by zeros is a spelling of -1. */
  lemma SpelledSentinel(s: string, zeros: string)
    requires s == "-1." + zeros && zeros != [] && forall i :: 0 <= i < |zeros| ==> zeros[i] == '0'
    ensures ParsePricingBand(Some(s)) == None
  {
    var u := "1." + zeros;
    assert AllDigits(zeros);
    assert DigitsValue(zeros) == 0 by {
      ZerosValue(zeros);
    }
    PointAt("1", zeros);
    ParseUnsignedFraction("1", zeros, u);
    assert DigitsValue("1") == 1;
    ParseSigned(true, u, 1.0, s);
    StripNoSpace(s);
  }

  /** Digits that are all zero have value 0. */
  lemma {:induction false} ZerosValue(zeros: string)
    requires forall i :: 0 <= i < |zeros| ==> zeros[i] == '0'
    ensures AllDigits(zeros) && DigitsValue(zeros) == 0
  {
    if zeros != [] {
      ZerosValue(zeros[..|zeros| - 1]);
    }
  }

  /** The sentinel text `-1` reads as unlimited. */
  lemma PricingBandSentinel()
    ensures ParseDecimal("-1") == Some(UnlimitedSentinel)
    ensures ParsePricingBand(Some("-1")) == None
  {
    StripNoSpace("-1");
    ParseUnsignedWhole(1, "1");
    ParseSigned(true, "1", 1.0, "-1");
  }
}
