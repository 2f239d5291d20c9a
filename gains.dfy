/** Band gains: the band count, the gain range, the CLAMP macro, and the
    one-decimal text form a preset stores a gain in. Gains are reals; the
    only arithmetic on them is clamping and rounding to tenths. */
module Gains {
  import opened Text

  const NUM_BANDS: nat := 10

  /** Gain bounds in dB (EQ_GAIN_MIN and EQ_GAIN_MAX). */
  const EQ_GAIN_MIN: real := -24.0
  const EQ_GAIN_MAX: real := 12.0

  /** The CLAMP macro of GLib. */
  function Clamp(x: real, low: real, high: real): (r: real)
    requires low <= high
    ensures low <= r <= high
    ensures low <= x <= high ==> r == x
    ensures x < low ==> r == low
    ensures x > high ==> r == high
  {
    if x > high then high else if x < low then low else x
  }

  /** The number of tenths `printf("%.1f")` prints for a non-negative value:
      the nearest integer to 10 * x, ties going to the even one. */
  function Tenths(x: real): (t: nat)
    requires x >= 0.0
    ensures -0.5 <= t as real - 10.0 * x <= 0.5
    ensures t as real - 10.0 * x == 0.5 || 10.0 * x - t as real == 0.5 ==> t % 2 == 0
  {
    var n := (10.0 * x).Floor;
    var f := 10.0 * x - n as real;
    if f > 0.5 || (f == 0.5 && n % 2 == 1) then n + 1 else n
  }

  function Abs(x: real): real { if x < 0.0 then -x else x }

  /** The value a gain has once printed with one decimal and read back. */
  function Rounded(g: real): (r: real)
    ensures -0.05 <= r - g <= 0.05
  {
    if g < 0.0 then -(Tenths(-g) as real / 10.0) else Tenths(g) as real / 10.0
  }

  /** `printf("%.1f", g)`: a minus sign for every negative value (so small
      negative values print as "-0.0"), the whole tenths, a point, one digit. */
  function FormatGain(g: real): string
  {
    var t := Tenths(Abs(g));
    (if g < 0.0 then "-" else "") + NatToString(t / 10) + "." + [DigitChar(t % 10)]
  }

  /** The digits `%.1f` prints before and after the point read back as the
      number they denote. */
  lemma MagnitudeOneDecimal(whole: nat, digit: nat)
    requires digit < 10
    ensures Magnitude(NatToString(whole) + "." + [DigitChar(digit)], 0)
            == whole as real + digit as real / 10.0
  {
    var w := NatToString(whole);
    var d := [DigitChar(digit)];
    assert w + "." + d == w + ("." + d);
    MagnitudeOfRun(w, "." + d, 0);
    NatToStringValue(whole);
    assert ("." + d)[1..] == d;
    assert d[1..] == [];
    assert Fraction(d, 0.1) == digit as real * 0.1;
  }

  /** `atof` reads a signed decimal with one fractional digit. */
  lemma AtofOneDecimal(negative: bool, whole: nat, digit: nat)
    requires digit < 10
    ensures var magnitude := whole as real + digit as real / 10.0;
            Atof((if negative then "-" else "") + NatToString(whole) + "." + [DigitChar(digit)])
            == if negative then -magnitude else magnitude
  {
    var unsigned := NatToString(whole) + "." + [DigitChar(digit)];
    assert IsDigit(unsigned[0]);
    var s := (if negative then "-" else "") + unsigned;
    assert s == (if negative then "-" else "") + NatToString(whole) + "." + [DigitChar(digit)];
    assert s[0] == (if negative then '-' else unsigned[0]);
    if negative {
      assert s[1..] == unsigned;
    } else {
      assert s == unsigned;
    }
    MagnitudeOneDecimal(whole, digit);
  }

  /** `atof` reads back the rounded gain from its one-decimal text. */
  lemma AtofFormatGain(g: real)
    ensures Atof(FormatGain(g)) == Rounded(g)
  {
    var t := Tenths(Abs(g));
    AtofOneDecimal(g < 0.0, t / 10, t % 10);
    WholeAndTenth(t);
    assert Abs(g) == if g < 0.0 then -g else g;
  }

  /** Tenths split into the whole part and the digit after the point. */
  lemma WholeAndTenth(t: nat)
    ensures (t / 10) as real + (t % 10) as real / 10.0 == t as real / 10.0
  {
    assert t == 10 * (t / 10) + t % 10;
  }

  /** Rounding to tenths keeps a gain inside the gain range, whose bounds are
      whole tenths. */
  lemma RoundedInRange(g: real)
    requires EQ_GAIN_MIN <= g <= EQ_GAIN_MAX
    ensures EQ_GAIN_MIN <= Rounded(g) <= EQ_GAIN_MAX
  {
    if g < 0.0 {
      var t := Tenths(-g);
      assert t as real <= 240.5;
      assert t <= 240;
    } else {
      var t := Tenths(g);
      assert t as real <= 120.5;
      assert t <= 120;
    }
  }

  /** Printing and reading back a second time changes nothing more. */
  lemma RoundedIdempotent(g: real)
    ensures Rounded(Rounded(g)) == Rounded(g)
  {
    var t := Tenths(Abs(g));
    var r := Rounded(g);
    assert Abs(r) == t as real / 10.0;
    assert 10.0 * Abs(r) == t as real;
    assert (10.0 * Abs(r)).Floor == t;
    assert Tenths(Abs(r)) == t;
  }
}
