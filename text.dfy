/** The C-library text conversions the plugin relies on, over `string`:
    `%d` formatting, the `%d` conversion of `sscanf`, and `atof`.
    Every conversion is read in the C locale: the decimal separator is '.'. */
module Text {
  import opened Wrappers

  predicate IsDigit(c: char) { '0' <= c <= '9' }

  /** `isspace` in the C locale: blank, and tab through carriage return. */
  predicate IsSpace(c: char) { c == ' ' || '\t' <= c <= '\r' }

  predicate AllDigits(s: string) { forall i | 0 <= i < |s| :: IsDigit(s[i]) }

  function DigitChar(d: nat): (c: char)
    requires d < 10
    ensures IsDigit(c)
  {
    ('0' as int + d) as char
  }

  function DigitValue(c: char): (d: nat)
    requires IsDigit(c)
    ensures d < 10 && DigitChar(d) == c
  {
    c as int - '0' as int
  }

  /** Decimal digits of `n`, most significant first, without leading zeros. */
  function NatToString(n: nat): (s: string)
    ensures |s| > 0 && AllDigits(s)
    ensures |s| > 1 ==> s[0] != '0'
  {
    if n < 10 then [DigitChar(n)] else NatToString(n / 10) + [DigitChar(n % 10)]
  }

  /** `printf("%d", i)`. */
  function IntToString(i: int): (s: string)
    ensures |s| > 0
    ensures i < 0 <==> s[0] == '-'
  {
    if i < 0 then "-" + NatToString(-i) else NatToString(i)
  }

  /** The digits at the start of `s`, read left to right onto `acc`: each
      digit multiplies what was read by ten and adds its own value. */
  function Digits(s: string, acc: nat): nat
  {
    if s != [] && IsDigit(s[0]) then Digits(s[1..], 10 * acc + DigitValue(s[0])) else acc
  }

  /** The `%d` conversion of `sscanf`: white space, an optional sign, then at
      least one digit; `None` when no digit follows. */
  function ScanInt(s: string): Option<int>
  {
    if s != [] && IsSpace(s[0]) then ScanInt(s[1..])
    else
      var negative := s != [] && s[0] == '-';
      var digits := if s != [] && (s[0] == '-' || s[0] == '+') then s[1..] else s;
      if digits != [] && IsDigit(digits[0]) then
        var n := Digits(digits, 0);
        Some(if negative then -(n as int) else n)
      else None
  }

  /** The digits `atof` reads before the point, left to right: `acc` is the
      value of those read so far. A '.' hands over to the fraction. */
  function Magnitude(s: string, acc: nat): real
  {
    if s != [] && IsDigit(s[0]) then Magnitude(s[1..], 10 * acc + DigitValue(s[0]))
    else if s != [] && s[0] == '.' then acc as real + Fraction(s[1..], 0.1)
    else acc as real
  }

  /** The digits `atof` reads after the point, the first one worth `unit`. */
  function Fraction(s: string, unit: real): real
  {
    if s != [] && IsDigit(s[0]) then DigitValue(s[0]) as real * unit + Fraction(s[1..], unit / 10.0)
    else 0.0
  }

  /** `atof`: white space, an optional sign, then the decimal magnitude; 0.0
      when no digit follows. */
  function Atof(s: string): real
  {
    if s == [] then 0.0
    else if IsSpace(s[0]) then Atof(s[1..])
    else if s[0] == '-' then -Magnitude(s[1..], 0)
    else if s[0] == '+' then Magnitude(s[1..], 0)
    else Magnitude(s, 0)
  }

  /** A run of digits followed by anything: the digits are read first, and
      reading goes on from their value. */
  lemma {:induction false} DigitsOfRun(p: string, rest: string, acc: nat)
    requires AllDigits(p)
    ensures Digits(p + rest, acc) == Digits(rest, Digits(p, acc))
  {
    if p != [] {
      assert (p + rest)[1..] == p[1..] + rest;
      DigitsOfRun(p[1..], rest, 10 * acc + DigitValue(p[0]));
    } else {
      assert p + rest == rest;
    }
  }

  /** The same for the digits `atof` reads before the point. */
  lemma {:induction false} MagnitudeOfRun(p: string, rest: string, acc: nat)
    requires AllDigits(p)
    ensures Magnitude(p + rest, acc) == Magnitude(rest, Digits(p, acc))
  {
    if p != [] {
      assert (p + rest)[1..] == p[1..] + rest;
      MagnitudeOfRun(p[1..], rest, 10 * acc + DigitValue(p[0]));
    } else {
      assert p + rest == rest;
    }
  }

  /** Reading back the digits `%d` prints gives the number printed. */
  lemma {:induction false} NatToStringValue(n: nat)
    ensures Digits(NatToString(n), 0) == n
  {
    if n >= 10 {
      var last := [DigitChar(n % 10)];
      NatToStringValue(n / 10);
      DigitsOfRun(NatToString(n / 10), last, 0);
      assert last[1..] == [];
    }
  }

  /** Different naturals print differently. */
  lemma NatToStringInjective(m: nat, n: nat)
    requires NatToString(m) == NatToString(n)
    ensures m == n
  {
    NatToStringValue(m);
    NatToStringValue(n);
  }

  /** Different integers print differently. */
  lemma IntToStringInjective(a: int, b: int)
    requires IntToString(a) == IntToString(b)
    ensures a == b
  {
    var s := IntToString(a);
    if a < 0 && b < 0 {
      assert s[1..] == NatToString(-a);
      assert s[1..] == NatToString(-b);
      NatToStringInjective(-a, -b);
    } else if a >= 0 && b >= 0 {
      NatToStringInjective(a, b);
    }
  }

  /** `sscanf("%d")` reads back what `printf("%d")` wrote. */
  lemma ScanIntOfIntToString(i: int)
    ensures ScanInt(IntToString(i)) == Some(i)
  {
    var n: nat := if i < 0 then -i else i;
    var u := NatToString(n);
    var s := IntToString(i);
    DigitsOfRun(u, [], 0);
    assert u + [] == u;
    NatToStringValue(n);
    if i < 0 {
      assert s[0] == '-' && s[1..] == u;
    } else {
      assert s == u && IsDigit(s[0]);
    }
  }
}
