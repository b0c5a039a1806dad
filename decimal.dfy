/**
 * The decimal text that Python's `f"{x:.0f}"` writes for a money amount, with
 * amounts held as integer cents: round to the nearest whole unit, ties to the
 * even unit, and print a '-' for every negative amount (also when it rounds to
 * zero, as `f"{-0.4:.0f}" == "-0"`). A parser inverts the text, so the text
 * determines the rounded amount.
 */
module Decimal {
  import opened Common

  predicate IsDigit(c: char)
  {
    '0' <= c <= '9'
  }

  predicate AllDigits(s: string)
  {
    forall i :: 0 <= i < |s| ==> IsDigit(s[i])
  }

  function DigitChar(d: int): (c: char)
    requires 0 <= d < 10
    ensures IsDigit(c)
  {
    ('0' as int + d) as char
  }

  function DigitValue(c: char): int
    requires IsDigit(c)
  {
    c as int - '0' as int
  }

  /** The digits of `n` with no sign, no leading zeros and no separators. */
  function NatToString(n: nat): (s: string)
    ensures |s| >= 1 && AllDigits(s)
    ensures |s| > 1 ==> s[0] != '0'
  {
    if n < 10 then [DigitChar(n)] else NatToString(n / 10) + [DigitChar(n % 10)]
  }

  /** The value of a string of decimal digits. */
  function DigitsValue(s: string): nat
    requires AllDigits(s)
  {
    if s == [] then 0 else DigitsValue(s[..|s| - 1]) * 10 + DigitValue(s[|s| - 1])
  }

  lemma {:induction false} NatToStringRoundTrip(n: nat)
    ensures DigitsValue(NatToString(n)) == n
    decreases n
  {
    if n >= 10 {
      NatToStringRoundTrip(n / 10);
      var s := NatToString(n);
      assert s[..|s| - 1] == NatToString(n / 10);
    }
  }

  /**
   * `cents` rounded to whole units the way `:.0f` rounds a non-negative amount:
   * to the nearest unit, and to the even unit when exactly halfway.
   */
  function RoundHalfEven(cents: nat): (units: nat)
    ensures -50 <= 100 * units - cents <= 50
    ensures 100 * units - cents == 50 || 100 * units - cents == -50 ==> units % 2 == 0
    ensures cents % 100 == 0 ==> 100 * units == cents
  {
    var q, r := cents / 100, cents % 100;
    if r < 50 then q
    else if r > 50 then q + 1
    else if q % 2 == 0 then q
    else q + 1
  }

  /** What `:.0f` shows of an amount: its sign and its rounded magnitude. */
  datatype Whole = Whole(negative: bool, magnitude: nat)

  function WholeOf(cents: int): Whole
  {
    Whole(cents < 0, RoundHalfEven(Abs(cents)))
  }

  /** Reads back the text of a `Whole`: an optional '-' and at least one digit. */
  function ParseWhole(s: string): Option<Whole>
  {
    if |s| >= 2 && s[0] == '-' && AllDigits(s[1..]) then Some(Whole(true, DigitsValue(s[1..])))
    else if |s| >= 1 && AllDigits(s) then Some(Whole(false, DigitsValue(s)))
    else None
  }

  /** `f"{cents / 100:.0f}"`; the text reads back as the rounded amount. */
  function FormatWhole(cents: int): (s: string)
    ensures ParseWhole(s) == Some(WholeOf(cents))
    ensures forall i :: 0 <= i < |s| ==> s[i] == '-' || IsDigit(s[i])
  {
    var digits := NatToString(RoundHalfEven(Abs(cents)));
    NatToStringRoundTrip(RoundHalfEven(Abs(cents)));
    if cents < 0 then
      assert ("-" + digits)[1..] == digits;
      "-" + digits
    else digits
  }

  /** Two amounts print alike exactly when they agree in sign and rounded magnitude. */
  lemma FormatWholeInjective(a: int, b: int)
    ensures FormatWhole(a) == FormatWhole(b) <==> WholeOf(a) == WholeOf(b)
  {
    if WholeOf(a) == WholeOf(b) {
      assert a < 0 <==> b < 0;
    }
  }

  /** An amount of whole units prints as its plain decimal digits. */
  lemma FormatWholeUnits(units: nat)
    ensures FormatWhole(100 * units) == NatToString(units)
  {
    DivModUnique(100 * units, 100, units, 0);
    assert RoundHalfEven(Abs(100 * units)) == units;
  }
}
