/** Decimal renderings of numbers, as Java produces them: `Integer.toString`,
    zero-padded date fields, `Double.toString` and `String.format("%.2f")`
    (with a comma separator). Money is held in integer cents. */
module Decimal {

  predicate IsDigit(c: char) { '0' <= c <= '9' }

  predicate AllDigits(s: string) { forall i :: 0 <= i < |s| ==> IsDigit(s[i]) }

  function DigitChar(d: nat): (c: char)
    requires d < 10
    ensures IsDigit(c)
  {
    ('0' as int + d) as char
  }

  function DigitValue(c: char): (d: nat)
    requires IsDigit(c)
    ensures d < 10 && DigitChar(d) == c
  {
    c as int - '0' as int
  }

  /** The number a string of decimal digits denotes (leading zeros allowed). */
  function ParseNat(s: string): nat
    requires AllDigits(s)
  {
    if s == [] then 0 else 10 * ParseNat(s[..|s| - 1]) + DigitValue(s[|s| - 1])
  }

  function Pow10(k: nat): (r: nat)
    ensures r >= 1
  {
    if k == 0 then 1 else 10 * Pow10(k - 1)
  }

  /** `Integer.toString` of a non-negative number: the shortest digit string
      (no leading zero except for 0 itself) that denotes `n`. */
  function NatText(n: nat): (r: string)
    ensures |r| >= 1 && AllDigits(r)
    ensures r[0] == '0' <==> n == 0
    ensures n == 0 ==> r == "0"
    ensures n >= 10 ==> |r| >= 2
    ensures n >= 100 ==> |r| >= 3
    ensures ParseNat(r) == n
  {
    if n < 10 then [DigitChar(n)]
    else
      var r := NatText(n / 10) + [DigitChar(n % 10)];
      assert r[..|r| - 1] == NatText(n / 10);
      r
  }

  /** `Integer.toString` of any int. */
  function IntText(i: int): (r: string)
    ensures |r| >= 1
    ensures r[0] == '-' <==> i < 0
  {
    if i < 0 then "-" + NatText(-i) else NatText(i)
  }

  /** The printed int reads back: its digits, after the sign of a negative
      number, denote the magnitude. */
  lemma IntTextValue(i: int)
    ensures var r := IntText(i);
      && (i >= 0 ==> AllDigits(r) && ParseNat(r) == i)
      && (i < 0 ==> r[1..] == NatText(-i) && AllDigits(r[1..]) && ParseNat(r[1..]) == -i)
  {
    if i < 0 {
      assert ("-" + NatText(-i))[1..] == NatText(-i);
    }
  }

  /** `n` written with exactly `width` digits, zero-padded on the left. */
  function FixedDigits(n: nat, width: nat): (r: string)
    requires n < Pow10(width)
    ensures |r| == width && AllDigits(r)
    ensures ParseNat(r) == n
  {
    if width == 0 then ""
    else
      var r := FixedDigits(n / 10, width - 1) + [DigitChar(n % 10)];
      assert r[..|r| - 1] == FixedDigits(n / 10, width - 1);
      r
  }

  /** The decimals Java's `Double.toString` prints for a fraction of `f`
      hundredths: one digit when the second would be a trailing zero
      ("0" for none at all), two otherwise. */
  function FractionText(f: nat): (r: string)
    requires f < 100
    ensures 1 <= |r| <= 2 && AllDigits(r)
    ensures |r| == 1 ==> 10 * ParseNat(r) == f
    ensures |r| == 2 ==> ParseNat(r) == f && r[1] != '0'
  {
    if f % 10 == 0 then
      [DigitChar(f / 10)]
    else
      var r := FixedDigits(f, 2);
      assert r[..1] == [r[0]];
      assert ParseNat(r) == 10 * DigitValue(r[0]) + DigitValue(r[1]);
      r
  }

  /** `s` without its trailing '0' characters. */
  function StripTrailingZeros(s: string): (r: string)
    ensures |r| <= |s| && r == s[..|r|]
    ensures r != [] ==> r[|r| - 1] != '0'
    ensures |s| >= 1 && s[0] != '0' ==> |r| >= 1
  {
    if s != [] && s[|s| - 1] == '0' then StripTrailingZeros(s[..|s| - 1]) else s
  }

  /** Java's `Double.toString` for an amount of `cents / 100`. Below 10^7 it
      prints the plain shortest decimal with at least one fraction digit
      ("45.0", "15.99", "25.5"); from 10^7 on the computerized scientific
      form ("1.0E7", "1.2345E8"). */
  function DoubleText(cents: int): (r: string)
    decreases if cents < 0 then 1 else 0
  {
    if cents < 0 then "-" + DoubleText(-cents)
    else if cents < 1_000_000_000 then NatText(cents / 100) + "." + FractionText(cents % 100)
    else
      var digits := NatText(cents);
      var mantissa := StripTrailingZeros(digits);
      [mantissa[0]] + "." + (if |mantissa| == 1 then "0" else mantissa[1..])
        + "E" + NatText(|digits| - 3)
  }

  /** Below 10^7 the text is the whole part, a point, and the shortest
      fraction that still denotes the cents. */
  lemma DoubleTextPlain(cents: int)
    requires 0 <= cents < 1_000_000_000
    ensures var r, w := DoubleText(cents), NatText(cents / 100);
      && |r| >= |w| + 2 && r[..|w|] == w && r[|w|] == '.'
      && r[|w| + 1..] == FractionText(cents % 100)
  {
    var w := NatText(cents / 100);
    var r := w + "." + FractionText(cents % 100);
    assert r[..|w|] == w;
    assert r[|w| + 1..] == FractionText(cents % 100);
  }

  /** A negative amount prints as '-' and the text of its magnitude. */
  lemma DoubleTextNegative(cents: int)
    requires cents < 0
    ensures DoubleText(cents)[0] == '-' && DoubleText(cents)[1..] == DoubleText(-cents)
  {
  }

  /** `String.format("%.2f", cents / 100)` in a locale whose decimal
      separator is a comma: the integer part, ',', and exactly two digits. */
  function TwoDecimals(cents: int): (r: string)
    decreases if cents < 0 then 1 else 0
    ensures |r| >= 4
    ensures r[0] == '-' <==> cents < 0
  {
    if cents < 0 then "-" + TwoDecimals(-cents)
    else NatText(cents / 100) + "," + FixedDigits(cents % 100, 2)
  }

  /** The formatted total reads back as the amount: the digits before the
      comma are the whole part (no leading zero), the two after it the cents. */
  lemma TwoDecimalsValue(cents: nat)
    ensures var r := TwoDecimals(cents);
      && r[|r| - 3] == ','
      && AllDigits(r[..|r| - 3]) && AllDigits(r[|r| - 2..])
      && (r[0] == '0' ==> |r| == 4)
      && 100 * ParseNat(r[..|r| - 3]) + ParseNat(r[|r| - 2..]) == cents
  {
    var w := NatText(cents / 100);
    var f := FixedDigits(cents % 100, 2);
    var r := w + "," + f;
    assert r == TwoDecimals(cents);
    assert r[..|r| - 3] == w;
    assert r[|r| - 2..] == f;
  }

  /** A negative total prints as '-' and the text of its magnitude. */
  lemma TwoDecimalsNegative(cents: int)
    requires cents < 0
    ensures TwoDecimals(cents)[0] == '-' && TwoDecimals(cents)[1..] == TwoDecimals(-cents)
  {
  }
}
