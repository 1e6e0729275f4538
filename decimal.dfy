/**
 * Decimal numerals, as Go's `fmt.Sprintf("%d", n)` prints an integer:
 * an optional minus sign followed by the digits of |n| without leading zeros.
 * `NumeralValue` reads a numeral back; the round trip shows that the
 * rule-id segment of a NAT path denotes exactly the rule id.
 */
module Decimal {

  predicate IsDigit(c: char) {
    '0' <= c <= '9'
  }

  predicate AllDigits(s: string) {
    forall i | 0 <= i < |s| :: IsDigit(s[i])
  }

  function DigitValue(c: char): (d: nat)
    requires IsDigit(c)
    ensures d < 10
  {
    c as int - '0' as int
  }

  function DigitChar(d: nat): (c: char)
    requires d < 10
    ensures IsDigit(c) && DigitValue(c) == d
  {
    ('0' as int + d) as char
  }

  /** The digits of n, most significant first, with no leading zero. */
  function NatToDecimal(n: nat): (s: string)
    ensures |s| >= 1 && AllDigits(s)
    ensures s[0] == '0' <==> n == 0
    ensures s[0] == '0' ==> |s| == 1
    decreases n
  {
    if n < 10 then [DigitChar(n)]
    else
      var front := NatToDecimal(n / 10);
      assert (front + [DigitChar(n % 10)])[0] == front[0];
      front + [DigitChar(n % 10)]
  }

  /** The value of a string of digits, read most significant first. */
  function DecimalValue(s: string): nat
    requires AllDigits(s)
  {
    if s == [] then 0 else 10 * DecimalValue(s[..|s| - 1]) + DigitValue(s[|s| - 1])
  }

  /** A numeral as `%d` writes one: digits without a leading zero, after an optional '-', and never "-0". */
  predicate IsCanonicalNumeral(s: string) {
    if |s| > 0 && s[0] == '-' then
      |s| >= 2 && AllDigits(s[1..]) && s[1] != '0'
    else
      |s| >= 1 && AllDigits(s) && (s[0] == '0' ==> |s| == 1)
  }

  function NumeralValue(s: string): int
    requires IsCanonicalNumeral(s)
  {
    if s[0] == '-' then -(DecimalValue(s[1..]) as int) else DecimalValue(s)
  }

  /** Go's `fmt.Sprintf("%d", n)`. */
  function FormatInt(n: int): (s: string)
    ensures IsCanonicalNumeral(s)
    ensures s[0] == '-' <==> n < 0
  {
    if n < 0 then
      var digits := NatToDecimal(-n);
      assert ("-" + digits)[1..] == digits;
      "-" + digits
    else NatToDecimal(n)
  }

  lemma {:induction false} NatToDecimalRoundTrip(n: nat)
    ensures DecimalValue(NatToDecimal(n)) == n
    decreases n
  {
    if n >= 10 {
      var s := NatToDecimal(n);
      assert s[..|s| - 1] == NatToDecimal(n / 10);
      NatToDecimalRoundTrip(n / 10);
    }
  }

  /** Reading back what `%d` printed gives the number printed. */
  lemma FormatIntRoundTrip(n: int)
    ensures NumeralValue(FormatInt(n)) == n
  {
    if n < 0 {
      assert FormatInt(n)[1..] == NatToDecimal(-n);
      NatToDecimalRoundTrip(-n);
    } else {
      NatToDecimalRoundTrip(n);
    }
  }

  /** Distinct integers print as distinct numerals. */
  lemma FormatIntInjective(a: int, b: int)
    ensures FormatInt(a) == FormatInt(b) <==> a == b
  {
    FormatIntRoundTrip(a);
    FormatIntRoundTrip(b);
  }
}
