/** Decimal rendering and parsing of integers, as JavaScript's `String(n)`
    and `parseInt(s, 10)` do for the integers the hook scripts handle. */
module Decimal {
  import opened Base

  predicate IsDigit(c: char) {
    '0' <= c <= '9'
  }

  predicate AllDigits(s: string) {
    forall i :: 0 <= i < |s| ==> IsDigit(s[i])
  }

  function DigitChar(d: nat): (c: char)
    requires d < 10
    ensures IsDigit(c) && c as int - '0' as int == d
  {
    (48 + d) as char
  }

  /** `String(n)` for a non-negative integer: no sign, no leading zero. */
  function NatToDecimal(n: nat): (s: string)
    ensures |s| > 0 && AllDigits(s)
    ensures s[0] == '0' ==> n == 0
    decreases n
  {
    if n < 10 then [DigitChar(n)] else NatToDecimal(n / 10) + [DigitChar(n % 10)]
  }

  /** The value of a string of decimal digits, leading zeros allowed
      (`parseInt(s, 10)` on the digits a regular expression captured). */
  function DigitsValue(s: string): nat
    requires AllDigits(s)
    decreases |s|
  {
    if |s| == 0 then 0
    else DigitsValue(s[..|s| - 1]) * 10 + (s[|s| - 1] as int - '0' as int)
  }

  lemma {:induction false} DigitsValueOfDecimal(n: nat)
    ensures DigitsValue(NatToDecimal(n)) == n
    decreases n
  {
    if n >= 10 {
      var s := NatToDecimal(n);
      assert s[..|s| - 1] == NatToDecimal(n / 10);
      DigitsValueOfDecimal(n / 10);
    }
  }

  /** `String(n)` for any integer. */
  function IntToDecimal(n: int): (s: string)
    ensures |s| > 0
    ensures n >= 0 <==> AllDigits(s)
  {
    if n < 0 then
      var s := "-" + NatToDecimal(-n);
      assert !IsDigit(s[0]);
      s
    else NatToDecimal(n)
  }

  /** Reads back an optionally signed decimal integer. */
  function ParseInt(s: string): Option<int>
  {
    if |s| > 1 && s[0] == '-' && AllDigits(s[1..]) then Some(-(DigitsValue(s[1..]) as int))
    else if |s| > 0 && AllDigits(s) then Some(DigitsValue(s))
    else None
  }

  lemma IntToDecimalRoundTrip(n: int)
    ensures ParseInt(IntToDecimal(n)) == Some(n)
  {
    if n < 0 {
      var s := IntToDecimal(n);
      assert s[1..] == NatToDecimal(-n);
      assert !IsDigit(s[0]);
      DigitsValueOfDecimal(-n);
    } else {
      DigitsValueOfDecimal(n);
    }
  }
}
