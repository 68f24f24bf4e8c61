/** Decimal text of non-negative numbers, as JavaScript prints them.
    Percentages are kept in tenths (-9.5 is -95), so `toFixed(0)` and
    `toFixed(1)` are functions on natural numbers. */
module Decimal {

  predicate IsDigit(c: char) {
    '0' <= c <= '9'
  }

  predicate IsDigits(s: string) {
    forall i :: 0 <= i < |s| ==> IsDigit(s[i])
  }

  function DigitChar(d: nat): (c: char)
    requires d < 10
    ensures IsDigit(c) && (c as int) - ('0' as int) == d
  {
    (('0' as int) + d) as char
  }

  function DigitValue(c: char): nat
    requires IsDigit(c)
  {
    (c as int) - ('0' as int)
  }

  /** The decimal notation of `n`: digits only, and no leading zero */
  function NatToString(n: nat): (s: string)
    ensures |s| >= 1 && IsDigits(s)
    ensures s[0] == '0' ==> n == 0
    decreases n
  {
    if n < 10 then [DigitChar(n)] else NatToString(n / 10) + [DigitChar(n % 10)]
  }

  /** The number a string of digits denotes (the reading direction of NatToString) */
  function DigitsValue(s: string): nat
    requires IsDigits(s)
  {
    if s == [] then 0 else DigitsValue(s[..|s| - 1]) * 10 + DigitValue(s[|s| - 1])
  }

  lemma {:induction false} NatToStringRoundTrip(n: nat)
    ensures DigitsValue(NatToString(n)) == n
  {
    if n >= 10 {
      var s := NatToString(n);
      assert s[..|s| - 1] == NatToString(n / 10);
      NatToStringRoundTrip(n / 10);
    }
  }

  /** The whole number nearest to `tenths / 10`, a half rounded up: what
      `toFixed(0)` does to a non-negative number with one decimal. */
  function RoundTenths(tenths: nat): (n: nat)
    ensures 10 * n - 5 <= tenths < 10 * n + 5
  {
    (tenths + 5) / 10
  }

  /** `x.toFixed(0)` for the non-negative number x = tenths / 10 */
  function ToFixed0(tenths: nat): string {
    NatToString(RoundTenths(tenths))
  }

  /** `x.toFixed(1)` for the non-negative number x = tenths / 10, which is exact */
  function ToFixed1(tenths: nat): string {
    NatToString(tenths / 10) + "." + [DigitChar(tenths % 10)]
  }

  lemma ToFixed0Reads(tenths: nat)
    ensures IsDigits(ToFixed0(tenths))
    ensures 10 * DigitsValue(ToFixed0(tenths)) - 5 <= tenths < 10 * DigitsValue(ToFixed0(tenths)) + 5
  {
    NatToStringRoundTrip(RoundTenths(tenths));
  }

  /** `toFixed(1)` prints whole part, a point and one digit, and loses nothing */
  lemma ToFixed1Reads(tenths: nat)
    ensures var s := ToFixed1(tenths);
      && |s| >= 3 && s[|s| - 2] == '.'
      && IsDigits(s[..|s| - 2]) && IsDigit(s[|s| - 1])
      && DigitsValue(s[..|s| - 2]) * 10 + DigitValue(s[|s| - 1]) == tenths
  {
    var s := ToFixed1(tenths);
    assert s[..|s| - 2] == NatToString(tenths / 10);
    NatToStringRoundTrip(tenths / 10);
  }
}
