/** The one-time passwords of the account flows are built as
    `String(Math.floor(100000 + Math.random() * 900000))`: a random number in [0, 1)
    is scaled to an integer and written out in decimal. This module models that
    formula and JavaScript's decimal rendering of a non-negative integer, and proves
    that every code is exactly six decimal digits and that the rendering is injective. */
module Decimal {

  /** Lowest and highest code the formula can produce. */
  const OtpLow: int := 100000
  const OtpHigh: int := 999999

  predicate IsDigit(c: char) {
    '0' <= c <= '9'
  }

  predicate AllDigits(s: string) {
    forall i :: 0 <= i < |s| ==> IsDigit(s[i])
  }

  function DigitChar(d: nat): (c: char)
    requires d < 10
    ensures IsDigit(c)
  {
    ['0', '1', '2', '3', '4', '5', '6', '7', '8', '9'][d]
  }

  function DigitValue(c: char): (d: nat)
    requires IsDigit(c)
    ensures d < 10
  {
    (c as int - '0' as int) as nat
  }

  lemma DigitRoundTrip(d: nat)
    requires d < 10
    ensures DigitValue(DigitChar(d)) == d
  {
  }

  /** `String(n)` for a non-negative integer below 10^21 (from there on JavaScript switches
      to exponent form, which codes never reach): no sign, no leading zeros, "0" for zero. */
  function DecimalString(n: nat): (s: string)
    ensures 1 <= |s| && AllDigits(s)
    ensures n > 0 ==> s[0] != '0'
    decreases n
  {
    if n < 10 then [DigitChar(n)] else DecimalString(n / 10) + [DigitChar(n % 10)]
  }

  /** Reads a string of decimal digits back as a number (the reference for injectivity). */
  function ParseDecimal(s: string): nat
    requires AllDigits(s)
  {
    if s == [] then 0 else ParseDecimal(s[..|s| - 1]) * 10 + DigitValue(s[|s| - 1])
  }

  lemma {:induction false} ParseDecimalString(n: nat)
    ensures ParseDecimal(DecimalString(n)) == n
    decreases n
  {
    var s := DecimalString(n);
    if n < 10 {
      DigitRoundTrip(n);
    } else {
      assert s[..|s| - 1] == DecimalString(n / 10);
      ParseDecimalString(n / 10);
      DigitRoundTrip(n % 10);
    }
  }

  /** Two numbers are rendered alike only when they are equal. */
  lemma DecimalStringInjective(m: nat, n: nat)
    ensures DecimalString(m) == DecimalString(n) <==> m == n
  {
    if DecimalString(m) == DecimalString(n) {
      ParseDecimalString(m);
      ParseDecimalString(n);
    }
  }

  function Pow10(k: nat): (p: nat)
    ensures p >= 1
  {
    if k == 0 then 1 else 10 * Pow10(k - 1)
  }

  /** A number with k digits is rendered with exactly k characters. */
  lemma {:induction false} DecimalLength(n: nat, k: nat)
    requires 1 <= k && Pow10(k - 1) <= n < Pow10(k)
    ensures |DecimalString(n)| == k
    decreases k
  {
    if k > 1 {
      assert Pow10(k) == 10 * Pow10(k - 1) && Pow10(k - 1) == 10 * Pow10(k - 2);
      assert Pow10(k - 2) <= n / 10 < Pow10(k - 1);
      DecimalLength(n / 10, k - 1);
    }
  }

  /** `Math.floor(100000 + random * 900000)` over exact reals. */
  function OtpNumber(random: real): (n: int)
    requires 0.0 <= random < 1.0
    ensures OtpLow <= n <= OtpHigh
  {
    (100000.0 + random * 900000.0).Floor
  }

  /** The code stored and mailed by the login, resend and reset flows. */
  function OtpCode(random: real): (code: string)
    requires 0.0 <= random < 1.0
    ensures |code| == 6 && AllDigits(code) && code[0] != '0'
    ensures ParseDecimal(code) == OtpNumber(random)
    ensures OtpLow <= ParseDecimal(code) <= OtpHigh
  {
    var n := OtpNumber(random);
    assert Pow10(5) == 100000 && Pow10(6) == 1000000;
    DecimalLength(n, 6);
    ParseDecimalString(n);
    DecimalString(n)
  }

  /** Two random draws give the same code exactly when the formula maps them to the same number. */
  lemma OtpCodeDistinguishes(r1: real, r2: real)
    requires 0.0 <= r1 < 1.0 && 0.0 <= r2 < 1.0
    ensures OtpCode(r1) == OtpCode(r2) <==> OtpNumber(r1) == OtpNumber(r2)
  {
    DecimalStringInjective(OtpNumber(r1), OtpNumber(r2));
  }
}
