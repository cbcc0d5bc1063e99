/**
 * Decimal digits and the decimal spelling of integers, as used to build
 * column names such as p_cameback_3 and uplift_3 and to read the arm code
 * at the end of a label.
 */
module Decimal {

  predicate IsDigit(c: char) {
    '0' <= c <= '9'
  }

  function DigitValue(c: char): (d: nat)
    requires IsDigit(c)
    ensures d < 10
  {
    c as int - '0' as int
  }

  function DigitChar(d: nat): (c: char)
    requires d < 10
    ensures IsDigit(c) && DigitValue(c) == d
  {
    ('0' as int + d) as char
  }

  /** The decimal spelling of a natural number, most significant digit first, no leading zeros. */
  function NatToString(n: nat): (s: string)
    ensures |s| >= 1
    ensures forall i :: 0 <= i < |s| ==> IsDigit(s[i])
    decreases n
  {
    if n < 10 then [DigitChar(n)] else NatToString(n / 10) + [DigitChar(n % 10)]
  }

  /** The spelling of a signed integer: a minus sign before the digits of a negative one. */
  function IntToString(k: int): string {
    if k < 0 then "-" + NatToString(-k) else NatToString(k)
  }

  /** The value of a string of decimal digits (its inverse direction). */
  function DigitsValue(s: string): nat
    requires forall i :: 0 <= i < |s| ==> IsDigit(s[i])
    decreases |s|
  {
    if s == [] then 0 else DigitsValue(s[..|s| - 1]) * 10 + DigitValue(s[|s| - 1])
  }

  /** Reading back the spelling of n gives n. */
  lemma {:induction false} NatToStringRoundTrip(n: nat)
    ensures DigitsValue(NatToString(n)) == n
    decreases n
  {
    var s := NatToString(n);
    if n >= 10 {
      NatToStringRoundTrip(n / 10);
      assert s[..|s| - 1] == NatToString(n / 10);
    }
  }

  /** A spelling starts with a minus sign exactly when the integer is negative. */
  lemma SignShown(k: int)
    ensures IntToString(k)[0] == '-' <==> k < 0
  {
    if k >= 0 {
      assert IsDigit(IntToString(k)[0]);
    }
  }

  /** After the minus sign of a negative integer come the digits of its magnitude. */
  lemma NegativeDigits(k: int)
    requires k < 0
    ensures IntToString(k)[1..] == NatToString(-k)
  {
    var d := NatToString(-k);
    assert ("-" + d)[1..] == d;
  }

  /** Different integers are spelled differently. */
  lemma IntToStringInjective(a: int, b: int)
    requires IntToString(a) == IntToString(b)
    ensures a == b
  {
    SignShown(a);
    SignShown(b);
    if a < 0 && b < 0 {
      NegativeDigits(a);
      NegativeDigits(b);
      SameDigits(-a, -b);
    } else if a >= 0 && b >= 0 {
      SameDigits(a, b);
    }
  }

  /** Natural numbers with the same spelling are equal. */
  lemma SameDigits(m: nat, n: nat)
    requires NatToString(m) == NatToString(n)
    ensures m == n
  {
    NatToStringRoundTrip(m);
    NatToStringRoundTrip(n);
  }
}
