/** Decimal text of integers, as produced by Python's `str(int)` and read
    back by Python's `int(str)`.  The table layer stores the id counter
    (`meta-last_id`) and document keys (`doc-{id}`) in this form, and `find`
    parses ids back out of document keys. */
module Numerals {
  import opened Base

  predicate IsDigit(c: char) {
    '0' <= c <= '9'
  }

  predicate AllDigits(s: string) {
    forall i :: 0 <= i < |s| ==> IsDigit(s[i])
  }

  function DigitChar(d: nat): (c: char)
    requires d < 10
    ensures IsDigit(c) && DigitValue(c) == d
  {
    (d + '0' as int) as char
  }

  function DigitValue(c: char): nat
    requires IsDigit(c)
  {
    c as int - '0' as int
  }

  /** `str(n)` for a non-negative integer: most significant digit first, no
      leading zeros. */
  function NatToString(n: nat): (s: string)
    decreases n
  {
    if n < 10 then [DigitChar(n)] else NatToString(n / 10) + [DigitChar(n % 10)]
  }

  /** `str(i)`: a minus sign before the digits of a negative number. */
  function IntToString(i: int): string {
    if i < 0 then "-" + NatToString(-i) else NatToString(i)
  }

  /** The number a string of decimal digits denotes (leading zeros allowed). */
  function DigitsValue(s: string): nat
    requires AllDigits(s)
  {
    if s == [] then 0 else DigitsValue(s[..|s| - 1]) * 10 + DigitValue(s[|s| - 1])
  }

  /** Python's `int(s)` for an optional sign followed by decimal digits;
      `None` stands for the ValueError `int` raises on anything else. */
  function PyInt(s: string): (r: Option<int>)
    ensures r.Some? ==> |s| > 0
  {
    if |s| > 0 && (s[0] == '-' || s[0] == '+') then
      if |s| > 1 && AllDigits(s[1..]) then
        Some(if s[0] == '-' then 0 - DigitsValue(s[1..]) as int else DigitsValue(s[1..]))
      else None
    else if |s| > 0 && AllDigits(s) then Some(DigitsValue(s))
    else None
  }

  /** Length of the longest run of digits at the start of `s`. */
  function DigitPrefixLen(s: string): (k: nat)
    ensures k <= |s| && AllDigits(s[..k])
    ensures k < |s| ==> !IsDigit(s[k])
  {
    if |s| > 0 && IsDigit(s[0]) then
      var k := 1 + DigitPrefixLen(s[1..]);
      assert s[..k] == [s[0]] + s[1..][..k - 1];
      k
    else 0
  }

  /** The text of a natural number is a non-empty run of digits that starts
      with '0' only for zero itself. */
  lemma {:induction false} NatToStringShape(n: nat)
    ensures var s := NatToString(n); |s| > 0 && AllDigits(s) && (s[0] == '0' <==> n == 0)
  {
    if n >= 10 {
      NatToStringShape(n / 10);
      var s := NatToString(n);
      assert s == NatToString(n / 10) + [DigitChar(n % 10)];
      assert s[0] == NatToString(n / 10)[0];
    }
  }

  /** Reading the digits of `str(n)` gives back `n`. */
  lemma {:induction false} DigitsValueOfNat(n: nat)
    ensures AllDigits(NatToString(n)) && DigitsValue(NatToString(n)) == n
  {
    NatToStringShape(n);
    if n >= 10 {
      DigitsValueOfNat(n / 10);
      var s := NatToString(n);
      assert s[..|s| - 1] == NatToString(n / 10);
    }
  }

  /** `int(str(i)) == i` for every integer. */
  lemma {:induction false} PyIntRoundTrip(i: int)
    ensures PyInt(IntToString(i)) == Some(i)
  {
    if i < 0 {
      DigitsValueOfNat(-i);
      NatToStringShape(-i);
      assert IntToString(i)[1..] == NatToString(-i);
    } else {
      DigitsValueOfNat(i);
      NatToStringShape(i);
    }
  }

  /** Distinct integers have distinct decimal texts. */
  lemma {:induction false} IntToStringInjective(a: int, b: int)
    requires IntToString(a) == IntToString(b)
    ensures a == b
  {
    PyIntRoundTrip(a);
    PyIntRoundTrip(b);
  }

  /** A run of digits followed by a non-digit is exactly the digit prefix. */
  lemma {:induction false} DigitPrefixOfDigits(a: string, b: string)
    requires AllDigits(a)
    requires b == [] || !IsDigit(b[0])
    ensures DigitPrefixLen(a + b) == |a|
  {
    if a != [] {
      assert (a + b)[1..] == a[1..] + b;
      DigitPrefixOfDigits(a[1..], b);
    } else {
      assert a + b == b;
    }
  }
}
