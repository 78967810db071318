/**
 * Decimal text of integers, as the grid shows it: string interpolation
 * `"\(n)"` produces it and the failable initializer `Int(String)` reads it.
 * Swift's `Int` is 64 bits wide, so `Int(String)` fails on out-of-range text.
 */
module Decimal {
  import opened Wrappers

  const INT_MIN: int := -0x8000_0000_0000_0000
  const INT_MAX: int := 0x7FFF_FFFF_FFFF_FFFF

  predicate InIntRange(n: int) {
    INT_MIN <= n <= INT_MAX
  }

  predicate IsDigit(c: char) {
    '0' <= c <= '9'
  }

  predicate AllDigits(s: string) {
    forall i :: 0 <= i < |s| ==> IsDigit(s[i])
  }

  function DigitChar(d: nat): (c: char)
    requires d < 10
    ensures IsDigit(c)
  {
    (('0' as int) + d) as char
  }

  function DigitValue(c: char): (d: nat)
    requires IsDigit(c)
    ensures d < 10 && DigitChar(d) == c
  {
    (c as int) - ('0' as int)
  }

  /** The digits of `n`, most significant first, without leading zeros. */
  function NatToDigits(n: nat): (s: string)
    ensures |s| > 0 && AllDigits(s)
    ensures s[0] == '0' ==> n == 0
  {
    if n < 10 then [DigitChar(n)] else NatToDigits(n / 10) + [DigitChar(n % 10)]
  }

  /** The number a non-empty run of decimal digits denotes. */
  function DigitsValue(s: string): nat
    requires AllDigits(s)
  {
    if s == [] then 0 else DigitsValue(s[..|s| - 1]) * 10 + DigitValue(s[|s| - 1])
  }

  /** `"\(n)"` for a Swift `Int`: a minus sign for negatives, then the digits. */
  function IntToDecimal(n: int): (s: string)
    ensures |s| > 0
    ensures s[0] == '-' <==> n < 0
    ensures AllDigits(if n < 0 then s[1..] else s)
  {
    if n < 0 then "-" + NatToDigits(-n) else NatToDigits(n)
  }

  /**
   * `Int(String)`: an optional `+` or `-`, then one or more ASCII digits, and
   * the value must fit in 64 bits; any other text gives `nil`.
   */
  function ParseInt(s: string): (r: Option<int>)
    ensures r.Some? ==> InIntRange(r.value)
    ensures r.Some? ==> |s| > 0 && (IsDigit(s[0]) || s[0] == '-' || s[0] == '+')
    ensures r.Some? ==> forall i :: 0 < i < |s| ==> IsDigit(s[i])
    ensures r.Some? ==> (r.value < 0 ==> s[0] == '-')
  {
    var signed := |s| > 0 && (s[0] == '-' || s[0] == '+');
    var body := if signed then s[1..] else s;
    if body == [] || !AllDigits(body) then None
    else
      var magnitude: int := DigitsValue(body);
      var v := if signed && s[0] == '-' then -magnitude else magnitude;
      if InIntRange(v) then Some(v) else None
  }

  lemma {:induction false} DigitsValueOfNatToDigits(n: nat)
    ensures DigitsValue(NatToDigits(n)) == n
  {
    if n >= 10 {
      var prefix := NatToDigits(n / 10);
      var s := prefix + [DigitChar(n % 10)];
      assert s[..|s| - 1] == prefix;
      DigitsValueOfNatToDigits(n / 10);
    }
  }

  /** Reading back what the grid writes gives the same number. */
  lemma ParseIntOfIntToDecimal(n: int)
    requires InIntRange(n)
    ensures ParseInt(IntToDecimal(n)) == Some(n)
  {
    var s := IntToDecimal(n);
    if n < 0 {
      var digits := NatToDigits(-n);
      assert s[0] == '-' && s[1..] == digits;
      DigitsValueOfNatToDigits(-n);
    } else {
      var digits := NatToDigits(n);
      assert s == digits && IsDigit(s[0]);
      DigitsValueOfNatToDigits(n);
    }
  }

  /** Distinct numbers have distinct decimal text. */
  lemma IntToDecimalInjective(m: int, n: int)
    requires InIntRange(m) && InIntRange(n)
    ensures IntToDecimal(m) == IntToDecimal(n) ==> m == n
  {
    ParseIntOfIntToDecimal(m);
    ParseIntOfIntToDecimal(n);
  }
}
