/**
 * The parts of java.lang.Integer and of Java's primitive integer types that
 * QuickGet relies on: `Integer.parseInt` in radix 10, decimal formatting of
 * a non-negative `int` (`%d`), the 32-bit `int` range and the signed `byte`.
 */
module JavaInteger {
  import opened Wrappers

  const INT_MIN: int := -0x8000_0000
  const INT_MAX: int := 0x7FFF_FFFF

  /** Java's signed 8-bit `byte`. */
  type JByte = b: int | -128 <= b < 128

  predicate IsDigit(c: char) {
    '0' <= c <= '9'
  }

  predicate AllDigits(s: string) {
    forall i :: 0 <= i < |s| ==> IsDigit(s[i])
  }

  function DigitValue(c: char): (d: nat)
    requires IsDigit(c)
    ensures d < 10
  {
    c as int - '0' as int
  }

  function DigitChar(d: nat): (c: char)
    requires d < 10
    ensures IsDigit(c) && DigitValue(c) == d
  {
    ('0' as int + d) as char
  }

  /** The value of a string of decimal digits, most significant first. */
  function DigitsValue(s: string): nat
    requires AllDigits(s)
  {
    if s == [] then 0 else DigitsValue(s[..|s| - 1]) * 10 + DigitValue(s[|s| - 1])
  }

  /**
   * `Integer.parseInt(s)`: an optional `-` or `+`, then one or more
   * decimal digits, denoting a value inside the `int` range. `None` stands
   * for the `NumberFormatException` thrown on anything else.
   */
  function ParseInt(s: string): (r: Option<int>)
    ensures r.Some? ==> INT_MIN <= r.value <= INT_MAX
  {
    if s == [] then None
    else
      var digits := if s[0] == '-' || s[0] == '+' then s[1..] else s;
      if digits == [] || !AllDigits(digits) then None
      else
        var magnitude: int := DigitsValue(digits);
        var v := if s[0] == '-' then -magnitude else magnitude;
        if INT_MIN <= v <= INT_MAX then Some(v) else None
  }

  /** The decimal numeral of `n` without sign or leading zeros, as `%d` prints it. */
  function Decimal(n: nat): (r: string)
    ensures r != [] && AllDigits(r)
    ensures r[0] != '0' || n == 0
  {
    if n < 10 then [DigitChar(n)] else Decimal(n / 10) + [DigitChar(n % 10)]
  }

  /** Reading back the numeral that `Decimal` writes gives the number. */
  lemma {:induction false} DecimalValue(n: nat)
    ensures DigitsValue(Decimal(n)) == n
  {
    if n >= 10 {
      DecimalValue(n / 10);
      var s := Decimal(n);
      assert s[..|s| - 1] == Decimal(n / 10);
    }
  }

  /** `Integer.parseInt` inverts `%d` on every non-negative `int`. */
  lemma ParseIntDecimal(n: nat)
    requires n <= INT_MAX
    ensures ParseInt(Decimal(n)) == Some(n)
  {
    DecimalValue(n);
  }

  /** A numeral is accepted exactly when its sign and digits are well formed and its value fits an `int`. */
  lemma ParseIntUnsigned(s: string)
    requires s != [] && AllDigits(s)
    ensures ParseInt(s) == if DigitsValue(s) <= INT_MAX then Some(DigitsValue(s)) else None
  {
  }

  /** `Integer.parseInt` never accepts a string with a code unit other than a sign or a digit. */
  lemma ParseIntRejectsNonDigit(s: string, i: int)
    requires 0 <= i < |s| && !IsDigit(s[i]) && !(i == 0 && (s[i] == '-' || s[i] == '+'))
    ensures ParseInt(s) == None
  {
    if s[0] == '-' || s[0] == '+' {
      assert s[1..][i - 1] == s[i];
    }
  }

  /** The `(byte)` cast: keeps the low eight bits, read as a signed number. */
  function ToByte(x: int): JByte {
    (x + 128) % 256 - 128
  }
}
