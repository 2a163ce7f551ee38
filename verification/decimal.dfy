/** Kotlin's decimal conversions and fixed-width integer behaviour:
    `Int.toString()`, `String.toIntOrNull()`, `Int.toShort()` and the
    wrap-around of 32-bit `Int` arithmetic. */
module Decimal {
  import opened Wrappers

  const INT_MIN: int := -0x8000_0000
  const INT_MAX: int := 0x7FFF_FFFF

  /** The value fits a Kotlin `Int`. */
  predicate IsInt32(x: int) {
    INT_MIN <= x <= INT_MAX
  }

  /** The value fits a Kotlin `Short`. */
  predicate IsInt16(x: int) {
    -0x8000 <= x <= 0x7FFF
  }

  /** Two's-complement wrap-around into the `Int` range (what `counter++` does). */
  function WrapInt32(x: int): (r: int)
    ensures IsInt32(r)
    ensures (r - x) % 0x1_0000_0000 == 0
    ensures IsInt32(x) ==> r == x
  {
    (x - INT_MIN) % 0x1_0000_0000 + INT_MIN
  }

  /** `Int.toShort()`: keeps the low 16 bits, read as a signed value. */
  function ToShort(x: int): (r: int)
    ensures IsInt16(r)
    ensures (r - x) % 0x1_0000 == 0
    ensures IsInt16(x) ==> r == x
  {
    (x + 0x8000) % 0x1_0000 - 0x8000
  }

  predicate IsDigit(c: char) {
    '0' <= c <= '9'
  }

  predicate AllDigits(s: string) {
    forall i :: 0 <= i < |s| ==> IsDigit(s[i])
  }

  function DigitChar(d: nat): (c: char)
    requires d < 10
    ensures IsDigit(c)
  {
    ('0' as int + d) as char
  }

  function DigitValue(c: char): (d: nat)
    requires IsDigit(c)
    ensures d < 10
  {
    c as int - '0' as int
  }

  /** The number a string of decimal digits denotes (leading zeros allowed). */
  function DigitsValue(s: string): nat
    requires AllDigits(s)
  {
    if |s| == 0 then 0 else 10 * DigitsValue(s[..|s| - 1]) + DigitValue(s[|s| - 1])
  }

  /** The shortest decimal numeral of `n`. */
  function NatToString(n: nat): (s: string)
    ensures 1 <= |s|
    ensures AllDigits(s)
    ensures s[0] == '0' ==> n == 0
  {
    if n < 10 then [DigitChar(n)] else NatToString(n / 10) + [DigitChar(n % 10)]
  }

  /** `Int.toString()`: a leading `-` for negative values. */
  function IntToString(n: int): string {
    if n < 0 then "-" + NatToString(-n) else NatToString(n)
  }

  /** `String.toIntOrNull()` in radix 10: an optional `+` or `-`, at least one
      ASCII digit, and a value that fits an `Int`; anything else is `null`. */
  function ParseInt(s: string): (r: Option<int>)
    ensures r.Some? ==> IsInt32(r.value)
    ensures r.Some? ==> 1 <= |s| && AllDigits(s[1..])
    ensures r.Some? && 0 < r.value ==> s[0] != '-'
    ensures |s| == 0 || s == "-" || s == "+" ==> r == None
  {
    if |s| == 0 then None
    else if s[0] == '-' then ParseDigits(true, s[1..])
    else if s[0] == '+' then ParseDigits(false, s[1..])
    else ParseDigits(false, s)
  }

  /** The digits after the sign: at least one, all ASCII digits, in range. */
  function ParseDigits(neg: bool, digits: string): (r: Option<int>)
    ensures r.Some? ==> IsInt32(r.value) && 1 <= |digits| && AllDigits(digits)
    ensures r.Some? && 0 < r.value ==> !neg
  {
    if |digits| == 0 || !AllDigits(digits) then None
    else
      var m: int := DigitsValue(digits);
      var v: int := if neg then -m else m;
      if IsInt32(v) then Some(v) else None
  }

  /** Reading back what `NatToString` wrote gives the number. */
  lemma {:induction false} DigitsValueOfNatToString(n: nat)
    ensures DigitsValue(NatToString(n)) == n
  {
    if n >= 10 {
      DigitsValueOfNatToString(n / 10);
      var s := NatToString(n);
      assert s[..|s| - 1] == NatToString(n / 10);
    }
  }

  /** `toIntOrNull` inverts `toString` on every `Int`. */
  lemma ParseIntToString(n: int)
    requires IsInt32(n)
    ensures ParseInt(IntToString(n)) == Some(n)
  {
    if n < 0 {
      var s := IntToString(n);
      assert s[0] == '-' && s[1..] == NatToString(-n);
      ParseDigitsOfNatToString(true, -n);
    } else {
      var s := NatToString(n);
      assert IsDigit(s[0]);
      ParseDigitsOfNatToString(false, n);
    }
  }

  lemma ParseDigitsOfNatToString(neg: bool, m: nat)
    requires IsInt32(if neg then -(m as int) else m)
    ensures ParseDigits(neg, NatToString(m)) == Some(if neg then -(m as int) else m as int)
  {
    DigitsValueOfNatToString(m);
  }

  /** A value outside the `Int` range is never produced, even when it is
      written with digits only. */
  lemma ParseIntOutOfRange(n: nat)
    requires n > INT_MAX
    ensures ParseInt(NatToString(n)) == None
  {
    DigitsValueOfNatToString(n);
  }

  /** Incrementing through the wrap: `Int.MAX_VALUE + 1` is `Int.MIN_VALUE`. */
  lemma WrapAtMax()
    ensures WrapInt32(INT_MAX + 1) == INT_MIN
  {
  }
}
