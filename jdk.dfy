/**
 * The few pieces of the Java runtime that the two handlers depend on:
 * the `long` range, `Long.parseLong` and the text of a random UUID.
 */
module Jdk {
  import opened Wrappers

  const MIN_LONG: int := -0x8000_0000_0000_0000
  const MAX_LONG: int := 0x7fff_ffff_ffff_ffff

  /** Java's signed 64-bit `long`. */
  type Long = x: int | MIN_LONG <= x <= MAX_LONG

  predicate IsAsciiDigit(c: char) { '0' <= c <= '9' }

  predicate AllAsciiDigits(s: string) {
    forall i :: 0 <= i < |s| ==> IsAsciiDigit(s[i])
  }

  function DigitValue(c: char): (d: nat)
    requires IsAsciiDigit(c)
    ensures d < 10
  {
    c as int - '0' as int
  }

  /** The value of a string of decimal digits, most significant first. */
  function DigitsValue(s: string): nat
    requires AllAsciiDigits(s)
  {
    if s == [] then 0 else DigitsValue(s[..|s| - 1]) * 10 + DigitValue(s[|s| - 1])
  }

  /** The characters `Long.parseLong` accepts after an optional leading sign. */
  function Unsigned(s: string): string
  {
    if |s| > 0 && (s[0] == '-' || s[0] == '+') then s[1..] else s
  }

  /**
   * `Long.parseLong(s)` (radix 10): `None` is a `NumberFormatException`.
   * An optional `+` or `-`, then one or more digits, and the value must fit in a `long`.
   */
  function ParseLong(s: string): (r: Option<Long>)
    ensures r.Some? ==> |s| > 0 && |Unsigned(s)| > 0 && AllAsciiDigits(Unsigned(s))
    ensures r.Some? ==> (r.value < 0 ==> s[0] == '-')
    ensures r.Some? && s[0] == '-' ==> r.value <= 0
  {
    var digits := Unsigned(s);
    if s == [] || digits == [] || !AllAsciiDigits(digits) then None
    else
      var v: int := if s[0] == '-' then -(DigitsValue(digits) as int) else DigitsValue(digits);
      if MIN_LONG <= v <= MAX_LONG then Some(v) else None
  }

  /** The canonical decimal rendering of a natural number (no sign, no leading zeros). */
  function NatToDigits(n: nat): (s: string)
    ensures |s| > 0 && AllAsciiDigits(s)
  {
    var last := ['0' + (n % 10) as char];
    if n < 10 then last else NatToDigits(n / 10) + last
  }

  /** The canonical decimal rendering of an integer, as `Long.toString` writes it. */
  function IntToDecimal(n: int): string
  {
    if n < 0 then "-" + NatToDigits(-n) else NatToDigits(n)
  }

  lemma {:induction false} NatToDigitsValue(n: nat)
    ensures DigitsValue(NatToDigits(n)) == n
  {
    var s := NatToDigits(n);
    if n >= 10 {
      NatToDigitsValue(n / 10);
      assert s[..|s| - 1] == NatToDigits(n / 10);
    }
  }

  /** Every `long` has a literal that `Long.parseLong` accepts and maps back to it. */
  lemma ParseLongOfDecimal(n: Long)
    ensures ParseLong(IntToDecimal(n)) == Some(n)
  {
    var s := IntToDecimal(n);
    if n < 0 {
      var m: nat := -(n as int);
      NatToDigitsValue(m);
      assert Unsigned(s) == NatToDigits(m);
    } else {
      NatToDigitsValue(n);
      assert Unsigned(s) == NatToDigits(n);
    }
  }

  /** `Long.parseLong` accepts negative literals and explicit plus signs. */
  lemma ParseLongSigned()
    ensures ParseLong("-5") == Some(-5)
    ensures ParseLong("+5") == Some(5)
    ensures ParseLong("007") == Some(7)
  {
    assert Unsigned("-5") == "5";
    assert Unsigned("+5") == "5";
    assert "007"[..2] == "00" && "00"[..1] == "0";
  }

  /** A sign alone, embedded blanks and non-digits are refused. */
  lemma ParseLongRejects()
    ensures ParseLong("") == None
    ensures ParseLong("-") == None
    ensures ParseLong("+") == None
    ensures ParseLong(" 1") == None
    ensures ParseLong("1.0") == None
    ensures ParseLong("1e3") == None
  {
    assert Unsigned("-") == [];
    assert Unsigned("+") == [];
    assert !IsAsciiDigit(" 1"[0]);
    assert !IsAsciiDigit("1.0"[1]);
    assert !IsAsciiDigit("1e3"[1]);
  }

  /**
   * The value of every accepted literal: a string of digits, with no sign, a `+` or a `-`, parses
   * to its decimal value (negated after `-`) exactly when that value fits in a `long`.
   */
  lemma ParseLongRange(digits: string)
    requires |digits| > 0 && AllAsciiDigits(digits)
    ensures ParseLong(digits) == if DigitsValue(digits) <= MAX_LONG then Some(DigitsValue(digits)) else None
    ensures ParseLong("+" + digits) == if DigitsValue(digits) <= MAX_LONG then Some(DigitsValue(digits)) else None
    ensures ParseLong("-" + digits) ==
              if DigitsValue(digits) <= -MIN_LONG then Some(-(DigitsValue(digits) as int)) else None
  {
    assert IsAsciiDigit(digits[0]);
    assert Unsigned(digits) == digits;
    assert Unsigned("+" + digits) == digits;
    assert Unsigned("-" + digits) == digits;
  }

  /** Leading zeros do not change the value. */
  lemma ParseLongLeadingZero(digits: string)
    requires |digits| > 0 && AllAsciiDigits(digits)
    ensures DigitsValue("0" + digits) == DigitsValue(digits)
    ensures ParseLong("0" + digits) == ParseLong(digits)
  {
    LeadingZeroValue(digits);
    ParseLongRange(digits);
    ParseLongRange("0" + digits);
  }

  lemma {:induction false} LeadingZeroValue(digits: string)
    requires AllAsciiDigits(digits)
    ensures AllAsciiDigits("0" + digits) && DigitsValue("0" + digits) == DigitsValue(digits)
  {
    var z := "0" + digits;
    assert AllAsciiDigits(z) by {
      forall i | 0 <= i < |z| ensures IsAsciiDigit(z[i]) {
        if i > 0 { assert z[i] == digits[i - 1]; }
      }
    }
    if digits != [] {
      assert z[..|z| - 1] == "0" + digits[..|digits| - 1];
      assert z[|z| - 1] == digits[|digits| - 1];
      LeadingZeroValue(digits[..|digits| - 1]);
    }
  }

  predicate IsLowerHexDigit(c: char) { ('0' <= c <= '9') || ('a' <= c <= 'f') }

  /**
   * The shape of `UUID.toString()`: 36 characters, lowercase hexadecimal digits
   * in groups of 8, 4, 4, 4 and 12 separated by `-`.
   */
  predicate IsUuidText(s: string) {
    && |s| == 36
    && forall i :: 0 <= i < 36 ==>
         if i == 8 || i == 13 || i == 18 || i == 23 then s[i] == '-' else IsLowerHexDigit(s[i])
  }
}
