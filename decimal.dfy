/**
  Java's 64-bit `long` and its decimal text, as produced by string
  concatenation (`userId + ":" + followerId`) and read back by
  `Long.parseLong`, restricted to the ASCII digits '0'-'9'.
 */
module Decimal {
  import opened Wrappers

  const MIN_LONG: int := -0x8000_0000_0000_0000
  const MAX_LONG: int := 0x7FFF_FFFF_FFFF_FFFF

  /** Java's signed 64-bit `long`. */
  type Long = n: int | MIN_LONG <= n <= MAX_LONG

  predicate IsDigit(c: char) {
    '0' <= c <= '9'
  }

  predicate AllDigits(s: string) {
    forall i :: 0 <= i < |s| ==> IsDigit(s[i])
  }

  function DigitValue(c: char): nat
    requires IsDigit(c)
  {
    (c as int) - ('0' as int)
  }

  function DigitChar(d: nat): (c: char)
    requires d < 10
    ensures IsDigit(c) && DigitValue(c) == d
  {
    (('0' as int) + d) as char
  }

  /** The decimal digits of a natural number, most significant first, no leading zeros. */
  function NatText(n: nat): (s: string)
    ensures |s| > 0 && AllDigits(s)
    ensures s[0] == '0' <==> n == 0
    ensures |s| > 1 ==> s[0] != '0'
    decreases n
  {
    if n < 10 then [DigitChar(n)] else NatText(n / 10) + [DigitChar(n % 10)]
  }

  /**
    The text Java gives a `long` in a string concatenation: an optional
    leading '-' and then digits only; in particular it never holds ':'.
   */
  function LongText(n: Long): (s: string)
    ensures |s| > 0
    ensures forall i :: 0 <= i < |s| ==> IsDigit(s[i]) || (i == 0 && s[i] == '-')
    ensures ':' !in s
  {
    if n < 0 then "-" + NatText(-(n as int)) else NatText(n)
  }

  /** The number a string of decimal digits denotes. */
  function DigitsValue(s: string): nat
    requires AllDigits(s)
  {
    if s == [] then 0 else DigitsValue(s[..|s| - 1]) * 10 + DigitValue(s[|s| - 1])
  }

  /**
    `Long.parseLong` on ASCII text: an optional sign, then at least one
    ASCII digit, and a value inside the range of `long`; anything else is a
    `NumberFormatException`, here `None`. Java also accepts the decimal
    digits of other scripts; this model reads ASCII digits only, which is
    all `LongText` produces.
   */
  function ParseLong(s: string): Option<Long> {
    if |s| > 0 && (s[0] == '-' || s[0] == '+') then
      var digits := s[1..];
      if |digits| > 0 && AllDigits(digits) then
        var v: int := if s[0] == '-' then -(DigitsValue(digits) as int) else DigitsValue(digits);
        if MIN_LONG <= v <= MAX_LONG then Some(v) else None
      else None
    else if |s| > 0 && AllDigits(s) && DigitsValue(s) <= MAX_LONG then
      Some(DigitsValue(s))
    else None
  }

  /** Reading back the digits of a natural number gives the number. */
  lemma {:induction false} NatTextRoundTrip(n: nat)
    ensures DigitsValue(NatText(n)) == n
    decreases n
  {
    if n >= 10 {
      var s := NatText(n);
      assert s[..|s| - 1] == NatText(n / 10);
      NatTextRoundTrip(n / 10);
    }
  }

  /** `Long.parseLong(String.valueOf(n)) == n` for every `long`. */
  lemma LongTextRoundTrip(n: Long)
    ensures ParseLong(LongText(n)) == Some(n)
  {
    var s := LongText(n);
    if n < 0 {
      assert s[1..] == NatText(-(n as int));
      NatTextRoundTrip(-(n as int));
    } else {
      NatTextRoundTrip(n);
      assert IsDigit(s[0]);
    }
  }
}
