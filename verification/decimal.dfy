/** Decimal text of integers: what `toString()` and template interpolation
    write for a number, and what `parseInt` reads back. */
module Decimal {
  import opened Wrappers

  predicate IsDigit(c: char) {
    '0' <= c <= '9'
  }

  predicate AllDigits(s: string) {
    forall i :: 0 <= i < |s| ==> IsDigit(s[i])
  }

  function DigitChar(d: nat): (c: char)
    requires d < 10
    ensures IsDigit(c)
  {
    (d + '0' as int) as char
  }

  function DigitValue(c: char): (d: nat)
    requires IsDigit(c)
    ensures d < 10 && DigitChar(d) == c
  {
    c as int - '0' as int
  }

  /** The shortest decimal text of `n`, most significant digit first. */
  function NatText(n: nat): (s: string)
    ensures s != [] && AllDigits(s)
    ensures s[0] == '0' ==> n == 0
  {
    if n < 10 then [DigitChar(n)] else NatText(n / 10) + [DigitChar(n % 10)]
  }

  /** The value of a string of decimal digits. */
  function ParseNat(s: string): nat
    requires AllDigits(s)
  {
    if s == [] then 0 else 10 * ParseNat(s[..|s| - 1]) + DigitValue(s[|s| - 1])
  }

  /** The text of an integer: a minus sign before the digits of a negative one. */
  function IntText(n: int): (s: string)
    ensures s != []
  {
    if n < 0 then "-" + NatText(-n) else NatText(n)
  }

  /** `parseInt` on the texts an identifier can have: digits, or a minus sign
      followed by digits. Anything else is not a number (`NaN`). */
  function ParseInt(s: string): Option<int>
  {
    if s != [] && AllDigits(s) then Some(ParseNat(s))
    else if |s| > 1 && s[0] == '-' && AllDigits(s[1..]) then Some(-(ParseNat(s[1..]) as int))
    else None
  }

  /** The text of a non-negative integer is all digits; that of a negative
      one is a minus sign followed by digits. */
  lemma IntTextShape(n: int)
    ensures n >= 0 ==> AllDigits(IntText(n))
    ensures n < 0 ==> IntText(n)[0] == '-' && AllDigits(IntText(n)[1..])
  {
    if n < 0 {
      assert IntText(n)[1..] == NatText(-n);
    }
  }

  /** `parseInt` reads a string of digits as a non-negative number, reads
      anything else only when it is a minus sign followed by digits, and then
      as a negative number or zero. */
  lemma ParseIntAccepts(s: string)
    ensures s != [] && AllDigits(s) ==> ParseInt(s).Some? && ParseInt(s).value >= 0
    ensures ParseInt(s).Some? ==> s != [] && (AllDigits(s) || (s[0] == '-' && AllDigits(s[1..])))
    ensures ParseInt(s).Some? && !AllDigits(s) ==> ParseInt(s).value <= 0
  {
  }

  /** The longest prefix of `s` made of digits. */
  function LeadingDigits(s: string): (d: string)
    ensures AllDigits(d) && d <= s
    ensures |d| < |s| ==> !IsDigit(s[|d|])
  {
    if s == [] || !IsDigit(s[0]) then [] else [s[0]] + LeadingDigits(s[1..])
  }

  lemma {:induction false} NatTextRoundTrip(n: nat)
    ensures ParseNat(NatText(n)) == n
  {
    var s := NatText(n);
    if n < 10 {
      assert s[..|s| - 1] == [];
    } else {
      assert s[..|s| - 1] == NatText(n / 10);
      NatTextRoundTrip(n / 10);
    }
  }

  /** Reading back the text of any integer gives that integer. */
  lemma IntTextRoundTrip(n: int)
    ensures ParseInt(IntText(n)) == Some(n)
  {
    if n < 0 {
      var t := NatText(-n);
      assert ("-" + t)[0] == '-' && !IsDigit('-');
      assert ("-" + t)[1..] == t;
      NatTextRoundTrip(-n);
    } else {
      NatTextRoundTrip(n);
    }
  }

  /** Two integers with the same text are the same integer. */
  lemma IntTextInjective(m: int, n: int)
    ensures IntText(m) == IntText(n) ==> m == n
  {
    IntTextRoundTrip(m);
    IntTextRoundTrip(n);
  }

  /** Digits followed by a non-digit (or nothing) are read as exactly those digits. */
  lemma {:induction false} LeadingDigitsOf(d: string, rest: string)
    requires AllDigits(d)
    requires rest == [] || !IsDigit(rest[0])
    ensures LeadingDigits(d + rest) == d
  {
    if d == [] {
      assert d + rest == rest;
    } else {
      assert (d + rest)[0] == d[0];
      assert (d + rest)[1..] == d[1..] + rest;
      LeadingDigitsOf(d[1..], rest);
    }
  }
}
