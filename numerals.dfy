/**
 * Decimal integers as C reads and prints them: `atoi` on the way in and the
 * `%d` conversion on the way out.
 */
module Numerals {

  predicate IsDigit(c: char) {
    '0' <= c <= '9'
  }

  /** The C locale's white space: blank, tab, newline, vertical tab, form feed, return. */
  predicate IsSpace(c: char) {
    c == ' ' || '\t' <= c <= '\r'
  }

  function DigitValue(c: char): nat
    requires IsDigit(c)
  {
    c as int - '0' as int
  }

  function DigitChar(d: nat): (c: char)
    requires d < 10
    ensures IsDigit(c) && DigitValue(c) == d
  {
    ('0' as int + d) as char
  }

  predicate AllDigits(s: string) {
    forall i :: 0 <= i < |s| ==> IsDigit(s[i])
  }

  /** `s` without its leading white space. */
  function SkipSpaces(s: string): (r: string)
    ensures |r| <= |s| && r == s[|s| - |r|..]
    ensures forall i :: 0 <= i < |s| - |r| ==> IsSpace(s[i])
    ensures r != [] ==> !IsSpace(r[0])
  {
    if s != [] && IsSpace(s[0]) then SkipSpaces(s[1..]) else s
  }

  /** The longest run of digits `s` starts with. */
  function LeadingDigits(s: string): (r: string)
    ensures r <= s && AllDigits(r)
    ensures |r| < |s| ==> !IsDigit(s[|r|])
  {
    if s != [] && IsDigit(s[0]) then [s[0]] + LeadingDigits(s[1..]) else []
  }

  /** The value of a run of decimal digits, most significant first. */
  function DigitsValue(d: string): nat
    requires AllDigits(d)
  {
    if d == [] then 0 else DigitsValue(d[..|d| - 1]) * 10 + DigitValue(d[|d| - 1])
  }

  /**
   * C's `atoi`: skip white space, read an optional sign, then as many digits
   * as follow; no digits reads as 0. Values are unbounded here.
   */
  function Atoi(s: string): int {
    var t := SkipSpaces(s);
    if t != [] && t[0] == '-' then -(DigitsValue(LeadingDigits(t[1..])) as int)
    else if t != [] && t[0] == '+' then DigitsValue(LeadingDigits(t[1..]))
    else DigitsValue(LeadingDigits(t))
  }

  /** The decimal digits of `n`, without leading zeros. */
  function Natural(n: nat): (r: string)
    ensures r != [] && AllDigits(r)
    ensures r[0] == '0' <==> n == 0
    ensures |r| > 1 ==> r[0] != '0'
  {
    if n < 10 then [DigitChar(n)] else Natural(n / 10) + [DigitChar(n % 10)]
  }

  /** What the `%d` conversion prints for `n`. */
  function Decimal(n: int): (r: string)
    ensures r != [] && (r[0] == '-' <==> n < 0)
    ensures n < 0 ==> |r| > 1 && AllDigits(r[1..]) && r[1] != '0'
    ensures n >= 0 ==> AllDigits(r) && (|r| > 1 ==> r[0] != '0')
  {
    if n < 0 then "-" + Natural(-n) else Natural(n)
  }

  /** `%d` prints digits whose value is the number printed. */
  lemma {:induction false} NaturalValue(n: nat)
    ensures DigitsValue(Natural(n)) == n
  {
    if n >= 10 {
      var d := Natural(n);
      assert d[..|d| - 1] == Natural(n / 10);
      NaturalValue(n / 10);
    }
  }

  lemma {:induction false} LeadingDigitsOf(d: string, rest: string)
    requires AllDigits(d)
    requires rest == [] || !IsDigit(rest[0])
    ensures LeadingDigits(d + rest) == d
  {
    if d != [] {
      assert (d + rest)[1..] == d[1..] + rest;
      LeadingDigitsOf(d[1..], rest);
    } else {
      assert d + rest == rest;
    }
  }

  /** `atoi` of text that starts with a digit reads its leading digits. */
  lemma AtoiOfDigits(s: string)
    requires s != [] && IsDigit(s[0])
    ensures Atoi(s) == DigitsValue(LeadingDigits(s))
  {
    assert SkipSpaces(s) == s;
  }

  /** `atoi` of a minus sign followed by a digit negates the digits that follow. */
  lemma AtoiOfMinus(s: string)
    requires |s| > 1 && s[0] == '-' && IsDigit(s[1])
    ensures Atoi(s) == -(DigitsValue(LeadingDigits(s[1..])) as int)
  {
    assert SkipSpaces(s) == s;
  }

  /** `atoi` reads back a non-negative number printed by `%d`. */
  lemma AtoiReadsNatural(m: nat, rest: string)
    requires rest == [] || !IsDigit(rest[0])
    ensures Atoi(Natural(m) + rest) == m
  {
    var d := Natural(m);
    NaturalValue(m);
    LeadingDigitsOf(d, rest);
    AtoiOfDigits(d + rest);
  }

  /** `atoi` reads back a negative number printed by `%d`. */
  lemma AtoiReadsNegative(m: nat, rest: string)
    requires m > 0
    requires rest == [] || !IsDigit(rest[0])
    ensures Atoi("-" + Natural(m) + rest) == -(m as int)
  {
    var d := Natural(m);
    NaturalValue(m);
    LeadingDigitsOf(d, rest);
    var s := "-" + d + rest;
    assert s[1..] == d + rest;
    AtoiOfMinus(s);
  }

  /**
   * `atoi` reads back what `%d` printed, whatever non-digit text follows it
   * (such as the newline left at the end of a line).
   */
  lemma AtoiReadsDecimal(n: int, rest: string)
    requires rest == [] || !IsDigit(rest[0])
    ensures Atoi(Decimal(n) + rest) == n
  {
    if n < 0 {
      AtoiReadsNegative(-n, rest);
    } else {
      AtoiReadsNatural(n, rest);
    }
  }
}
