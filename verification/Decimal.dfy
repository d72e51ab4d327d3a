/**
 Decimal text: what `%zu` prints, and what `boost::lexical_cast<int64_t>` accepts.
 */
module Decimal {
  import opened Wrappers

  const INT64_MIN: int := -0x8000_0000_0000_0000
  const INT64_MAX: int := 0x7FFF_FFFF_FFFF_FFFF

  type int64 = n: int | INT64_MIN <= n <= INT64_MAX

  predicate IsDigit(c: char) {
    '0' <= c <= '9'
  }

  predicate AllDigits(s: string) {
    forall i :: 0 <= i < |s| ==> IsDigit(s[i])
  }

  function DigitValue(c: char): (d: nat)
    requires IsDigit(c)
    ensures d < 10
  {
    c as int - '0' as int
  }

  function DigitChar(d: nat): (c: char)
    requires d < 10
    ensures IsDigit(c) && DigitValue(c) == d
  {
    ('0' as int + d) as char
  }

  /** The number a run of digits denotes, most significant digit first. */
  function Number(s: string): nat
    requires AllDigits(s)
  {
    if s == "" then 0 else 10 * Number(s[..|s| - 1]) + DigitValue(s[|s| - 1])
  }

  /** The shortest decimal text of a number. */
  function Text(n: nat): (s: string)
    ensures s != "" && AllDigits(s)
  {
    if n < 10 then [DigitChar(n)] else Text(n / 10) + [DigitChar(n % 10)]
  }

  /**
   An optional sign followed by at least one digit, provided that the number fits in
   64 bits; anything else makes the cast throw.
   */
  function LexicalCast(s: string): Option<int64> {
    var digits := if s != "" && (s[0] == '-' || s[0] == '+') then s[1..] else s;
    if digits == "" || !AllDigits(digits) then None
    else
      var magnitude: int := Number(digits);
      var n := if s[0] == '-' then -magnitude else magnitude;
      if INT64_MIN <= n <= INT64_MAX then Some(n) else None
  }

  lemma {:induction false} NumberOfText(n: nat)
    ensures Number(Text(n)) == n
  {
    if n >= 10 {
      NumberOfText(n / 10);
      assert Text(n)[..|Text(n)| - 1] == Text(n / 10);
    } else {
      assert Text(n)[..0] == "";
    }
  }

  // ---------------------------------------------------------------- what the cast reads

  /** A number as RESP writes it: digits, with or without a sign before them. */
  predicate IsNumeral(s: string) {
    s != "" && AllDigits(s[1..]) && (IsDigit(s[0]) || ((s[0] == '-' || s[0] == '+') && |s| > 1))
  }

  function NumeralValue(s: string): int
    requires IsNumeral(s)
  {
    if s[0] == '-' then -(Number(s[1..]) as int)
    else if s[0] == '+' then Number(s[1..])
    else Number(s)
  }

  /** The cast gives a number for the numerals that fit in 64 bits, and for nothing else. */
  lemma CastIff(s: string)
    ensures
      if IsNumeral(s) && -0x8000_0000_0000_0000 <= NumeralValue(s) <= 0x7FFF_FFFF_FFFF_FFFF then
        LexicalCast(s) == Some(NumeralValue(s))
      else
        LexicalCast(s) == None
  {
    if s != "" {
      assert s == [s[0]] + s[1..];
    }
  }

  lemma NumeralOfText(n: nat)
    ensures IsNumeral(Text(n)) && NumeralValue(Text(n)) == n
    ensures IsNumeral("+" + Text(n)) && NumeralValue("+" + Text(n)) == n
    ensures IsNumeral("-" + Text(n)) && NumeralValue("-" + Text(n)) == -(n as int)
  {
    NumberOfText(n);
    var s := Text(n);
    assert IsDigit(s[0]) && ("+" + s)[1..] == s && ("-" + s)[1..] == s;
    hide Number, Text;
  }

  /** Printed numbers, with each sign and without. */
  lemma CastOfSigned(n: nat)
    ensures LexicalCast(Text(n)) == if n < 0x8000_0000_0000_0000 then Some(n) else None
    ensures LexicalCast("+" + Text(n)) == if n < 0x8000_0000_0000_0000 then Some(n) else None
    ensures LexicalCast("-" + Text(n)) == if n <= 0x8000_0000_0000_0000 then Some(-(n as int)) else None
  {
    hide LexicalCast, IsNumeral, NumeralValue, Text;
    NumeralOfText(n);
    CastIff(Text(n));
    CastIff("+" + Text(n));
    CastIff("-" + Text(n));
  }
}
