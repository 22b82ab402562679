/**
 * Decimal rendering of the temperature, the text a template literal such as
 * `${temperature}` produces for an integral number of magnitude at most 2^53:
 * an optional minus sign followed by digits without leading zeros. `ReadInt` reads such text back,
 * which shows that the rendering loses no information.
 */
module Numerals {

  predicate IsDigit(c: char) {
    '0' <= c <= '9'
  }

  predicate AllDigits(s: string) {
    forall i :: 0 <= i < |s| ==> IsDigit(s[i])
  }

  function DigitChar(d: nat): (c: char)
    requires d < 10
    ensures IsDigit(c)
  {
    ('0' as int + d) as char
  }

  function DigitValue(c: char): (d: nat)
    requires IsDigit(c)
    ensures d < 10 && DigitChar(d) == c
  {
    c as int - '0' as int
  }

  /** The digits of `n`: at least one, and no leading zero. */
  function ShowNat(n: nat): (s: string)
    ensures |s| >= 1 && AllDigits(s)
    ensures |s| > 1 ==> s[0] != '0'
    ensures s[0] == '0' <==> n == 0
    decreases n
  {
    if n < 10 then [DigitChar(n)] else ShowNat(n / 10) + [DigitChar(n % 10)]
  }

  /** The number a string of digits spells, most significant digit first. */
  function ParseNat(s: string): (n: nat)
    requires AllDigits(s)
    decreases |s|
  {
    if s == [] then 0 else ParseNat(s[..|s| - 1]) * 10 + DigitValue(s[|s| - 1])
  }

  /** A number rendered as decimal text: a minus sign exactly for negatives. */
  function ShowInt(n: int): (s: string)
    ensures |s| >= 1
    ensures s[0] == '-' <==> n < 0
    ensures n < 0 ==> |s| >= 2 && AllDigits(s[1..])
    ensures n >= 0 ==> AllDigits(s)
  {
    if n < 0 then "-" + ShowNat(-n) else ShowNat(n)
  }

  /** Reads back the text `ShowInt` writes. */
  function ReadInt(s: string): (n: int)
    requires |s| >= 1
    requires if s[0] == '-' then AllDigits(s[1..]) else AllDigits(s)
  {
    if s[0] == '-' then -(ParseNat(s[1..]) as int) else ParseNat(s)
  }

  lemma {:induction false} ParseShowNat(n: nat)
    ensures ParseNat(ShowNat(n)) == n
    decreases n
  {
    var s := ShowNat(n);
    if n >= 10 {
      ParseShowNat(n / 10);
      assert s[..|s| - 1] == ShowNat(n / 10);
    }
  }

  /** Rendering then reading gives back the number. */
  lemma ReadShowInt(n: int)
    ensures ReadInt(ShowInt(n)) == n
  {
    if n < 0 {
      assert ShowInt(n)[1..] == ShowNat(-n);
      ParseShowNat(-n);
    } else {
      ParseShowNat(n);
    }
  }

  /** Distinct numbers are rendered as distinct texts. */
  lemma ShowIntInjective(a: int, b: int)
    ensures ShowInt(a) == ShowInt(b) ==> a == b
  {
    ReadShowInt(a);
    ReadShowInt(b);
  }
}
