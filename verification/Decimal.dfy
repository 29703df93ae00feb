/**
 * Decimal numerals, as a template literal prints them and as `Number.parseInt(text, 10)`
 * reads them: leading blanks skipped, an optional sign, then the longest run of digits.
 */
module Decimal {
  import opened Basics

  predicate IsDigit(c: char) {
    '0' <= c <= '9'
  }

  predicate AllDigits(s: string) {
    forall i | 0 <= i < |s| :: IsDigit(s[i])
  }

  function DigitChar(d: nat): char
    requires d < 10
  {
    ('0' as int + d) as char
  }

  function Show(n: nat): string {
    if n < 10 then [DigitChar(n)] else Show(n / 10) + [DigitChar(n % 10)]
  }

  function Value(s: string): nat
    requires AllDigits(s)
  {
    if s == [] then 0 else 10 * Value(s[..|s| - 1]) + (s[|s| - 1] as int - '0' as int)
  }

  lemma {:induction false} ShowReadsBack(n: nat)
    ensures Show(n) != [] && AllDigits(Show(n)) && Value(Show(n)) == n
  {
    if n < 10 {
      assert Value([]) == 0;
      assert [DigitChar(n)][..0] == [];
    } else {
      ShowReadsBack(n / 10);
      assert Show(n)[..|Show(n)| - 1] == Show(n / 10);
    }
  }

  predicate IsSpace(c: char) {
    c in " \t\n\r"
  }

  function TrimLeft(s: string): string {
    if s != [] && IsSpace(s[0]) then TrimLeft(s[1..]) else s
  }

  function TrimRight(s: string): string {
    if s != [] && IsSpace(s[|s| - 1]) then TrimRight(s[..|s| - 1]) else s
  }

  function Trim(s: string): string {
    TrimRight(TrimLeft(s))
  }

  function LeadingDigits(s: string): (d: string)
    ensures AllDigits(d)
  {
    if s != [] && IsDigit(s[0]) then [s[0]] + LeadingDigits(s[1..]) else []
  }

  /** `None` is JavaScript's NaN. */
  function ParseInt(s: string): Option<int> {
    var t := TrimLeft(s);
    var signed := t != [] && (t[0] == '-' || t[0] == '+');
    var digits := LeadingDigits(if signed then t[1..] else t);
    var value: int := if digits == [] then 0 else Value(digits);
    if digits == [] then None else Some(if signed && t[0] == '-' then -value else value)
  }

  lemma {:induction false} LeadingDigitsOfDigits(s: string)
    requires AllDigits(s)
    ensures LeadingDigits(s) == s
  {
    if s != [] {
      LeadingDigitsOfDigits(s[1..]);
    }
  }

  lemma ParseIntOfNumeral(n: nat)
    ensures ParseInt(Show(n)) == Some(n)
  {
    ShowReadsBack(n);
    assert IsDigit(Show(n)[0]);
    LeadingDigitsOfDigits(Show(n));
  }
}
