/** Decimal text of natural numbers, as JavaScript prints an integer below 10^21 and reads it back. */
module Decimal {

  predicate IsDigit(c: char) { '0' <= c <= '9' }

  predicate AllDigits(s: string) { forall i :: 0 <= i < |s| ==> IsDigit(s[i]) }

  function DigitChar(d: nat): char
    requires d < 10
  {
    ('0' as int + d) as char
  }

  function DigitValue(c: char): nat { if IsDigit(c) then c as int - '0' as int else 0 }

  /** `String(n)` */
  function Print(n: nat): (s: string)
    ensures |s| > 0 && AllDigits(s)
  {
    if n < 10 then [DigitChar(n)] else Print(n / 10) + [DigitChar(n % 10)]
  }

  /** `Number(s)` on a string of digits; leading zeros are harmless. */
  function Parse(s: string): nat {
    if s == "" then 0 else 10 * Parse(s[..|s| - 1]) + DigitValue(s[|s| - 1])
  }

  lemma {:induction false} ParsePrint(n: nat)
    ensures Parse(Print(n)) == n
  {
    if n >= 10 {
      ParsePrint(n / 10);
      assert Print(n)[..|Print(n)| - 1] == Print(n / 10);
    } else {
      assert Print(n)[..0] == "";
    }
  }

  lemma PrintInjective(a: nat, b: nat)
    ensures Print(a) == Print(b) <==> a == b
  {
    ParsePrint(a);
    ParsePrint(b);
  }
}
