/** Decimal notation of natural numbers: what f"{n}" and `${n}` print and int() and Number() read. */
module Decimal {
  import opened Options

  predicate IsDigit(c: char) { '0' <= c <= '9' }

  predicate AllDigits(s: string) { forall k | 0 <= k < |s| :: IsDigit(s[k]) }

  function DigitChar(d: nat): char
    requires d < 10
  {
    '0' + (d as char)
  }

  function DigitValue(c: char): nat
    requires IsDigit(c)
  {
    (c as int) - ('0' as int)
  }

  function Print(n: nat): string {
    if n < 10 then [DigitChar(n)] else Print(n / 10) + [DigitChar(n % 10)]
  }

  function Value(s: string): nat
    requires AllDigits(s)
  {
    if s == "" then 0 else 10 * Value(s[..|s| - 1]) + DigitValue(s[|s| - 1])
  }

  /** Reads a non-empty digit string. */
  function Parse(s: string): Option<nat> {
    if s != "" && AllDigits(s) then Some(Value(s)) else None
  }

  /** Reading a printed number gives the number back. */
  lemma {:induction false} ParsePrint(n: nat)
    ensures Print(n) != "" && AllDigits(Print(n)) && Value(Print(n)) == n
    ensures Parse(Print(n)) == Some(n)
  {
    if n >= 10 {
      ParsePrint(n / 10);
      var s := Print(n);
      assert s[..|s| - 1] == Print(n / 10);
    } else {
      assert Print(n)[..0] == "";
    }
  }
}
