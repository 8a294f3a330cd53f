/** Unsigned integers in decimal. */
module Decimal {
  import opened Wrappers

  predicate IsDigit(c: char) {
    '0' <= c <= '9'
  }

  function DigitChar(d: nat): (c: char)
    requires d < 10
    ensures IsDigit(c)
  {
    '0' + d as char
  }

  function DigitValue(c: char): (d: nat)
    requires IsDigit(c)
    ensures d < 10
  {
    (c - '0') as int
  }

  predicate AllDigits(s: string) {
    forall i | 0 <= i < |s| :: IsDigit(s[i])
  }

  /** `format!("{n}")`. */
  function Print(n: nat): (s: string)
    ensures s != "" && AllDigits(s)
  {
    if n < 10 then [DigitChar(n)] else Print(n / 10) + [DigitChar(n % 10)]
  }

  /** The value of a string of digits, leading zeros included. */
  function Value(s: string): nat
    requires AllDigits(s)
  {
    if s == "" then 0 else Value(s[..|s| - 1]) * 10 + DigitValue(s[|s| - 1])
  }

  lemma {:induction false} ValueOfPrint(n: nat)
    ensures Value(Print(n)) == n
  {
    if n >= 10 {
      ValueOfPrint(n / 10);
      assert Print(n)[..|Print(n)| - 1] == Print(n / 10);
    } else {
      assert Print(n)[..0] == "";
    }
  }

  /** The ten digits and their values. */
  lemma Digit(d: nat)
    requires d < 10
    ensures DigitChar(d) == "0123456789"[d] && DigitValue(DigitChar(d)) == d
  {
  }

  /** A number is printed with its last digit last, and read so. */
  lemma LastDigit(n: nat, d: nat, s: string)
    requires d < 10 && AllDigits(s)
    ensures Print(d) == [DigitChar(d)] && (n > 0 ==> Print(10 * n + d) == Print(n) + [DigitChar(d)])
    ensures Value("") == 0 && Value(s + [DigitChar(d)]) == 10 * Value(s) + d
  {
    Digit(d);
    assert (s + [DigitChar(d)])[..|s|] == s;
  }

  lemma PrintInjective(a: nat, b: nat)
    requires Print(a) == Print(b)
    ensures a == b
  {
    ValueOfPrint(a);
    ValueOfPrint(b);
  }

  const U64_MAX := 0xFFFF_FFFF_FFFF_FFFF

  /** Digits only, at least one, and a value that fits 64 bits. */
  function Parse(s: string): Option<nat> {
    if s == "" || !AllDigits(s) || Value(s) > U64_MAX then None else Some(Value(s))
  }
}
