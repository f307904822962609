/** Decimal numerals, in the names of log files and of format arguments. */
module Decimal {

  function Pow10(k: nat): (p: nat)
    ensures p > 0
  {
    if k == 0 then 1 else 10 * Pow10(k - 1)
  }

  predicate IsDigit(c: char) { '0' <= c <= '9' }

  function Digit(c: char): nat { if IsDigit(c) then c as int - '0' as int else 0 }

  function Value(digits: string): nat {
    if digits == "" then 0 else 10 * Value(digits[..|digits| - 1]) + Digit(digits[|digits| - 1])
  }

  function Digits(n: nat): string {
    if n < 10 then [(n + '0' as int) as char] else Digits(n / 10) + [(n % 10 + '0' as int) as char]
  }

  lemma {:induction false} DigitsValue(n: nat)
    ensures Value(Digits(n)) == n && Digits(n) != [] && forall i :: 0 <= i < |Digits(n)| ==> IsDigit(Digits(n)[i])
  {
    if n >= 10 {
      DigitsValue(n / 10);
      var d := Digits(n);
      assert d[..|d| - 1] == Digits(n / 10);
    } else {
      assert Digits(n)[..0] == [];
    }
  }

  /** No leading zeros */
  lemma {:induction false} DigitsLead(n: nat)
    ensures Digits(n) != "" && (n > 0 ==> Digits(n)[0] != '0')
  {
    if n >= 10 { DigitsLead(n / 10); }
  }

  lemma {:induction false} ValueBound(digits: string)
    ensures Value(digits) < Pow10(|digits|)
  {
    if digits != "" { ValueBound(digits[..|digits| - 1]); }
  }

  lemma {:induction false} ValueFromBelow(digits: string)
    requires digits != "" && Digit(digits[0]) > 0
    ensures Value(digits) >= Pow10(|digits| - 1)
  {
    var rest := digits[..|digits| - 1];
    if rest != "" { ValueFromBelow(rest); }
  }

  lemma ValueSnoc(digits: string, c: char)
    ensures Value(digits + [c]) == 10 * Value(digits) + Digit(c)
  {
    assert (digits + [c])[..|digits|] == digits;
  }

  lemma {:induction false} Pow10Up(a: nat, b: nat)
    requires a <= b
    ensures Pow10(a) <= Pow10(b)
    decreases b
  {
    if a > 0 { Pow10Up(a - 1, b - 1); } else if b > 0 { Pow10Up(0, b - 1); }
  }
}
