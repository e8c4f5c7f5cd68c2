/**
 * Decimal digit strings: the text Rust's `Display` prints for an unsigned
 * integer, and the value of a run of ASCII digits as `str::parse` reads it.
 */
module Decimal {

  predicate IsDigit(c: char) {
    '0' <= c <= '9'
  }

  predicate AllDigits(s: string) {
    forall i | 0 <= i < |s| :: IsDigit(s[i])
  }

  /** A digit string as `Display` prints it: non-empty, no leading zero unless it is "0". */
  predicate IsCanonical(s: string) {
    |s| > 0 && AllDigits(s) && (s[0] == '0' ==> |s| == 1)
  }

  function DigitValue(c: char): (d: nat)
    requires IsDigit(c)
    ensures d < 10
  {
    c as int - '0' as int
  }

  function DigitChar(d: nat): (c: char)
    requires d < 10
    ensures IsDigit(c) && DigitValue(c) == d
  {
    ('0' as int + d) as char
  }

  /** The value of a digit string, most significant digit first. */
  function DigitsValue(s: string): nat
    requires AllDigits(s)
    decreases |s|
  {
    if |s| == 0 then 0 else 10 * DigitsValue(s[..|s| - 1]) + DigitValue(s[|s| - 1])
  }

  /** Decimal rendering of a natural number, as `{}` formats a `u64`. */
  function NatToDigits(n: nat): (s: string)
    ensures IsCanonical(s)
    ensures s[0] == '0' <==> n == 0
    decreases n
  {
    if n < 10 then [DigitChar(n)] else NatToDigits(n / 10) + [DigitChar(n % 10)]
  }

  /** Decimal rendering of an integer, as `{}` formats an `i64`: a minus sign for negatives. */
  function IntToDecimal(i: int): (s: string)
    ensures |s| > 0
    ensures i < 0 <==> s[0] == '-'
    ensures i >= 0 ==> s == NatToDigits(i)
    ensures i < 0 ==> s[1..] == NatToDigits(-i)
  {
    if i < 0 then "-" + NatToDigits(-i) else NatToDigits(i)
  }

  function Pow10(k: nat): (p: nat)
    ensures p >= 1
  {
    if k == 0 then 1 else 10 * Pow10(k - 1)
  }

  /** A string of `k` digits denotes a number below `10^k`. */
  lemma {:induction false} DigitsValueBound(s: string)
    requires AllDigits(s)
    ensures DigitsValue(s) < Pow10(|s|)
  {
    if |s| > 0 {
      DigitsValueBound(s[..|s| - 1]);
    }
  }

  /** Reading back what `NatToDigits` printed gives the number again. */
  lemma {:induction false} DigitsValueOfNatToDigits(n: nat)
    ensures DigitsValue(NatToDigits(n)) == n
  {
    if n >= 10 {
      var s := NatToDigits(n);
      assert s[..|s| - 1] == NatToDigits(n / 10);
      DigitsValueOfNatToDigits(n / 10);
    }
  }

  /** A digit string whose first digit is not zero has a positive value. */
  lemma {:induction false} LeadingNonZeroIsPositive(s: string)
    requires |s| > 0 && AllDigits(s) && s[0] != '0'
    ensures DigitsValue(s) > 0
  {
    if |s| > 1 {
      LeadingNonZeroIsPositive(s[..|s| - 1]);
    }
  }

  /** Printing the value of a canonical digit string gives the string back. */
  lemma {:induction false} NatToDigitsOfCanonical(s: string)
    requires IsCanonical(s)
    ensures NatToDigits(DigitsValue(s)) == s
  {
    var n := DigitsValue(s);
    if |s| == 1 {
      assert s[..|s| - 1] == [];
      assert DigitsValue(s[..|s| - 1]) == 0;
      assert n == DigitValue(s[0]);
      assert [DigitChar(n)] == s;
    } else {
      var init := s[..|s| - 1];
      LeadingNonZeroIsPositive(init);
      NatToDigitsOfCanonical(init);
      assert n / 10 == DigitsValue(init) && n % 10 == DigitValue(s[|s| - 1]);
      assert init + [s[|s| - 1]] == s;
    }
  }
}
