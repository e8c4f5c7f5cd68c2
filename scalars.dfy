/**
 * The scalar types a `DataValue` holds and what Rust's `str::parse` does
 * for each of them: `bool`, `u64`, `i64` exactly, and for `f64` whether the
 * text is accepted at all (the value it denotes is left to `Foreign.Lib`).
 */
module Scalars {
  import opened Wrappers
  import opened Decimal

  const U64_MAX: int := 0xFFFF_FFFF_FFFF_FFFF
  const I64_MIN: int := -0x8000_0000_0000_0000
  const I64_MAX: int := 0x7FFF_FFFF_FFFF_FFFF

  type u64 = n: int | 0 <= n <= U64_MAX
  type i64 = n: int | I64_MIN <= n <= I64_MAX

  /** An IEEE-754 binary64 value, kept as its bit pattern; its arithmetic is not modelled. */
  type Binary64 = bv64

  predicate IsSign(c: char) {
    c == '+' || c == '-'
  }

  /** `str::parse::<bool>`: exactly "true" or "false", nothing else. */
  function ParseBool(s: string): (r: Option<bool>)
    ensures r.Some? <==> s == "true" || s == "false"
    ensures r == Some(true) <==> s == "true"
  {
    if s == "true" then Some(true) else if s == "false" then Some(false) else None
  }

  /** The digits-only part of an integer literal: at least one ASCII digit and nothing else. */
  function ParseDigits(s: string): (r: Option<nat>)
    ensures r.Some? <==> |s| > 0 && AllDigits(s)
  {
    if |s| > 0 && AllDigits(s) then Some(DigitsValue(s)) else None
  }

  /**
   * `str::parse::<u64>`: an optional '+', then digits; a lone sign, a '-'
   * and any value above `u64::MAX` are errors. Leading zeros are accepted.
   */
  function ParseU64(s: string): (r: Option<u64>)
    ensures r.Some? ==> |s| > 0 && s[0] != '-'
    ensures r.Some? ==> var digits := if s[0] == '+' then s[1..] else s;
                        |digits| > 0 && AllDigits(digits) && r.value == DigitsValue(digits)
    ensures (|s| > 0 && s[0] != '-' &&
             var digits := if s[0] == '+' then s[1..] else s;
             |digits| > 0 && AllDigits(digits) && DigitsValue(digits) <= U64_MAX) ==> r.Some?
  {
    if |s| == 0 then None
    else if IsSign(s[0]) && |s| == 1 then None
    else
      var digits := if s[0] == '+' then s[1..] else s;
      match ParseDigits(digits)
      case None => None
      case Some(n) => if n <= U64_MAX then Some(n) else None
  }

  /**
   * `str::parse::<i64>`: an optional '+' or '-', then digits; a lone sign and
   * any value outside `i64::MIN..=i64::MAX` are errors.
   */
  function ParseI64(s: string): (r: Option<i64>)
    ensures r.Some? ==> |s| > 0
    ensures r.Some? ==> var digits := if IsSign(s[0]) then s[1..] else s;
                        |digits| > 0 && AllDigits(digits) &&
                        r.value == (if s[0] == '-' then 0 - DigitsValue(digits) else DigitsValue(digits))
    ensures (|s| > 0 &&
             var digits := if IsSign(s[0]) then s[1..] else s;
             |digits| > 0 && AllDigits(digits) &&
             I64_MIN <= (if s[0] == '-' then 0 - DigitsValue(digits) else DigitsValue(digits)) <= I64_MAX) ==> r.Some?
  {
    if |s| == 0 then None
    else if IsSign(s[0]) && |s| == 1 then None
    else
      var negative := s[0] == '-';
      var digits := if IsSign(s[0]) then s[1..] else s;
      match ParseDigits(digits)
      case None => None
      case Some(n) =>
        var v: int := if negative then 0 - n else n;
        if I64_MIN <= v <= I64_MAX then Some(v) else None
  }

  /** Index of the first occurrence of `c` in `s`, or `|s|` when there is none. */
  function FindFirst(s: string, c: char): (i: nat)
    ensures i <= |s|
    ensures forall j | 0 <= j < i :: s[j] != c
    ensures i < |s| ==> s[i] == c
    decreases |s|
  {
    if |s| == 0 then 0 else if s[0] == c then 0 else 1 + FindFirst(s[1..], c)
  }

  /** Index of the first exponent marker ('e' or 'E') in `s`, or `|s|` when there is none. */
  function FindExponentMarker(s: string): (i: nat)
    ensures i <= |s|
    ensures forall j | 0 <= j < i :: s[j] != 'e' && s[j] != 'E'
    ensures i < |s| ==> s[i] == 'e' || s[i] == 'E'
    decreases |s|
  {
    if |s| == 0 then 0 else if s[0] == 'e' || s[0] == 'E' then 0 else 1 + FindExponentMarker(s[1..])
  }

  function AsciiLower(c: char): char {
    if 'A' <= c <= 'Z' then (c as int - 'A' as int + 'a' as int) as char else c
  }

  /** `s` spells the lower-case word `word` in any mix of ASCII cases. */
  predicate SpellsIgnoringCase(s: string, word: string) {
    |s| == |word| && forall i | 0 <= i < |s| :: AsciiLower(s[i]) == word[i]
  }

  /** "inf", "infinity" or "nan", in any mix of cases. */
  predicate IsSpecialFloat(s: string) {
    SpellsIgnoringCase(s, "inf") || SpellsIgnoringCase(s, "infinity") || SpellsIgnoringCase(s, "nan")
  }

  /** `Digit* '.' Digit*` with at least one digit, or `Digit+`. */
  predicate IsMantissa(m: string) {
    var dot := FindFirst(m, '.');
    AllDigits(m[..dot]) &&
    if dot == |m| then |m| > 0 else |m| > 1 && AllDigits(m[dot + 1..])
  }

  /** `Sign? Digit+`, the part after the exponent marker. */
  predicate IsExponent(x: string) {
    var digits := if |x| > 0 && IsSign(x[0]) then x[1..] else x;
    |digits| > 0 && AllDigits(digits)
  }

  /** A mantissa and an optional exponent part `('e' | 'E') Sign? Digit+`. */
  predicate IsDecimalNumber(s: string) {
    var e := FindExponentMarker(s);
    IsMantissa(s[..e]) && (e == |s| || IsExponent(s[e + 1..]))
  }

  /**
   * Whether `str::parse::<f64>` succeeds: after an optional sign, the text
   * is "inf", "infinity" or "nan" in any case, or a decimal number.
   * Out-of-range magnitudes are not errors (they round to infinity or zero).
   */
  function IsF64Literal(s: string): (r: bool)
    ensures r ==> s != "" && s != "+" && s != "-" && s != "."
  {
    var body := if |s| > 0 && IsSign(s[0]) then s[1..] else s;
    IsSpecialFloat(body) || IsDecimalNumber(body)
  }

  /** Every digit string parses as an `f64`, however large its value. */
  lemma DigitsAreF64Literal(s: string)
    requires |s| > 0 && AllDigits(s)
    ensures IsF64Literal(s)
  {
    assert FindExponentMarker(s) == |s|;
    assert s[..|s|] == s;
    assert FindFirst(s, '.') == |s|;
  }

  /** Rendering a `u64` and parsing it back as a `u64` recovers it. */
  lemma ParseU64OfDigits(n: u64)
    ensures ParseU64(NatToDigits(n)) == Some(n)
  {
    DigitsValueOfNatToDigits(n);
    var s := NatToDigits(n);
    assert !IsSign(s[0]) by { assert IsDigit(s[0]); }
  }

  /** Rendering a negative `i64` and parsing it back as an `i64` recovers it. */
  lemma ParseI64OfNegative(n: i64)
    requires n < 0
    ensures ParseI64(IntToDecimal(n)) == Some(n)
  {
    var m: nat := 0 - n;
    DigitsValueOfNatToDigits(m);
    var s := IntToDecimal(n);
    assert s[1..] == NatToDigits(m);
  }

  /** Rendering any `i64` and parsing it back as an `i64` recovers it. */
  lemma ParseI64OfDecimal(n: i64)
    ensures ParseI64(IntToDecimal(n)) == Some(n)
  {
    if n < 0 {
      ParseI64OfNegative(n);
    } else {
      DigitsValueOfNatToDigits(n);
      var s := IntToDecimal(n);
      assert !IsSign(s[0]) by { assert IsDigit(s[0]); }
    }
  }

  /** No text that starts with '-' parses as a `u64`. */
  lemma NegativeIsNotU64(s: string)
    requires |s| > 0 && s[0] == '-'
    ensures ParseU64(s) == None
  {
  }

  /** Digits, a point and digits, with an optional sign: always an `f64` literal. */
  lemma DecimalFractionIsF64Literal(sign: string, a: string, b: string)
    requires sign == "" || sign == "+" || sign == "-"
    requires AllDigits(a) && AllDigits(b) && |a| + |b| > 0
    ensures IsF64Literal(sign + a + "." + b)
  {
    var s := sign + a + "." + b;
    var m := a + "." + b;
    assert (if |s| > 0 && IsSign(s[0]) then s[1..] else s) == m;
    assert forall j | 0 <= j < |m| :: m[j] == '.' || IsDigit(m[j]);
    assert FindExponentMarker(m) == |m|;
    assert m[..|m|] == m;
    var dot := FindFirst(m, '.');
    assert m[|a|] == '.';
    assert dot == |a|;
    assert m[..dot] == a && m[dot + 1..] == b;
  }

  /**
   * Unsigned text with no exponent marker that is not one of the special
   * words fails as soon as it holds a character that is neither a digit
   * nor '.'.
   */
  lemma StrayCharIsNotF64Literal(s: string, k: nat)
    requires |s| > 0 && !IsSign(s[0]) && !IsSpecialFloat(s)
    requires forall j | 0 <= j < |s| :: s[j] != 'e' && s[j] != 'E'
    requires k < |s| && !IsDigit(s[k]) && s[k] != '.'
    ensures !IsF64Literal(s)
  {
    assert FindExponentMarker(s) == |s|;
    assert s[..|s|] == s;
    var dot := FindFirst(s, '.');
    if k < dot {
      assert s[..dot][k] == s[k];
    } else {
      assert k > dot;
      assert s[dot + 1..][k - dot - 1] == s[k];
    }
  }

  /** A letter after the fraction digits makes the text no `f64` literal. */
  lemma TrailingLetterIsNotF64Literal()
    ensures !IsF64Literal("10.52a")
  {
    StrayCharIsNotF64Literal("10.52a", 5);
  }

  /** A word is no `f64` literal, even one holding the exponent letter. */
  lemma WordIsNotF64Literal()
    ensures !IsF64Literal("somestr")
  {
  }
}
