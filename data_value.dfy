/**
 * `DataValue`: the leaf value of a unit of data, its inference from text
 * (`From<&str>`), its rendering (`Display`), its conversion from a JSON
 * value (`From<Value>`) and its serde representation.
 */
module DataValues {
  import opened Wrappers
  import opened Decimal
  import opened Scalars
  import Json = JsonValues
  import opened Foreign

  datatype DataValue =
    | Bool(b: bool)
    | U64(u: u64)
    | I64(i: i64)
    | F64(x: Binary64)
    | String(s: string)

  /** `impl Default for DataValue`: the bool `false`. */
  function Default(): (v: DataValue)
    ensures v.Bool? && !v.b
  {
    Bool(false)
  }

  /**
   * `From<&str>`: the first parser in the order bool, u64, i64, f64 that
   * accepts the text decides the variant; text none of them accepts is kept
   * verbatim as a `String`.
   */
  function FromStr(s: string, lib: Lib): (v: DataValue)
    ensures v.Bool? <==> s == "true" || s == "false"
    ensures v.String? ==> v.s == s
  {
    match ParseBool(s)
    case Some(b) => Bool(b)
    case None =>
      match ParseU64(s)
      case Some(n) => U64(n)
      case None =>
        match ParseI64(s)
        case Some(n) => I64(n)
        case None =>
          if IsF64Literal(s) then F64(lib.parseF64(s)) else String(s)
  }

  /**
   * The order of the cascade: a variant is chosen exactly when its parser
   * accepts the text and every parser tried before it refuses it.
   */
  lemma FromStrCascade(s: string, lib: Lib)
    ensures FromStr(s, lib) == Bool(true) <==> s == "true"
    ensures FromStr(s, lib) == Bool(false) <==> s == "false"
    ensures FromStr(s, lib).U64? <==> ParseU64(s).Some?
    ensures FromStr(s, lib).U64? ==> FromStr(s, lib).u == ParseU64(s).value
    ensures FromStr(s, lib).I64? <==> ParseU64(s).None? && ParseI64(s).Some?
    ensures FromStr(s, lib).I64? ==> FromStr(s, lib).i == ParseI64(s).value
    ensures FromStr(s, lib).F64? <==>
              ParseBool(s).None? && ParseU64(s).None? && ParseI64(s).None? && IsF64Literal(s)
    ensures FromStr(s, lib).String? <==>
              ParseBool(s).None? && ParseU64(s).None? && ParseI64(s).None? && !IsF64Literal(s)
  {
  }

  /**
   * `Display`: each scalar in its natural textual form, which the parser of
   * its own type reads back; a string is written as it is.
   */
  function Render(v: DataValue, lib: Lib): (r: string)
    ensures v.Bool? ==> ParseBool(r) == Some(v.b)
    ensures v.U64? ==> ParseU64(r) == Some(v.u)
    ensures v.I64? ==> ParseI64(r) == Some(v.i)
    ensures v.I64? ==> (r[0] == '-' <==> v.i < 0)
    ensures v.String? ==> r == v.s
  {
    match v
    case Bool(b) => if b then "true" else "false"
    case U64(n) => ParseU64OfDigits(n); NatToDigits(n)
    case I64(n) => ParseI64OfDecimal(n); IntToDecimal(n)
    case F64(x) => lib.displayF64(x)
    case String(s) => s
  }

  /**
   * serde_json's `Display` for a number: integers in decimal, which the
   * integer parsers read back, and floats by the library.
   */
  function NumberText(n: Json.Number, lib: Lib): (r: string)
    ensures n.PosInt? ==> ParseU64(r) == Some(n.u)
    ensures n.NegInt? ==> ParseI64(r) == Some(n.i)
  {
    match n
    case PosInt(u) => ParseU64OfDigits(u); NatToDigits(u)
    case NegInt(i) => ParseI64OfDecimal(i); IntToDecimal(i)
    case Float(x) => lib.displayJsonFloat(x)
  }

  /**
   * `From<Value>`: null becomes the empty string, a JSON bool and a JSON
   * string are taken as they are, a number goes through `FromStr` on its
   * text, and an array or object becomes the string of its serialisation.
   */
  function FromJson(j: Json.Value, lib: Lib): (v: DataValue)
    ensures j.Null? ==> v == String("")
    ensures j.Bool? ==> v == Bool(j.b)
    ensures j.String? ==> v == String(j.s)
    ensures j.Array? || j.Object? ==> v == String(lib.jsonToString(j))
  {
    match j
    case Null => String("")
    case Bool(b) => Bool(b)
    case Number(n) => FromStr(NumberText(n, lib), lib)
    case String(s) => String(s)
    case Array(_) => String(lib.jsonToString(j))
    case Object(_) => String(lib.jsonToString(j))
  }

  /** A digit string that is not a bool and is accepted as a `u64`. */
  lemma DigitsAreNotBool(s: string)
    requires |s| > 0 && IsDigit(s[0])
    ensures s != "true" && s != "false"
  {
  }

  /**
   * Rendering a bool, a `u64` or a negative `i64` and inferring the value of
   * that text gives the value back; a non-negative `i64` prints as plain
   * digits and so comes back as the `u64` of the same number.
   */
  lemma RenderThenParse(v: DataValue, lib: Lib)
    requires v.Bool? || v.U64? || v.I64?
    ensures FromStr(Render(v, lib), lib) == if v.I64? && v.i >= 0 then U64(v.i) else v
  {
    match v
    case Bool(b) =>
    case U64(n) =>
      ParseU64OfDigits(n);
      DigitsAreNotBool(NatToDigits(n));
    case I64(n) =>
      if n >= 0 {
        ParseU64OfDigits(n);
        DigitsAreNotBool(NatToDigits(n));
      } else {
        ParseI64OfNegative(n);
        NegativeIsNotU64(IntToDecimal(n));
      }
  }

  /** Canonical unsigned decimal text within `u64` range is inferred as `U64` and printed back unchanged. */
  lemma ParseThenRenderUnsigned(s: string, lib: Lib)
    requires IsCanonical(s) && DigitsValue(s) <= U64_MAX
    ensures FromStr(s, lib) == U64(DigitsValue(s))
    ensures Render(FromStr(s, lib), lib) == s
  {
    DigitsAreNotBool(s);
    NatToDigitsOfCanonical(s);
  }

  /** Canonical negative decimal text within `i64` range is inferred as `I64` and printed back unchanged. */
  lemma ParseThenRenderNegative(s: string, lib: Lib)
    requires |s| >= 2 && s[0] == '-' && IsCanonical(s[1..]) && s[1] != '0'
    requires DigitsValue(s[1..]) <= -I64_MIN
    ensures FromStr(s, lib) == I64(0 - DigitsValue(s[1..]))
    ensures Render(FromStr(s, lib), lib) == s
  {
    NegativeIsNotU64(s);
    LeadingNonZeroIsPositive(s[1..]);
    NatToDigitsOfCanonical(s[1..]);
    assert s == "-" + s[1..];
  }

  /**
   * Integer text too large for both `u64` and `i64` is not an error: it
   * falls through to the `f64` parser, which accepts any digit string.
   */
  lemma OverflowingIntegerIsF64(s: string, lib: Lib)
    requires |s| > 0 && AllDigits(s) && DigitsValue(s) > U64_MAX
    ensures FromStr(s, lib).F64?
  {
    DigitsAreNotBool(s);
    DigitsAreF64Literal(s);
  }

  /**
   * Digits, a point and digits, optionally signed, are neither a bool nor
   * an integer, and are inferred as `F64`.
   */
  lemma DecimalFractionIsF64(sign: string, a: string, b: string, lib: Lib)
    requires sign == "" || sign == "+" || sign == "-"
    requires AllDigits(a) && AllDigits(b) && |a| + |b| > 0
    ensures FromStr(sign + a + "." + b, lib).F64?
  {
    var s := sign + a + "." + b;
    DecimalFractionIsF64Literal(sign, a, b);
    assert s[|sign| + |a|] == '.';
    assert !IsDigit(s[|sign| + |a|]);
  }

  /** serde_json integers become the matching integer variant. */
  lemma FromJsonInteger(n: Json.Number, lib: Lib)
    requires Json.WellFormedNumber(n) && !n.Float?
    ensures FromJson(Json.Number(n), lib) == if n.PosInt? then U64(n.u) else I64(n.i)
  {
    if n.PosInt? {
      RenderThenParse(U64(n.u), lib);
    } else {
      RenderThenParse(I64(n.i), lib);
    }
  }

  /**
   * `#[serde(into = "String")]`: a `DataValue` is serialised as the JSON
   * string of its rendering.
   */
  function Serialize(v: DataValue, lib: Lib): (j: Json.Value)
    ensures j.String?
  {
    Json.String(Render(v, lib))
  }

  /** `#[serde(from = "Value")]`: deserialisation goes through `From<Value>`. */
  function Deserialize(j: Json.Value, lib: Lib): (v: DataValue)
    ensures j.String? ==> v == String(j.s)
    ensures j.Bool? ==> v == Bool(j.b)
  {
    FromJson(j, lib)
  }

  /**
   * As written, serialising and deserialising any value yields a `String`
   * holding its rendering: every bool, integer and float loses its variant.
   */
  lemma SerdeRoundTripAsWritten(v: DataValue, lib: Lib)
    ensures Deserialize(Serialize(v, lib), lib) == String(Render(v, lib))
    ensures v.U64? ==> Deserialize(Serialize(v, lib), lib) != v
  {
  }

  /** The variant is lost already for the default value. */
  lemma SerdeRoundTripLosesDefault(lib: Lib)
    ensures Deserialize(Serialize(Default(), lib), lib) == String("false")
  {
  }

  /**
   * Serialisation into the JSON value of the same kind, which is what
   * `From<Value>` distinguishes: bool as bool, integers as numbers,
   * floats as numbers, strings as strings.
   */
  function SerializeTyped(v: DataValue): (j: Json.Value)
    ensures j.Number? ==> Json.WellFormedNumber(j.n)
    ensures v.String? <==> j.String?
  {
    match v
    case Bool(b) => Json.Bool(b)
    case U64(n) => Json.Number(Json.PosInt(n))
    case I64(n) => if n < 0 then Json.Number(Json.NegInt(n)) else Json.Number(Json.PosInt(n))
    case F64(x) => Json.Number(Json.Float(x))
    case String(s) => Json.String(s)
  }

  /**
   * With typed serialisation every bool, `u64`, negative `i64` and string
   * survives the round trip; a non-negative `i64` comes back as the `u64`
   * of the same number.
   */
  lemma SerdeRoundTripTyped(v: DataValue, lib: Lib)
    requires !v.F64?
    ensures Deserialize(SerializeTyped(v), lib) == if v.I64? && v.i >= 0 then U64(v.i) else v
  {
    match v
    case Bool(_) =>
    case String(_) =>
    case U64(n) => FromJsonInteger(Json.PosInt(n), lib);
    case I64(n) =>
      if n < 0 {
        FromJsonInteger(Json.NegInt(n), lib);
      } else {
        FromJsonInteger(Json.PosInt(n), lib);
      }
  }

  // The inference and rendering cases the crate's unit tests pin down, one
  // lemma per case.

  lemma FromStrBoolExamples(lib: Lib)
    ensures FromStr("true", lib) == Bool(true) && FromStr("false", lib) == Bool(false)
  {
  }

  lemma FromStrUnsignedExamples(lib: Lib)
    ensures FromStr("0", lib) == U64(0) && FromStr("100", lib) == U64(100)
  {
    DigitsValueBound("0");
    ParseThenRenderUnsigned("0", lib);
    DigitsValueBound("100");
    ParseThenRenderUnsigned("100", lib);
  }

  lemma FromStrNegativeExample(lib: Lib)
    ensures FromStr("-1", lib) == I64(-1)
  {
    assert "-1"[1..] == "1";
    DigitsValueBound("1");
    ParseThenRenderNegative("-1", lib);
  }

  lemma FromStrFractionExample(lib: Lib)
    ensures FromStr("10.52", lib).F64?
  {
    DecimalFractionIsF64("", "10", "52", lib);
    assert "" + "10" + "." + "52" == "10.52";
  }

  lemma FromStrNegativeFractionExample(lib: Lib)
    ensures FromStr("-4.38", lib).F64?
  {
    DecimalFractionIsF64("-", "4", "38", lib);
    assert "-" + "4" + "." + "38" == "-4.38";
  }

  lemma FromStrWordExample(lib: Lib)
    ensures FromStr("somestr", lib) == String("somestr")
  {
    WordIsNotF64Literal();
  }

  lemma FromStrTrailingLetterExample(lib: Lib)
    ensures FromStr("10.52a", lib) == String("10.52a")
  {
    TrailingLetterIsNotF64Literal();
    assert "10.52a"[2] == '.';
  }

  lemma FromStrEmptyExample(lib: Lib)
    ensures FromStr("", lib) == String("")
  {
  }

  lemma RenderBoolExamples(lib: Lib)
    ensures Render(FromStr("true", lib), lib) == "true"
    ensures Render(FromStr("false", lib), lib) == "false"
    ensures Render(Default(), lib) == "false"
  {
  }

  lemma RenderIntegerExamples(lib: Lib)
    ensures Render(FromStr("24", lib), lib) == "24"
    ensures Render(FromStr("-10", lib), lib) == "-10"
  {
    DigitsValueBound("24");
    ParseThenRenderUnsigned("24", lib);
    assert "-10"[1..] == "10";
    DigitsValueBound("10");
    ParseThenRenderNegative("-10", lib);
  }

  /** Text that is not in canonical form is normalised by the round trip. */
  lemma NonCanonicalIntegerText(lib: Lib)
    ensures FromStr("+5", lib) == U64(5) && Render(FromStr("+5", lib), lib) == "5"
    ensures FromStr("007", lib) == U64(7) && Render(FromStr("007", lib), lib) == "7"
  {
    assert "+5"[1..] == "5";
    assert DigitsValue("5") == 5 by { assert "5"[..0] == []; }
    assert DigitsValue("007") == 7 by {
      assert "007"[..2] == "00" && "00"[..1] == "0" && "0"[..0] == [];
    }
  }

  /**
   * "-0" is refused by the `u64` parser, read as zero by the `i64` parser,
   * and printed back without its sign.
   */
  lemma NegativeZeroText(lib: Lib)
    ensures ParseU64("-0") == None
    ensures FromStr("-0", lib) == I64(0) && Render(FromStr("-0", lib), lib) == "0"
  {
    assert "-0"[1..] == "0";
    assert DigitsValue("0") == 0 by { assert "0"[..0] == []; }
  }

  /** The JSON conversions the crate's unit tests pin down. */
  lemma FromJsonExamples(lib: Lib)
    ensures FromJson(Json.Null, lib) == String("")
    ensures FromJson(Json.Bool(true), lib) == Bool(true)
    ensures FromJson(Json.Bool(false), lib) == Bool(false)
    ensures FromJson(Json.Number(Json.PosInt(0)), lib) == U64(0)
    ensures FromJson(Json.Number(Json.NegInt(-1240)), lib) == I64(-1240)
    ensures FromJson(Json.String("somestr"), lib) == String("somestr")
    ensures FromJson(Json.String("true"), lib) == String("true")
  {
    FromJsonInteger(Json.PosInt(0), lib);
    FromJsonInteger(Json.NegInt(-1240), lib);
  }
}
