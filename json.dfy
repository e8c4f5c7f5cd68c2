/** The shape of `serde_json::Value`, the input of `DataValue`'s `From<Value>`. */
module JsonValues {
  import opened Scalars

  /**
   * `serde_json::Number`: a non-negative integer is held as `PosInt`, a
   * negative one as `NegInt`, anything else as a finite `Float`.
   */
  datatype Number = PosInt(u: u64) | NegInt(i: i64) | Float(x: Binary64)

  datatype Value =
    | Null
    | Bool(b: bool)
    | Number(n: Number)
    | String(s: string)
    | Array(items: seq<Value>)
    | Object(entries: seq<(string, Value)>)

  /** The representation invariant serde_json keeps for its numbers. */
  predicate WellFormedNumber(n: Number) {
    n.NegInt? ==> n.i < 0
  }
}

/**
 * Behaviour of library code outside this crate, passed in as a value:
 * Rust's `f64` parser and `Display`, serde_json's number formatting for
 * floats, and serde_json's compact serialiser for whole values.
 */
module Foreign {
  import opened Scalars
  import JsonValues

  datatype Lib = Lib(
    parseF64: string -> Binary64,
    displayF64: Binary64 -> string,
    displayJsonFloat: Binary64 -> string,
    jsonToString: JsonValues.Value -> string)
}
