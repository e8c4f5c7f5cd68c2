# redact-data: data model, in Dafny

This project models the data model of the `redact-data` crate. A unit of
data (`Data`) is a value stored at a json-style path, together with the
optional names of the keys that encrypted it. The model covers these parts:

- **`DataPath` normalisation** (`data_path.dfy`, module `DataPaths`). A path
  is stored so that it begins and ends with `.`. `validate_path` adds a `.`
  on each side that lacks one. The empty input becomes `"."`, and every
  other character is left as it is. The model proves:
  - the exact shape of the result, and that the two `panic!` arms cannot be reached;
  - that normalisation is idempotent, and which strings it leaves unchanged;
  - that no shorter dotted extension of the input exists;
  - that a path survives the serde round trip through `String`.
- **`DataValue`** (`data_value.dfy`, module `DataValues`), a scalar enum:
  - type inference from text (`From<&str>`): the first parser in the order
    bool, `u64`, `i64`, `f64` that accepts the text wins, otherwise the
    text is kept as `String`;
  - rendering (`Display`);
  - conversion from a JSON value (`From<Value>`);
  - the serde representation.

  Rust's `str::parse` is modelled exactly for `bool`, `u64` and `i64`
  (`scalars.dfy`, `decimal.dfy`): an optional `+` is accepted, a `-` only
  for `i64`, leading zeros are accepted, and an out-of-range value is an
  error. For `f64`, the model states exactly which texts parse, following
  the grammar documented for `f64::from_str` (Rust 1.55 and later). The
  float value itself is not modelled.

  The model proves these round trips:
  - rendering a `Bool`, `U64` or negative `I64` and parsing the text gives
    the value back;
  - parsing canonical decimal text and rendering it gives the text back.
- **`Data`** (`data.dfy`, module `DataUnits`): `new`, `path`, `encryptedby`,
  `Display` and `Default`.
- **`StorageError` and `CacheError`** (`storage_error.dfy`,
  `cache_error.dfy`): `Error::source` and the fixed `Display` messages. Each
  enum is generic over the wrapped cause, so the cause stays opaque.

Library code outside the crate is passed in as a value of type `Foreign.Lib`
(`json.dfy`). This covers Rust's `f64` parser and formatter, serde_json's
float formatting, and serde_json's serialiser for arrays and objects. No
result about those parts depends on what these functions do.
`serde_json::Value` and its `Number` are modelled as datatypes in
`JsonValues`.

The serde attributes on `DataValue` mean that a value does not keep its
variant through a serialisation round trip, and the derived defaults of
`DataPath` and `Data` hold a path that is not normalised (see Findings).

## Model

| member | source | states |
|---|---|---|
| `DataPaths.ValidatePath` | src/data.rs:142-198 | the result is non-empty and begins and ends with '.'; the empty input gives "."; otherwise it is the input with a '.' added in front exactly when the first char is not '.', and at the back exactly when the last char is not '.'; the two panic arms are proved unreachable |
| `DataPaths.ValidatePathCases` | src/data.rs:154-174 | the six outcomes: lone "." kept; lone other char c gives ".c."; for length >= 2, both ends dotted kept, neither dotted wrapped, only first missing prefixed, only last missing suffixed |
| `DataPaths.ValidatePathKeepsInput` | src/data.rs:133-141 | the input appears verbatim inside the result, right after the added leading '.' if there is one, and the result is at most two chars longer; runs of periods are never collapsed |
| `DataPaths.ValidatePathIdempotent` | src/data.rs:116-119 | normalising a normalised path returns it unchanged |
| `DataPaths.ValidatePathFixedPoints` | src/data.rs:116-119 | a string is left unchanged by normalisation exactly when it is non-empty and begins and ends with '.' |
| `DataPaths.ValidatePathIsShortest` | src/data.rs:133-136 | any string that extends the input on both sides and begins and ends with '.' is at least as long as the normalised path |
| `DataPaths.New` | src/data.rs:127-131 | the stored path is normalised, and an input that is already dotted is stored verbatim |
| `DataPaths.FromStr` | src/data.rs:207-211 | the path built from a `&str` is normalised |
| `DataPaths.FromString` | src/data.rs:213-219 | the path built from a `String` (the deserialisation path) is normalised |
| `DataPaths.ToString` | src/data.rs:221-225 | the string of a path (also its `Display`) is the stored path unchanged, and for a valid path it begins and ends with '.' |
| `DataPaths.ConversionsAgree` | src/data.rs:207-219 | `From<&str>`, `From<String>` and `new` give the same path, whose string is the normalised input |
| `DataPaths.SerdeRoundTrip` | src/data.rs:120-124 | converting a valid path to `String` and back yields an equal path |
| `DataPaths.SerdeRoundTripOfNew` | src/data.rs:213-225 | every path built by `new` survives the `String` round trip |
| `DataPaths.ValidatePathDegenerateExamples` | src/data.rs:505-527 | "" gives ".", "." stays ".", ".." stays "..", "my" gives ".my." |
| `DataPaths.ValidatePathBothEndsExamples` | src/data.rs:481-503 | "my.path" gives ".my.path." and ".my.path." is unchanged |
| `DataPaths.ValidatePathOneEndExamples` | src/data.rs:487-497 | ".my.path" and "my.path." both give ".my.path." |
| `DataPaths.DerivedDefaultBreaksRoundTrip` | src/data.rs:120-124 | the derived default path "" is not normalised, and its `String` round trip yields "." instead |
| `DataPaths.Default` | src/data.rs:120 | the corrected default path is normalised and survives the `String` round trip |
| `Decimal.NatToDigits` | src/data.rs:108 | the decimal text of an unsigned integer is a non-empty digit string with no leading zero, and starts with '0' exactly for 0 |
| `Decimal.IntToDecimal` | src/data.rs:109 | the decimal text of a signed integer starts with '-' exactly when it is negative, followed by the digits of its magnitude |
| `Decimal.DigitsValueOfNatToDigits` | src/data.rs:108 | reading back the printed digits of n gives n |
| `Decimal.NatToDigitsOfCanonical` | src/data.rs:108 | printing the value of a digit string with no leading zero gives the same string |
| `Scalars.ParseBool` | src/data.rs:78 | `parse::<bool>` succeeds exactly on "true" and "false", and gives true exactly on "true" |
| `Scalars.ParseU64` | src/data.rs:80 | `parse::<u64>` succeeds exactly on an optional '+' followed by a non-empty run of digits whose value is at most u64::MAX (leading zeros allowed), never on text starting with '-', and yields the value of those digits |
| `Scalars.ParseI64` | src/data.rs:82 | `parse::<i64>` succeeds exactly on an optional sign followed by a non-empty run of digits whose signed value lies in i64::MIN..=i64::MAX, and yields that value, negated after '-' |
| `Scalars.ParseI64OfDecimal` | src/data.rs:82 | the printed text of any i64 parses back as that i64 |
| `Scalars.ParseU64OfDigits` | src/data.rs:80 | the printed digits of any u64 parse back as that u64 |
| `Scalars.ParseI64OfNegative` | src/data.rs:82 | the printed text of any negative i64 parses back as that i64 |
| `Scalars.NegativeIsNotU64` | src/data.rs:80 | text starting with '-' never parses as a u64 |
| `Scalars.IsF64Literal` | src/data.rs:84 | which texts `parse::<f64>` accepts: an optional sign, then "inf", "infinity" or "nan" in any case, or a mantissa with an optional exponent; the empty text, a lone sign and a lone '.' are refused |
| `Scalars.DigitsAreF64Literal` | src/data.rs:84 | every non-empty digit string parses as an f64, however large |
| `Scalars.DecimalFractionIsF64Literal` | src/data.rs:84 | digits, a point and digits (at least one digit), optionally signed, parse as an f64 |
| `Scalars.TrailingLetterIsNotF64Literal` | src/data.rs:368-375 | "10.52a" does not parse as an f64 |
| `Scalars.WordIsNotF64Literal` | src/data.rs:359-366 | "somestr" does not parse as an f64 |
| `DataValues.FromStr` | src/data.rs:76-90 | inference gives `Bool` exactly for "true"/"false", and a `String` result always holds the input verbatim |
| `DataValues.FromStrCascade` | src/data.rs:76-90 | each variant is chosen exactly when its parser accepts the text and every earlier parser (bool, u64, i64, f64) refuses it, carrying the parsed value |
| `DataValues.FromJson` | src/data.rs:92-102 | null gives `String("")`, a JSON bool gives `Bool` of it, a JSON string is kept verbatim as `String` with no inference, arrays and objects give `String` of their serde_json text |
| `DataValues.Default` | src/data.rs:64-68 | the default value is the bool `false` |
| `DataValues.Render` | src/data.rs:104-114 | a `Bool`, `U64` or `I64` renders as text that the parser of its own type reads back as the same value, an `I64` starts with '-' exactly when negative, and a `String` is written verbatim |
| `DataValues.NumberText` | src/data.rs:97 | a serde_json integer prints as text that the `u64` (non-negative) or `i64` (negative) parser reads back as the same number |
| `DataValues.RenderThenParse` | src/data.rs:76-114 | rendering a `Bool`, `U64` or negative `I64` and inferring from the text gives the value back; a non-negative `I64` comes back as the `U64` of the same number |
| `DataValues.ParseThenRenderUnsigned` | src/data.rs:76-114 | canonical decimal text up to u64::MAX is inferred as `U64` of its value and renders back to the same text |
| `DataValues.ParseThenRenderNegative` | src/data.rs:76-114 | "-" followed by canonical nonzero digits within i64 range is inferred as `I64` of the negated value and renders back to the same text |
| `DataValues.NonCanonicalIntegerText` | src/data.rs:80-81 | "+5" and "007" are inferred as `U64` 5 and 7 and render as "5" and "7", so the text round trip normalises them |
| `DataValues.NegativeZeroText` | src/data.rs:80-83 | "-0" is refused as a u64, inferred as `I64(0)`, and renders as "0" |
| `DataValues.DecimalFractionIsF64` | src/data.rs:84-85 | digits, a point and digits, optionally signed, are inferred as `F64` |
| `DataValues.OverflowingIntegerIsF64` | src/data.rs:80-85 | a digit string above u64::MAX is not an error: both integer parsers refuse it and it is inferred as `F64` |
| `DataValues.FromJsonInteger` | src/data.rs:97 | a serde_json non-negative integer becomes `U64` of it and a negative one `I64` of it |
| `DataValues.Serialize` | src/data.rs:54-74 | a `DataValue` is serialised as a JSON string (its display text) |
| `DataValues.Deserialize` | src/data.rs:55 | deserialisation goes through `From<Value>`: a JSON string is kept verbatim as `String` and a JSON bool becomes `Bool` |
| `DataValues.SerdeRoundTripAsWritten` | src/data.rs:54-102 | serialising then deserialising any value yields `String` of its display text, so a `U64` never comes back as itself |
| `DataValues.SerdeRoundTripLosesDefault` | src/data.rs:54-68 | the default `Bool(false)` comes back from serde as `String("false")` |
| `DataValues.SerializeTyped` | src/data.rs:92-102 | the corrected serialisation maps strings and only strings to JSON strings, and integers to well-formed JSON numbers |
| `DataValues.SerdeRoundTripTyped` | src/data.rs:92-102 | with the corrected serialisation, every `Bool`, `U64`, negative `I64` and `String` survives the round trip; a non-negative `I64` comes back as the `U64` of the same number |
| `DataValues.FromStrBoolExamples` | src/data.rs:290-306 | "true" and "false" give `Bool(true)` and `Bool(false)` |
| `DataValues.FromStrUnsignedExamples` | src/data.rs:308-324 | "0" and "100" give `U64(0)` and `U64(100)` |
| `DataValues.FromStrNegativeExample` | src/data.rs:326-333 | "-1" gives `I64(-1)` |
| `DataValues.FromStrFractionExample` | src/data.rs:335-345 | "10.52" gives an `F64` |
| `DataValues.FromStrNegativeFractionExample` | src/data.rs:347-357 | "-4.38" gives an `F64` |
| `DataValues.FromStrWordExample` | src/data.rs:359-366 | "somestr" gives `String("somestr")` |
| `DataValues.FromStrTrailingLetterExample` | src/data.rs:368-375 | "10.52a" gives `String("10.52a")` |
| `DataValues.FromStrEmptyExample` | src/data.rs:377-384 | "" gives `String("")` |
| `DataValues.RenderBoolExamples` | src/data.rs:234-288 | "true" and "false" render back unchanged, and the default value renders as "false" |
| `DataValues.RenderIntegerExamples` | src/data.rs:259-269 | "24" and "-10" render back unchanged |
| `DataValues.FromJsonExamples` | src/data.rs:386-456 | null gives `String("")`; JSON true/false give `Bool`; JSON 0 gives `U64(0)`; JSON -1240 gives `I64(-1240)`; JSON strings "somestr" and "true" stay `String` |
| `DataUnits.New` | src/data.rs:25-33 | the stored path is normalised, and value and key names are stored as given |
| `DataUnits.Path` | src/data.rs:36-38 | `path()` of a unit with a valid path is its stored path string, begins and ends with '.', and converting it back gives the same path |
| `DataUnits.EncryptedBy` | src/data.rs:41-43 | `encryptedby()` returns the stored key names unchanged |
| `DataUnits.Display` | src/data.rs:46-50 | a unit displays as its value's display, so a `String` value is written verbatim |
| `DataUnits.NewPath` | src/data.rs:27-43 | `path()` of a new unit is the normalised input path, begins and ends with '.', equals an already dotted input, and `encryptedby()` returns the given key names |
| `DataUnits.NewIsIdempotent` | src/data.rs:27-38 | rebuilding a unit from its own path, value and keys gives an equal unit |
| `DataUnits.DisplayDependsOnlyOnValue` | src/data.rs:46-50 | two units with the same value display alike, whatever their paths and keys |
| `DataUnits.DisplayOfDefaultValue` | src/data.rs:46-68 | a unit holding the default value displays as "false" |
| `DataUnits.Default` | src/data.rs:17-23 | as written, the derived default unit has the path "" (not normalised), value `Bool(false)` and no key names |
| `DataUnits.DefaultIsNotNew` | src/data.rs:17-33 | no call of `new` produces the derived default unit, nor its path |
| `DataUnits.NormalisedDefault` | src/data.rs:17-23 | the corrected default unit has the normalised path "." and is exactly what `new` builds from "", the default value and no key names |
| `StorageErrors.Source` | src/storage/error.rs:18-25 | `source()` returns a cause exactly for `InternalError`, and it is the wrapped cause itself; `NotFound` has none |
| `StorageErrors.Display` | src/storage/error.rs:27-38 | `InternalError` renders as "Internal error occurred" and `NotFound` as "Data not found" |
| `StorageErrors.DisplayIgnoresCause` | src/storage/error.rs:29-31 | two internal errors render alike whatever causes they wrap |
| `StorageErrors.DisplayDecidesSource` | src/storage/error.rs:18-38 | the message is "Data not found" exactly when there is no source, and "Internal error occurred" exactly when there is one |
| `StorageErrors.DisplayExamples` | src/storage/error.rs:44-57 | an internal error wrapping `NotFound` renders "Internal error occurred", and `NotFound` renders "Data not found" |
| `CacheErrors.Source` | src/cache/error.rs:17-24 | `source()` returns a cause exactly for `InternalError`, and it is the wrapped cause itself; `NotFound` has none |
| `CacheErrors.Display` | src/cache/error.rs:26-37 | `InternalError` renders as "Internal error occurred" and `NotFound` as "Cache entry not found" |
| `CacheErrors.DisplayIgnoresCause` | src/cache/error.rs:28-31 | two internal errors render alike whatever causes they wrap |
| `CacheErrors.DisplayDecidesSource` | src/cache/error.rs:17-37 | the message is "Cache entry not found" exactly when there is no source, and "Internal error occurred" exactly when there is one |
| `CacheErrors.DisplayExamples` | src/cache/error.rs:43-56 | an internal error wrapping `NotFound` renders "Internal error occurred", and `NotFound` renders "Cache entry not found" |

## Left out

- `DataValues.FromStrFractionExample`, `DataValues.FromStrNegativeFractionExample`, `DataValues.DecimalFractionIsF64` and `DataValues.OverflowingIntegerIsF64` state only that the variant is `F64`, not the float value. Float parsing is library code, passed in as `Lib.parseF64`.
- The float rendering tests (src/data.rs:271-275) and the JSON float tests (src/data.rs:431-447) depend on Rust's and serde_json's float formatting, which is not modelled.
- An `F64` payload is a 64-bit pattern. Equality on it is bit equality, not IEEE equality (NaN, signed zero).
- serde_json's serialisation of arrays and objects (src/data.rs:99, tests at src/data.rs:458-474) is the parameter `Lib.jsonToString`. The model states that the result is `String` of that text, not what the text is.
- The derived `Serialize`/`Deserialize` of the whole `Data` record is not modelled. This includes `#[serde(default)]` on its value. Only the serde forms of `DataPath` and `DataValue` are.
- `DataCollection` is only a type. The crate gives it no operations.
- `Error::source` returns a borrowed trait object in Rust. The model returns the cause value itself.
- `Debug`, `Clone` and `PartialEq` derives are Dafny's value semantics.
- The storage trait (src/storage.rs) is only a signature, and its error type differs from the one its adapters return. The fetch-cache trait (src/cache.rs) declares `set` twice and uses undefined error types. Neither has logic to model.
- The MongoDB, redact-store and Redis adapters (src/storage/mongodb.rs, src/storage/redact.rs, src/cache/redis.rs) are network I/O, and are not part of this model.
- Async execution, `Send + Sync` bounds and `Arc` pass-through are not modelled.
- Strings are sequences of Unicode scalar values, as Rust's `chars()` yields them. Byte lengths are not modelled.

## Findings

| source | as written | input that shows it | evidently intended | confidence | as-written member | corrected member |
|---|---|---|---|---|---|---|
| src/data.rs:54-55 | `DataValue` is serialised into its display string but deserialised through `From<Value>`, which keeps a JSON string as `String` without inference | `U64(5)` serialises to the JSON string "5" and deserialises to `String("5")`; `Bool(false)` comes back as `String("false")` | serialise each scalar as the JSON value of its own kind, which `From<Value>` already tells apart, so that the variant survives | medium, not executed | `DataValues.SerdeRoundTripAsWritten` | `DataValues.SerdeRoundTripTyped` |
| src/data.rs:120-124 | the derived `Default` for `DataPath` stores the empty string, bypassing `validate_path` | `DataPath::default()` holds "", and its `String` round trip gives "." | a default path normalised like every other path, i.e. "." | low, not executed | `DataPaths.DerivedDefaultBreaksRoundTrip` | `DataPaths.Default` |
| src/data.rs:17-23 | the derived `Default` for `Data` takes the derived `DataPath` default, so its path is "" | `Data::default().path()` returns "", which `Data::new` never produces | a default unit whose path is normalised, i.e. "." | low, not executed | `DataUnits.Default` | `DataUnits.NormalisedDefault` |
