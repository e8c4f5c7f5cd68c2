/**
 * `DataPath`: a json-style path that begins and ends with '.', normalised
 * on every construction and on deserialisation.
 */
module DataPaths {
  import opened Wrappers

  datatype DataPath = DataPath(path: string)

  /** The shape every normalised path has: non-empty, with '.' at both ends. */
  predicate IsDotted(s: string) {
    |s| > 0 && s[0] == '.' && s[|s| - 1] == '.'
  }

  /** The path invariant: the stored string is already normalised. */
  predicate Valid(p: DataPath) {
    IsDotted(p.path)
  }

  /** A '.' when one is missing, nothing otherwise. */
  function DotIf(missing: bool): string {
    if missing then "." else ""
  }

  /**
   * `validate_path`. After the empty-input short circuit the first and
   * last characters are read as an iterator does: `next()` gives the first,
   * `last()` the last of what remains, so a one-character input has no last
   * character. The two arms with no first character cannot be reached.
   */
  function ValidatePath(path: string): (r: string)
    ensures IsDotted(r)
    ensures |path| == 0 ==> r == "."
    ensures |path| > 0 ==> r == DotIf(path[0] != '.') + path + DotIf(path[|path| - 1] != '.')
  {
    if |path| == 0 then "."
    else
      var firstChar := if |path| > 0 then Some(path[0]) else None;
      var rest := path[1..];
      var lastChar := if |rest| > 0 then Some(rest[|rest| - 1]) else None;
      match (firstChar, lastChar)
      case (Some(fc), Some(lc)) =>
        if fc != '.' && lc != '.' then "." + path + "."
        else if fc == '.' && lc == '.' then path
        else if fc != '.' then "." + path
        else path + "."
      case (Some(fc), None) =>
        if fc == '.' then path else "." + path + "."
      case (None, None) =>
        assert false; ""
      case (None, Some(_)) =>
        assert false; ""
  }

  /** `DataPath::new`: the stored string is the normalised input. */
  function New(path: string): (p: DataPath)
    ensures Valid(p)
    ensures IsDotted(path) ==> p.path == path
  {
    DataPath(ValidatePath(path))
  }

  /** `From<&str> for DataPath`. */
  function FromStr(path: string): (p: DataPath)
    ensures Valid(p)
  {
    New(path)
  }

  /** `From<String> for DataPath`, the deserialisation path. */
  function FromString(path: string): (p: DataPath)
    ensures Valid(p)
  {
    FromStr(path)
  }

  /** `Display` for `DataPath`, and `From<DataPath> for String`, the serialisation path. */
  function ToString(p: DataPath): (s: string)
    ensures s == p.path
    ensures Valid(p) ==> IsDotted(s)
  {
    p.path
  }

  /** The cases of normalisation, one per combination of the two ends. */
  lemma ValidatePathCases(path: string)
    ensures |path| == 1 && path[0] == '.' ==> ValidatePath(path) == "."
    ensures |path| == 1 && path[0] != '.' ==> ValidatePath(path) == ['.', path[0], '.']
    ensures |path| >= 2 && path[0] == '.' && path[|path| - 1] == '.' ==> ValidatePath(path) == path
    ensures |path| >= 2 && path[0] != '.' && path[|path| - 1] != '.' ==> ValidatePath(path) == "." + path + "."
    ensures |path| >= 2 && path[0] != '.' && path[|path| - 1] == '.' ==> ValidatePath(path) == "." + path
    ensures |path| >= 2 && path[0] == '.' && path[|path| - 1] != '.' ==> ValidatePath(path) == path + "."
  {
  }

  /**
   * The result keeps every character of the input, in place after at most
   * one added '.': interior characters, runs of periods included, are never
   * touched.
   */
  lemma ValidatePathKeepsInput(path: string)
    requires |path| > 0
    ensures var r := ValidatePath(path);
            var k := if path[0] == '.' then 0 else 1;
            |path| <= |r| <= |path| + 2 && r[k..k + |path|] == path
  {
  }

  /** Normalising a normalised path changes nothing. */
  lemma ValidatePathIdempotent(path: string)
    ensures ValidatePath(ValidatePath(path)) == ValidatePath(path)
  {
    var r := ValidatePath(path);
    assert DotIf(r[0] != '.') + r + DotIf(r[|r| - 1] != '.') == r;
  }

  /** The fixed points of normalisation are exactly the dotted strings. */
  lemma ValidatePathFixedPoints(s: string)
    ensures ValidatePath(s) == s <==> IsDotted(s)
  {
    if IsDotted(s) {
      assert DotIf(s[0] != '.') + s + DotIf(s[|s| - 1] != '.') == s;
    }
  }

  /**
   * Normalisation adds as little as possible: any string that extends the
   * input on both sides and begins and ends with '.' is at least as long.
   */
  lemma ValidatePathIsShortest(path: string, before: string, after: string)
    requires IsDotted(before + path + after)
    ensures |ValidatePath(path)| <= |before + path + after|
  {
  }

  /** Serialising a valid path to its string and deserialising it gives the same path. */
  lemma SerdeRoundTrip(p: DataPath)
    requires Valid(p)
    ensures FromString(ToString(p)) == p
  {
    ValidatePathFixedPoints(p.path);
  }

  /** Every path built by `new` survives the serde round trip. */
  lemma SerdeRoundTripOfNew(s: string)
    ensures FromString(ToString(New(s))) == New(s)
  {
    SerdeRoundTrip(New(s));
  }

  /** The two `From` conversions and `new` agree on every input. */
  lemma ConversionsAgree(s: string)
    ensures FromStr(s) == FromString(s) == New(s)
    ensures ToString(FromString(s)) == ValidatePath(s)
  {
  }

  // The normalisation cases the crate's unit tests pin down.

  lemma ValidatePathDegenerateExamples()
    ensures ValidatePath("") == "."
    ensures ValidatePath(".") == "."
    ensures ValidatePath("..") == ".."
    ensures ValidatePath("my") == ".my."
  {
  }

  lemma ValidatePathBothEndsExamples()
    ensures ValidatePath("my.path") == ".my.path."
    ensures ValidatePath(".my.path.") == ".my.path."
  {
  }

  lemma ValidatePathOneEndExamples()
    ensures ValidatePath(".my.path") == ".my.path."
    ensures ValidatePath("my.path.") == ".my.path."
  {
  }

  /**
   * `#[derive(Default)]` as written: the path is the empty string, which is
   * not normalised, and the serde round trip turns it into ".".
   */
  const DerivedDefault: DataPath := DataPath("")

  lemma DerivedDefaultBreaksRoundTrip()
    ensures !Valid(DerivedDefault)
    ensures FromString(ToString(DerivedDefault)) == DataPath(".")
    ensures FromString(ToString(DerivedDefault)) != DerivedDefault
  {
  }

  /** The default path as normalisation would produce it from the empty input. */
  function Default(): (p: DataPath)
    ensures Valid(p)
    ensures FromString(ToString(p)) == p
  {
    New("")
  }
}
