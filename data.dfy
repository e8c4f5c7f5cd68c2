/**
 * `Data`: one unit of data, a normalised path, one value and the optional
 * names of the keys that encrypted it; and `DataCollection`, a page of them.
 */
module DataUnits {
  import opened Wrappers
  import DataPaths
  import DataValues
  import opened Foreign

  datatype Data = Data(
    path: DataPaths.DataPath,
    value: DataValues.DataValue,
    encryptedBy: Option<seq<string>>)

  datatype DataCollection = DataCollection(data: seq<Data>)

  /** `Data::new`: the path is normalised; value and key names are stored as given. */
  function New(path: string, value: DataValues.DataValue, encryptedBy: Option<seq<string>>): (d: Data)
    ensures DataPaths.Valid(d.path)
    ensures d.value == value && d.encryptedBy == encryptedBy
  {
    Data(DataPaths.FromStr(path), value, encryptedBy)
  }

  /** `Data::path`: the stored path as a string. */
  function Path(d: Data): (s: string)
    ensures DataPaths.Valid(d.path) ==> DataPaths.IsDotted(s)
    ensures DataPaths.Valid(d.path) ==> s == d.path.path && DataPaths.FromString(s) == d.path
  {
    if DataPaths.Valid(d.path) then
      DataPaths.SerdeRoundTrip(d.path);
      DataPaths.ToString(d.path)
    else
      DataPaths.ToString(d.path)
  }

  /** `Data::encryptedby`: the optional list of key names. */
  function EncryptedBy(d: Data): (keys: Option<seq<string>>)
    ensures keys == d.encryptedBy
  {
    d.encryptedBy
  }

  /** `Display` for `Data`: the rendering of its value; path and keys are not shown. */
  function Display(d: Data, lib: Lib): (s: string)
    ensures s == DataValues.Render(d.value, lib)
    ensures d.value.String? ==> s == d.value.s
  {
    DataValues.Render(d.value, lib)
  }

  /** `path()` of a new unit returns the normalised input path, which begins and ends with '.'. */
  lemma NewPath(path: string, value: DataValues.DataValue, encryptedBy: Option<seq<string>>)
    ensures Path(New(path, value, encryptedBy)) == DataPaths.ValidatePath(path)
    ensures DataPaths.IsDotted(Path(New(path, value, encryptedBy)))
    ensures DataPaths.IsDotted(path) ==> Path(New(path, value, encryptedBy)) == path
    ensures EncryptedBy(New(path, value, encryptedBy)) == encryptedBy
  {
  }

  /** Building a unit from an already normalised path gives back the same unit. */
  lemma NewIsIdempotent(path: string, value: DataValues.DataValue, encryptedBy: Option<seq<string>>)
    ensures var d := New(path, value, encryptedBy);
            New(Path(d), d.value, EncryptedBy(d)) == d
  {
    DataPaths.ValidatePathIdempotent(path);
  }

  /** Two units with the same value display the same, whatever their paths and keys. */
  lemma DisplayDependsOnlyOnValue(d1: Data, d2: Data, lib: Lib)
    requires d1.value == d2.value
    ensures Display(d1, lib) == Display(d2, lib)
  {
  }

  /** A unit built with the default value displays as "false". */
  lemma DisplayOfDefaultValue(path: string, encryptedBy: Option<seq<string>>, lib: Lib)
    ensures Display(New(path, DataValues.Default(), encryptedBy), lib) == "false"
  {
  }

  /**
   * `#[derive(Default)]` for `Data` as written: it takes the derived default
   * of `DataPath`, so `path()` is the empty string, which no `new` produces.
   */
  function Default(): (d: Data)
    ensures Path(d) == "" && !DataPaths.Valid(d.path)
    ensures d.value == DataValues.Bool(false) && d.encryptedBy == None
  {
    Data(DataPaths.DerivedDefault, DataValues.Default(), None)
  }

  /** The derived default unit cannot be built with `new`, whatever the arguments. */
  lemma DefaultIsNotNew(path: string, value: DataValues.DataValue, encryptedBy: Option<seq<string>>)
    ensures New(path, value, encryptedBy) != Default()
    ensures Path(New(path, value, encryptedBy)) != Path(Default())
  {
  }

  /**
   * The default unit with the normalised default path: it is what `new`
   * builds from the empty path, the default value and no key names.
   */
  function NormalisedDefault(): (d: Data)
    ensures DataPaths.Valid(d.path) && Path(d) == "."
    ensures d == New("", DataValues.Default(), None)
  {
    Data(DataPaths.Default(), DataValues.Default(), None)
  }
}
