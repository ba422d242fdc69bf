/**
 * The errors the parsers raise, as kinds carrying the key path (and, for an
 * element of an array, its index) instead of message text.
 */
module Errors {
  import opened Wrappers
  import opened Values
  import Paths
  import Decimal

  /** What an assertion was checking: the `what` word of its message. */
  datatype Role = TypeRole | KeyTypeRole | ValueTypeRole

  datatype ConfigError =
      /** TypeError from `assert_type` (index None) or `assert_indexed_type` (index Some). */
    | InvalidType(what: Role, path: seq<string>, index: Option<nat>, expected: seq<PyType>, got: PyType)
      /** TypeError for a `source_suffix` that is not a string, sequence or mapping. */
    | InvalidSourceSuffix(path: seq<string>, got: PyType)
      /** BadConfigError: the name of entry `entry` of `project.<keyName>` contains a comma. */
    | CommaInName(keyName: string, entry: nat)
      /** KeyError: a handler was given a table without its key. */
    | MissingKey(key: string)
      /** TypeError: a value of this type was iterated over. */
    | NotIterable(got: PyType)
      /** AttributeError: `.get` was called on a value of this type. */
    | NoGetMethod(got: PyType)
      /** TypeError: `in` was applied to a value of this type. */
    | NotAContainer(got: PyType)

  /** The quoted name an error message cites, when the error cites one. */
  function Subject(e: ConfigError): (r: Option<string>)
    ensures r.Some? <==> e.InvalidType? || e.InvalidSourceSuffix? || e.CommaInName?
    ensures (e.InvalidType? && e.index.None?) || e.InvalidSourceSuffix? ==> r == Some(Paths.ConstructPath(e.path))
    ensures e.InvalidType? && e.index.Some? ==>
      var p := Paths.ConstructPath(e.path);
      |r.value| > |p| + 1 && r.value[..|p|] == p && r.value[|p|] == '[' && r.value[|r.value| - 1] == ']'
      && Decimal.IsDigits(r.value[|p| + 1..|r.value| - 1])
      && Decimal.IsCanonicalDigits(r.value[|p| + 1..|r.value| - 1])
      && Decimal.DigitsValue(r.value[|p| + 1..|r.value| - 1]) == e.index.value
    ensures e.CommaInName? ==>
      r.value == "project." + e.keyName + "[" + Decimal.NatToString(e.entry) + "].name"
      && Decimal.DigitsValue(Decimal.NatToString(e.entry)) == e.entry
  {
    match e
    case InvalidType(_, path, None, _, _) => Some(Paths.ConstructPath(path))
    case InvalidType(_, path, Some(i), _, _) =>
      var p, d := Paths.ConstructPath(path), Decimal.NatToString(i);
      var name := p + "[" + d + "]";
      assert name[|p| + 1..|name| - 1] == d;
      Decimal.NatToStringRoundTrip(i);
      Some(name)
    case InvalidSourceSuffix(path, _) => Some(Paths.ConstructPath(path))
    case CommaInName(keyName, i) =>
      Decimal.NatToStringRoundTrip(i);
      Some("project." + keyName + "[" + Decimal.NatToString(i) + "].name")
    case _ => None
  }

  /** The name a type error cites for a path of bare keys splits back into that path. */
  lemma SubjectNamesPath(e: ConfigError)
    requires e.InvalidType? && e.index.None? && |e.path| > 0
    requires forall i :: 0 <= i < |e.path| ==> Paths.IsBareKey(e.path[i])
    ensures Subject(e).Some? && Paths.Split(Subject(e).value) == e.path
  {
    Paths.ConstructPathRoundTrip(e.path);
  }
}
