/**
 * `SphinxPyprojectParser`: the documentation-tool settings.  Each handled key
 * is checked as a string, a boolean or a list of strings, except
 * `source_suffix`, which accepts several shapes; `source_parsers`,
 * `html_theme_options` and `html_context` have no handler and pass through.
 */
module SettingsParser {
  import opened Wrappers
  import opened Values
  import opened Errors
  import opened ConfigParser

  /** `_base_path`: the path prefix of every error this parser reports. */
  const BasePath: seq<string> := ["tool", "sphinx-pyproject"]

  /** `_parse_string`: the value unchanged when it is a string. */
  function ParseString(config: Config, name: string): (r: Result<Value, ConfigError>)
    ensures name !in config ==> r == Failure(MissingKey(name))
    ensures name in config && config[name].Str? ==> r == Success(config[name])
    ensures name in config && !config[name].Str? ==>
      r == Failure(InvalidType(TypeRole, BasePath + [name], None, [StrType], TypeOf(config[name])))
  {
    if name !in config then Failure(MissingKey(name))
    else
      var data := config[name];
      IsInstanceStr(data);
      match AssertType(data, [StrType], BasePath + [name], TypeRole)
      case Fail(e) => Failure(e)
      case Pass => Success(data)
  }

  /** `_parse_bool`: the value unchanged when it is a boolean. */
  function ParseBool(config: Config, name: string): (r: Result<Value, ConfigError>)
    ensures name !in config ==> r == Failure(MissingKey(name))
    ensures name in config && config[name].Bool? ==> r == Success(config[name])
    ensures name in config && !config[name].Bool? ==>
      r == Failure(InvalidType(TypeRole, BasePath + [name], None, [BoolType], TypeOf(config[name])))
  {
    if name !in config then Failure(MissingKey(name))
    else
      var data := config[name];
      IsInstanceBool(data);
      match AssertType(data, [BoolType], BasePath + [name], TypeRole)
      case Fail(e) => Failure(e)
      case Pass => Success(data)
  }

  /** The lowest index from `from` on whose element is not a string. */
  function FirstNonString(xs: seq<Value>, from: nat): (r: Option<nat>)
    requires from <= |xs|
    ensures r.None? <==> forall j :: from <= j < |xs| ==> xs[j].Str?
    ensures r.Some? ==>
      && from <= r.value < |xs| && !xs[r.value].Str?
      && forall j :: from <= j < r.value ==> xs[j].Str?
    decreases |xs| - from
  {
    if from == |xs| then None
    else if !xs[from].Str? then Some(from)
    else FirstNonString(xs, from + 1)
  }

  /**
   * The specification of `_parse_list_of_string`: an array is returned
   * unchanged when all its elements are strings, and otherwise rejected at the
   * lowest offending index.  The container itself is not checked: a string
   * (iterated character by character) or a table (iterated over its keys)
   * passes unchanged, and any other value cannot be iterated.
   */
  function ListOfString(config: Config, name: string): (r: Result<Value, ConfigError>)
    ensures name !in config ==> r == Failure(MissingKey(name))
    ensures name in config && config[name].Array? ==> var xs := config[name].items;
      && (r.Success? <==> forall j :: 0 <= j < |xs| ==> xs[j].Str?)
      && (r.Success? ==> r.value == config[name])
      && (r.Failure? ==>
            exists i :: 0 <= i < |xs| && !xs[i].Str? && (forall j :: 0 <= j < i ==> xs[j].Str?) &&
              r.error == InvalidType(TypeRole, BasePath + [name], Some(i), [StrType], TypeOf(xs[i])))
    ensures name in config && (config[name].Str? || config[name].Table?) ==> r == Success(config[name])
    ensures name in config && !(config[name].Array? || config[name].Str? || config[name].Table?) ==>
      r == Failure(NotIterable(TypeOf(config[name])))
  {
    if name !in config then Failure(MissingKey(name))
    else
      match config[name]
      case Array(xs) =>
        (match FirstNonString(xs, 0)
         case None => Success(config[name])
         case Some(i) => Failure(InvalidType(TypeRole, BasePath + [name], Some(i), [StrType], TypeOf(xs[i]))))
      case Str(_) => Success(config[name])
      case Table(_) => Success(config[name])
      case _ => Failure(NotIterable(TypeOf(config[name])))
  }

  /** `_parse_list_of_string`, the checking loop as the source runs it. */
  method ParseListOfString(config: Config, name: string) returns (r: Result<Value, ConfigError>)
    ensures r == ListOfString(config, name)
  {
    if name !in config {
      return Failure(MissingKey(name));
    }
    var data := config[name];
    match data {
      case Array(xs) =>
        for idx := 0 to |xs|
          invariant forall j :: 0 <= j < idx ==> xs[j].Str?
        {
          IsInstanceStr(xs[idx]);
          var check := AssertIndexedType(xs[idx], [StrType], BasePath + [name], idx);
          if check.Fail? {
            return Failure(check.error);
          }
        }
        return Success(data);
      case Str(_) =>
        return Success(data);
      case Table(_) =>
        return Success(data);
      case _ =>
        return Failure(NotIterable(TypeOf(data)));
    }
  }

  /**
   * `parse_source_suffix`: a string becomes a one-element list, a mapping an
   * equal dict, any other iterable a list of the same elements in order;
   * anything else is rejected.
   */
  function ParseSourceSuffix(config: Config): (r: Result<Value, ConfigError>)
    ensures "source_suffix" !in config ==> r == Failure(MissingKey("source_suffix"))
    ensures "source_suffix" in config ==> var v := config["source_suffix"];
      && (v.Str? ==> r == Success(Array([v])))
      && (v.Table? ==> r == Success(Table(v.entries)))
      && (v.Array? ==> r == Success(Array(v.items)))
      && (!(v.Str? || v.Table? || v.Array?) ==>
            r == Failure(InvalidSourceSuffix(BasePath + ["source_suffix"], TypeOf(v))))
  {
    if "source_suffix" !in config then Failure(MissingKey("source_suffix"))
    else
      match config["source_suffix"]
      case Str(s) => Success(Array([Str(s)]))
      case Table(m) => Success(Table(m))
      case Array(xs) => Success(Array(xs))
      case other => Failure(InvalidSourceSuffix(BasePath + ["source_suffix"], TypeOf(other)))
  }

  /** Parsing the result of `parse_source_suffix` again gives it back. */
  lemma SourceSuffixIdempotent(config: Config)
    requires ParseSourceSuffix(config).Success?
    ensures var r := ParseSourceSuffix(config).value;
      (r.Array? || r.Table?) && ParseSourceSuffix(map["source_suffix" := r]) == Success(r)
  {
  }

  /** `SphinxPyprojectParser.keys`. */
  const Keys: seq<string> := [
    "extensions",
    "source_suffix",
    "source_encoding",
    "source_parsers",
    "master_doc",
    "exclude_patterns",
    "templates_path",
    "manpages_url",
    "nitpicky",
    "pygments_style",
    "add_function_parentheses",
    "add_module_names",
    "show_authors",
    "trim_footnote_reference_space",
    "trim_doctest_flags",
    "strip_signature_backslash",
    "language",
    "html_theme",
    "html_theme_options",
    "html_logo",
    "html_static_path",
    "html_show_sourcelink",
    "html_context"
  ]

  /** The check a `parse_<key>` method applies to its key. */
  datatype Check = StringCheck | BoolCheck | ListOfStringCheck | SourceSuffixCheck

  /**
   * The `parse_<key>` methods: each handled key with the check it applies.
   * Every method passes its own key name to the shared helper.
   */
  const Checks: map<string, Check> := map[
    "extensions" := ListOfStringCheck,
    "source_suffix" := SourceSuffixCheck,
    "source_encoding" := StringCheck,
    "master_doc" := StringCheck,
    "exclude_patterns" := ListOfStringCheck,
    "templates_path" := ListOfStringCheck,
    "manpages_url" := StringCheck,
    "nitpicky" := BoolCheck,
    "pygments_style" := StringCheck,
    "add_function_parentheses" := BoolCheck,
    "add_module_names" := BoolCheck,
    "show_authors" := BoolCheck,
    "trim_footnote_reference_space" := BoolCheck,
    "trim_doctest_flags" := BoolCheck,
    "strip_signature_backslash" := BoolCheck,
    "language" := StringCheck,
    "html_theme" := StringCheck,
    "html_logo" := StringCheck,
    "html_static_path" := ListOfStringCheck,
    "html_show_sourcelink" := BoolCheck
  ]

  /** `parse_<key>(config)` for a key whose method applies `check`. */
  function RunCheck(check: Check, key: string, config: Config): Result<Value, ConfigError> {
    match check
    case StringCheck => ParseString(config, key)
    case BoolCheck => ParseBool(config, key)
    case ListOfStringCheck => ListOfString(config, key)
    case SourceSuffixCheck => ParseSourceSuffix(config)
  }

  /** The handler table of the generic parser. */
  function Handlers(): map<string, Handler> {
    map k | k in Checks :: (c: Config) => RunCheck(Checks[k], k, c)
  }

  function SettingsSchema(): Schema {
    Schema(Keys, Handlers())
  }

  /** The keys checked as strings, booleans and lists of strings. */
  const StringKeys: set<string> :=
    {"source_encoding", "master_doc", "manpages_url", "pygments_style", "language", "html_theme", "html_logo"}
  const BoolKeys: set<string> :=
    {"nitpicky", "add_function_parentheses", "add_module_names", "show_authors",
     "trim_footnote_reference_space", "trim_doctest_flags", "strip_signature_backslash", "html_show_sourcelink"}
  const ListKeys: set<string> := {"extensions", "exclude_patterns", "templates_path", "html_static_path"}
  /** The keys with no handler. */
  const PassthroughKeys: set<string> := {"source_parsers", "html_theme_options", "html_context"}

  /** A handled key runs its own check under its own name. */
  lemma HandlerRunsCheck(k: string, c: Config)
    requires k in Checks
    ensures k in Handlers() && Handlers()[k](c) == RunCheck(Checks[k], k, c)
  {
  }

  /** The table checks exactly the string keys as strings. */
  lemma StringKeysChecked()
    ensures forall k :: k in StringKeys <==> k in Checks && Checks[k] == StringCheck
  {
  }

  /** The table checks exactly the boolean keys as booleans. */
  lemma BoolKeysChecked()
    ensures forall k :: k in BoolKeys <==> k in Checks && Checks[k] == BoolCheck
  {
  }

  /** The table checks exactly the list keys as lists of strings. */
  lemma ListKeysChecked()
    ensures forall k :: k in ListKeys <==> k in Checks && Checks[k] == ListOfStringCheck
  {
  }

  /** The keys with no handler are exactly the keys of `keys` missing from the table. */
  lemma PassthroughKeysUnhandled()
    ensures forall k :: k in PassthroughKeys <==> k in Keys && k !in Handlers()
  {
  }

  /** No key is listed twice. */
  lemma KeysDistinct()
    ensures Distinct(Keys)
  {
  }

  /** Whether the settings parser accepts `v` under the key `k`: the shape its check demands. */
  predicate Accepted(k: string, v: Value) {
    if k !in Checks then true
    else match Checks[k]
      case StringCheck => v.Str?
      case BoolCheck => v.Bool?
      case ListOfStringCheck => (v.Array? && forall j :: 0 <= j < |v.items| ==> v.items[j].Str?) || v.Str? || v.Table?
      case SourceSuffixCheck => v.Str? || v.Array? || v.Table?
  }

  /** The value stored for an accepted setting. */
  function SettingValue(k: string, v: Value): Value {
    if k == "source_suffix" && v.Str? then Array([v]) else v
  }

  /** The handled keys are exactly the keys of the check table. */
  lemma HandlersDomain()
    ensures forall k :: k in Handlers() <==> k in Checks
  {
  }

  /** One present key: its handler succeeds exactly on accepted values and stores `SettingValue`. */
  lemma SettingParsedAs(k: string, c: Config)
    requires k in c
    ensures k in Handlers() ==> (Handlers()[k](c).Success? <==> Accepted(k, c[k]))
    ensures Accepted(k, c[k]) ==> ParsedAs(SettingsSchema(), c, k, SettingValue(k, c[k]))
  {
  }

  /** The settings handlers over any distinct key list; `SettingsParsed` instantiates it. */
  lemma SettingsParsedWith(schema: Schema, c: Config)
    requires schema.handlers == Handlers() && Distinct(schema.keys)
    ensures Parsed(schema, c).Success? <==> forall k :: k in schema.keys && k in c ==> Accepted(k, c[k])
    ensures Parsed(schema, c).Success? ==> var d := Parsed(schema, c).value;
      && d.Valid()
      && d.keys == PresentKeys(schema.keys, c)
      && forall k :: k in d.values ==> k in c && d.values[k] == SettingValue(k, c[k])
  {
    ParsedKeys(schema, c);
    ParsedSucceeds(schema, c);
    HandlersDomain();
    forall k | k in schema.keys && k in c
      ensures k in Handlers() ==> (Handlers()[k](c).Success? <==> Accepted(k, c[k]))
      ensures Accepted(k, c[k]) ==> ParsedAs(schema, c, k, SettingValue(k, c[k]))
    {
      SettingParsedAs(k, c);
    }
  }

  /**
   * The settings parser succeeds exactly when every present key holds a value
   * of its declared shape, and then stores every value unchanged except a
   * `source_suffix` string, which becomes a one-element list.
   */
  lemma SettingsParsed(c: Config)
    ensures Parsed(SettingsSchema(), c).Success? <==> forall k :: k in Keys && k in c ==> Accepted(k, c[k])
    ensures Parsed(SettingsSchema(), c).Success? ==> var d := Parsed(SettingsSchema(), c).value;
      && d.Valid()
      && d.keys == PresentKeys(Keys, c)
      && forall k :: k in d.values ==> k in c && d.values[k] == SettingValue(k, c[k])
  {
    KeysDistinct();
    SettingsParsedWith(SettingsSchema(), c);
  }
}
