/**
 * `ProjectParser`: the PEP 621 `[project]` table — `name`, `version`,
 * `description`, `authors` and `maintainers`.
 */
module ProjectParser {
  import opened Wrappers
  import opened Values
  import opened Errors
  import opened ConfigParser
  import Decimal

  /** `ProjectParser.keys`. */
  const Keys: seq<string> := ["name", "version", "description", "authors", "maintainers"]

  /** `str.replace('_', '-')`: every underscore becomes a hyphen, nothing else changes. */
  function HyphenateUnderscores(s: string): (r: string)
    ensures |r| == |s|
    ensures forall i :: 0 <= i < |s| ==> r[i] == (if s[i] == '_' then '-' else s[i])
    ensures '_' !in r
  {
    if s == [] then [] else [if s[0] == '_' then '-' else s[0]] + HyphenateUnderscores(s[1..])
  }

  /** `parse_name`: a string, with underscores replaced by hyphens. */
  function ParseName(config: Config): (r: Result<Value, ConfigError>)
    ensures "name" !in config ==> r == Failure(MissingKey("name"))
    ensures "name" in config ==> (r.Success? <==> config["name"].Str?)
    ensures "name" in config && !config["name"].Str? ==>
      r == Failure(InvalidType(TypeRole, ["project", "name"], None, [StrType], TypeOf(config["name"])))
    ensures r.Success? ==> r.value.Str? && var s, t := config["name"].s, r.value.s;
      |t| == |s| && '_' !in t &&
      forall i :: 0 <= i < |s| ==> (s[i] == '_' ==> t[i] == '-') && (s[i] != '_' ==> t[i] == s[i])
  {
    if "name" !in config then Failure(MissingKey("name"))
    else
      var name := config["name"];
      IsInstanceStr(name);
      match AssertType(name, [StrType], ["project", "name"], TypeRole)
      case Fail(e) => Failure(e)
      case Pass => Success(Str(HyphenateUnderscores(name.s)))
  }

  /** `str(version)` for the values `parse_version` accepts. */
  function VersionString(v: Value): string
    requires v.Str? || v.Int? || v.Bool?
  {
    match v
    case Str(s) => s
    case Int(i) => Decimal.IntToString(i)
    case Bool(b) => if b then "True" else "False"
  }

  /**
   * `parse_version`: a string or an integer, returned as a string.  Python's
   * `bool` is an `int`, so `true` and `false` are accepted too.
   */
  function ParseVersion(config: Config): (r: Result<Value, ConfigError>)
    ensures "version" !in config ==> r == Failure(MissingKey("version"))
    ensures "version" in config ==>
      (r.Success? <==> config["version"].Str? || config["version"].Int? || config["version"].Bool?)
    ensures "version" in config && r.Failure? ==>
      r.error == InvalidType(TypeRole, ["project", "version"], None, [StrType, IntType], TypeOf(config["version"]))
    ensures r.Success? ==> r.value.Str? && var v := config["version"];
      && (v.Str? ==> r.value.s == v.s)
      && (v.Int? ==>
            && r.value.s == Decimal.IntToString(v.i) && Decimal.IsCanonicalIntString(r.value.s)
            && Decimal.IsIntString(r.value.s) && Decimal.IntValue(r.value.s) == v.i)
      && (v.Bool? ==> r.value.s == (if v.b then "True" else "False"))
  {
    if "version" !in config then Failure(MissingKey("version"))
    else
      var version := config["version"];
      IsInstanceStrOrInt(version);
      match AssertType(version, [StrType, IntType], ["project", "version"], TypeRole)
      case Fail(e) => Failure(e)
      case Pass =>
        if version.Int? then Decimal.IntToStringRoundTrip(version.i); Success(Str(VersionString(version)))
        else Success(Str(VersionString(version)))
  }

  /** `parse_description`: a string, returned verbatim. */
  function ParseDescription(config: Config): (r: Result<Value, ConfigError>)
    ensures "description" !in config ==> r == Failure(MissingKey("description"))
    ensures "description" in config ==>
      (config["description"].Str? ==> r == Success(config["description"])) &&
      (!config["description"].Str? ==>
        r == Failure(InvalidType(TypeRole, ["project", "description"], None, [StrType], TypeOf(config["description"]))))
  {
    if "description" !in config then Failure(MissingKey("description"))
    else
      var description := config["description"];
      IsInstanceStr(description);
      match AssertType(description, [StrType], ["project", "description"], TypeRole)
      case Fail(e) => Failure(e)
      case Pass => Success(description)
  }

  /** Python's `',' in name`: a substring test on a string, membership on a list or dict. */
  function ContainsComma(name: Value): (r: Result<bool, ConfigError>)
    ensures r.Success? <==> name.Str? || name.Array? || name.Table?
    ensures r.Failure? ==> r.error == NotAContainer(TypeOf(name))
    ensures name.Str? ==> (r.value <==> exists i :: 0 <= i < |name.s| && name.s[i] == ',')
    ensures name.Array? ==> (r.value <==> exists i :: 0 <= i < |name.items| && name.items[i] == Str(","))
    ensures name.Table? ==> (r.value <==> "," in name.entries)
  {
    match name
    case Str(s) => Success(',' in s)
    case Array(xs) => Success(Str(",") in xs)
    case Table(m) => Success("," in m)
    case _ => Failure(NotAContainer(TypeOf(name)))
  }

  /** One step of `_parse_authors`: the name of entry `idx`, None when it has none. */
  function AuthorName(author: Value, keyName: string, idx: nat): (r: Result<Value, ConfigError>)
    ensures !author.Table? ==> r == Failure(NoGetMethod(TypeOf(author)))
    ensures author.Table? && "name" !in author.entries ==> r == Success(Null)
    ensures author.Table? && "name" in author.entries && author.entries["name"].Str? ==>
      var s := author.entries["name"].s;
      r == if ',' in s then Failure(CommaInName(keyName, idx)) else Success(Str(s))
  {
    if !author.Table? then Failure(NoGetMethod(TypeOf(author)))
    else
      var name := if "name" in author.entries then author.entries["name"] else Null;
      if name == Null then Success(Null)
      else
        match ContainsComma(name)
        case Failure(e) => Failure(e)
        case Success(comma) => if comma then Failure(CommaInName(keyName, idx)) else Success(name)
  }

  /** The names of entries `from..` of an authors array, stopping at the first error. */
  function AuthorNamesFrom(items: seq<Value>, keyName: string, from: nat): Result<seq<Value>, ConfigError>
    requires from <= |items|
    decreases |items| - from
  {
    if from == |items| then Success([])
    else
      match AuthorName(items[from], keyName, from)
      case Failure(e) => Failure(e)
      case Success(name) =>
        match AuthorNamesFrom(items, keyName, from + 1)
        case Failure(e) => Failure(e)
        case Success(names) => Success([name] + names)
  }

  /** The names are produced one per entry, in order, exactly when every entry succeeds. */
  lemma {:induction false} AuthorNamesSucceed(items: seq<Value>, keyName: string, from: nat, names: seq<Value>)
    requires from <= |items|
    ensures AuthorNamesFrom(items, keyName, from) == Success(names) <==>
      |names| == |items| - from &&
      forall j :: from <= j < |items| ==> AuthorName(items[j], keyName, j) == Success(names[j - from])
    decreases |items| - from
  {
    if from < |items| {
      if |names| > 0 {
        AuthorNamesSucceed(items, keyName, from + 1, names[1..]);
        assert names == [names[0]] + names[1..];
      }
    }
  }

  /** The error is that of the first entry that fails. */
  lemma {:induction false} AuthorNamesFail(items: seq<Value>, keyName: string, from: nat, e: ConfigError)
    requires from <= |items|
    ensures AuthorNamesFrom(items, keyName, from) == Failure(e) <==>
      exists i :: from <= i < |items| && AuthorName(items[i], keyName, i) == Failure(e) &&
        forall j :: from <= j < i ==> AuthorName(items[j], keyName, j).Success?
    decreases |items| - from
  {
    if from < |items| {
      AuthorNamesFail(items, keyName, from + 1, e);
      if AuthorName(items[from], keyName, from).Success? {
        if exists i :: from <= i < |items| && AuthorName(items[i], keyName, i) == Failure(e) &&
             forall j :: from <= j < i ==> AuthorName(items[j], keyName, j).Success? {
          var i :| from <= i < |items| && AuthorName(items[i], keyName, i) == Failure(e) &&
             forall j :: from <= j < i ==> AuthorName(items[j], keyName, j).Success?;
          assert i != from;
        }
      }
    }
  }

  /**
   * `_parse_authors`: one entry of the result per entry of the array, in
   * order; an entry with no `name` gives None rather than being dropped; the
   * first name holding a comma aborts with an error citing its index.
   */
  function AuthorList(config: Config, keyName: string): (r: Result<Value, ConfigError>)
    ensures keyName !in config ==> r == Failure(MissingKey(keyName))
    ensures keyName in config && config[keyName].Array? ==> var xs := config[keyName].items;
      && (r.Success? ==>
            && r.value.Array? && |r.value.items| == |xs|
            && forall i :: 0 <= i < |xs| ==> AuthorName(xs[i], keyName, i) == Success(r.value.items[i]))
      && (r.Success? <==> forall i :: 0 <= i < |xs| ==> AuthorName(xs[i], keyName, i).Success?)
      && (r.Failure? ==>
            exists i :: 0 <= i < |xs| && AuthorName(xs[i], keyName, i) == Failure(r.error) &&
              forall j :: 0 <= j < i ==> AuthorName(xs[j], keyName, j).Success?)
    // a string or a table iterates over strings, which have no `.get`; nothing else iterates
    ensures keyName in config && config[keyName].Str? ==>
      r == if config[keyName].s == [] then Success(Array([])) else Failure(NoGetMethod(StrType))
    ensures keyName in config && config[keyName].Table? ==>
      r == if config[keyName].entries == map[] then Success(Array([])) else Failure(NoGetMethod(StrType))
    ensures keyName in config && !(config[keyName].Array? || config[keyName].Str? || config[keyName].Table?) ==>
      r == Failure(NotIterable(TypeOf(config[keyName])))
  {
    if keyName !in config then Failure(MissingKey(keyName))
    else
      match config[keyName]
      case Array(xs) =>
        var names := AuthorNamesFrom(xs, keyName, 0);
        if names.Success? then
          AuthorNamesSucceed(xs, keyName, 0, names.value);
          Success(Array(names.value))
        else
          AuthorNamesFail(xs, keyName, 0, names.error);
          Failure(names.error)
      case Str(s) => if s == [] then Success(Array([])) else Failure(NoGetMethod(StrType))
      case Table(m) => if m == map[] then Success(Array([])) else Failure(NoGetMethod(StrType))
      case _ => Failure(NotIterable(TypeOf(config[keyName])))
  }

  /** `_parse_authors`, the loop as the source runs it. */
  method ParseAuthorList(config: Config, keyName: string) returns (r: Result<Value, ConfigError>)
    ensures r == AuthorList(config, keyName)
  {
    if keyName !in config {
      return Failure(MissingKey(keyName));
    }
    var data := config[keyName];
    match data {
      case Array(xs) =>
        var allAuthors: seq<Value> := [];
        for idx := 0 to |xs|
          invariant |allAuthors| == idx
          invariant forall j :: 0 <= j < idx ==> AuthorName(xs[j], keyName, j) == Success(allAuthors[j])
        {
          var author := xs[idx];
          if !author.Table? {
            AuthorNamesFail(xs, keyName, 0, NoGetMethod(TypeOf(author)));
            return Failure(NoGetMethod(TypeOf(author)));
          }
          var name := if "name" in author.entries then author.entries["name"] else Null;
          if name != Null {
            var comma := ContainsComma(name);
            if comma.Failure? {
              AuthorNamesFail(xs, keyName, 0, comma.error);
              return Failure(comma.error);
            }
            if comma.value {
              AuthorNamesFail(xs, keyName, 0, CommaInName(keyName, idx));
              return Failure(CommaInName(keyName, idx));
            }
          }
          allAuthors := allAuthors + [name];
        }
        AuthorNamesSucceed(xs, keyName, 0, allAuthors);
        return Success(Array(allAuthors));
      case Str(s) =>
        return if s == [] then Success(Array([])) else Failure(NoGetMethod(StrType));
      case Table(m) =>
        return if m == map[] then Success(Array([])) else Failure(NoGetMethod(StrType));
      case _ =>
        return Failure(NotIterable(TypeOf(data)));
    }
  }

  /** The parser: `keys` and its `parse_<key>` methods. */
  function ProjectSchema(): Schema {
    Schema(Keys, map[
      "name" := ParseName,
      "version" := ParseVersion,
      "description" := ParseDescription,
      "authors" := (c: Config) => AuthorList(c, "authors"),
      "maintainers" := (c: Config) => AuthorList(c, "maintainers")
    ])
  }

  /** No key is listed twice. */
  lemma KeysDistinct()
    ensures Distinct(Keys)
  {
  }

  /**
   * Whether `schema` lists the project keys and, on `c`, dispatches each of
   * them to its own `parse_<key>` method, `authors` and `maintainers`
   * passing their own key name.
   */
  ghost predicate DispatchesLikeProject(schema: Schema, c: Config) {
    var h := schema.handlers;
    && schema.keys == Keys
    && (forall k :: k in h <==> k in Keys)
    && "name" in h && h["name"](c) == ParseName(c)
    && "version" in h && h["version"](c) == ParseVersion(c)
    && "description" in h && h["description"](c) == ParseDescription(c)
    && "authors" in h && h["authors"](c) == AuthorList(c, "authors")
    && "maintainers" in h && h["maintainers"](c) == AuthorList(c, "maintainers")
  }

  /** The project parser dispatches each of its keys to its own `parse_<key>` method. */
  lemma ProjectHandlers(c: Config)
    ensures DispatchesLikeProject(ProjectSchema(), c)
  {
  }

  /** Whether every present field of `[project]` is well formed. */
  predicate ProjectAccepted(c: Config) {
    && ("name" in c ==> c["name"].Str?)
    && ("version" in c ==> c["version"].Str? || c["version"].Int? || c["version"].Bool?)
    && ("description" in c ==> c["description"].Str?)
    && ("authors" in c ==> AuthorList(c, "authors").Success?)
    && ("maintainers" in c ==> AuthorList(c, "maintainers").Success?)
  }

  /** What a successful parse stores for each present field of `[project]`. */
  predicate ProjectValues(c: Config, d: Dict)
    requires ProjectAccepted(c)
  {
    && ("name" in c ==> "name" in d.values && d.values["name"] == ParseName(c).value)
    && ("version" in c ==> "version" in d.values && d.values["version"] == ParseVersion(c).value)
    && ("description" in c ==> "description" in d.values && d.values["description"] == c["description"])
    && ("authors" in c ==> "authors" in d.values && d.values["authors"] == AuthorList(c, "authors").value)
    && ("maintainers" in c ==> "maintainers" in d.values && d.values["maintainers"] == AuthorList(c, "maintainers").value)
  }

  /** The success condition of `ProjectParsed`, for any schema dispatching like the project parser. */
  lemma ProjectSucceedsWith(schema: Schema, c: Config)
    requires DispatchesLikeProject(schema, c)
    ensures Parsed(schema, c).Success? <==> ProjectAccepted(c)
  {
    ParsedSucceeds(schema, c);
  }

  /** The result of `ProjectParsed`, for any schema dispatching like the project parser. */
  lemma ProjectValuesWith(schema: Schema, c: Config)
    requires DispatchesLikeProject(schema, c)
    requires ProjectAccepted(c)
    ensures Parsed(schema, c).Success? ==> var d := Parsed(schema, c).value;
      d.Valid() && d.keys == PresentKeys(Keys, c) && ProjectValues(c, d)
  {
    KeysDistinct();
    ParsedKeys(schema, c);
  }

  /**
   * Parsing `[project]` succeeds exactly when each present field is well
   * formed; it then keeps exactly the present fields, in the order of `keys`,
   * with the name hyphenated, the version as a string, the description
   * verbatim and each author list as its list of names.
   */
  lemma ProjectParsed(c: Config)
    ensures Parsed(ProjectSchema(), c).Success? <==> ProjectAccepted(c)
    ensures Parsed(ProjectSchema(), c).Success? ==> var d := Parsed(ProjectSchema(), c).value;
      d.Valid() && d.keys == PresentKeys(Keys, c) && ProjectValues(c, d)
  {
    ProjectHandlers(c);
    ProjectSucceedsWith(ProjectSchema(), c);
    if ProjectAccepted(c) {
      ProjectValuesWith(ProjectSchema(), c);
    }
  }
}
