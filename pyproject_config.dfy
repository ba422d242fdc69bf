/**
 * `PyProjectConfig`: the read-only mapping over a loaded `pyproject.toml`
 * document, holding the parsed `[project]` table and the parsed tool settings.
 */
module PyProject {
  import opened Wrappers
  import opened Values
  import opened Errors
  import opened ConfigParser
  import ProjectParser
  import SettingsParser

  /** The document shape this model covers: `project` and `tool`, when present, are tables. */
  predicate WellShaped(doc: Config) {
    && ("project" in doc ==> doc["project"].Table?)
    && ("tool" in doc ==> doc["tool"].Table?)
  }

  /** `config.get("tool", {})`. */
  function ToolTable(doc: Config): Config
    requires WellShaped(doc)
  {
    if "tool" in doc then doc["tool"].entries else map[]
  }

  /** Whether every present tool setting has the shape its key declares. */
  predicate SettingsAccepted(tool: Config) {
    forall k :: k in SettingsParser.Keys && k in tool ==> SettingsParser.Accepted(k, tool[k])
  }

  /** The parsed `[project]` table: empty when the document has none. */
  function ProjectOf(doc: Config): (r: Result<Dict, ConfigError>)
    requires WellShaped(doc)
    ensures r.Success? <==> ("project" in doc ==> ProjectParser.ProjectAccepted(doc["project"].entries))
    ensures r.Success? ==>
      && r.value.Valid()
      && r.value.keys == (if "project" in doc then PresentKeys(ProjectParser.Keys, doc["project"].entries) else [])
      && ("project" in doc ==> ProjectParser.ProjectValues(doc["project"].entries, r.value))
  {
    if "project" in doc then
      ProjectParser.ProjectParsed(doc["project"].entries);
      Parsed(ProjectParser.ProjectSchema(), doc["project"].entries)
    else Success(EmptyDict)
  }

  /**
   * The parsed tool settings: empty unless `tool` holds a `sphinx-pyproject`
   * entry, in which case the whole `tool` table is parsed.
   */
  function SettingsOf(doc: Config): (r: Result<Dict, ConfigError>)
    requires WellShaped(doc)
    ensures var tool := ToolTable(doc);
      && (r.Success? <==> ("sphinx-pyproject" in tool ==> SettingsAccepted(tool)))
      && (r.Success? ==>
            && r.value.Valid()
            && r.value.keys == (if "sphinx-pyproject" in tool then PresentKeys(SettingsParser.Keys, tool) else [])
            && forall k :: k in r.value.values ==>
                 k in tool && r.value.values[k] == SettingsParser.SettingValue(k, tool[k]))
  {
    var tool := ToolTable(doc);
    if "sphinx-pyproject" in tool then
      SettingsParser.SettingsParsed(tool);
      Parsed(SettingsParser.SettingsSchema(), tool)
    else Success(EmptyDict)
  }

  /** What construction computes; the project table is parsed first, so its error wins. */
  function ParsedDocument(doc: Config): (r: Result<(Dict, Dict), ConfigError>)
    requires WellShaped(doc)
    ensures r.Success? <==> ProjectOf(doc).Success? && SettingsOf(doc).Success?
    ensures r.Success? ==> r.value == (ProjectOf(doc).value, SettingsOf(doc).value)
    ensures ProjectOf(doc).Failure? ==> r == Failure(ProjectOf(doc).error)
    ensures ProjectOf(doc).Success? && SettingsOf(doc).Failure? ==> r == Failure(SettingsOf(doc).error)
  {
    var project :- ProjectOf(doc);
    var settings :- SettingsOf(doc);
    Success((project, settings))
  }

  /** A `tool` table holding no settings key gives an empty settings map, even when it holds `sphinx-pyproject`. */
  lemma NoSettingsKeys(doc: Config)
    requires WellShaped(doc)
    requires forall k :: k in ToolTable(doc) ==> k !in SettingsParser.Keys
    ensures SettingsOf(doc) == Success(EmptyDict)
  {
    PresentKeysNone(SettingsParser.Keys, ToolTable(doc));
  }

  /**
   * Settings are read from `tool` itself: a document whose settings sit only
   * under `[tool.sphinx-pyproject]` gives an empty settings map.
   */
  lemma SubTableNotRead(settings: map<string, Value>)
    ensures var doc := map["tool" := Table(map["sphinx-pyproject" := Table(settings)])];
      ParsedDocument(doc) == Success((EmptyDict, EmptyDict))
  {
    var doc := map["tool" := Table(map["sphinx-pyproject" := Table(settings)])];
    assert "sphinx-pyproject" !in SettingsParser.Keys;
    NoSettingsKeys(doc);
  }

  /** The keys of the project schema and of the settings schema do not overlap. */
  lemma KeysDisjoint()
    ensures forall k :: k in ProjectParser.Keys ==> k !in SettingsParser.Keys
  {
  }

  /** A list of distinct keys has as many elements as the set of its keys. */
  lemma {:induction false} DistinctCardinality(s: seq<string>)
    requires Distinct(s)
    ensures |set k | k in s| == |s|
  {
    if s != [] {
      DistinctCardinality(s[1..]);
      assert (set k | k in s) == {s[0]} + (set k | k in s[1..]);
      assert s[0] !in s[1..];
    }
  }

  /** Two lists of distinct keys with no key in common concatenate to a list of distinct keys. */
  lemma DistinctAppend(a: seq<string>, b: seq<string>)
    requires Distinct(a) && Distinct(b)
    requires forall k :: k in a ==> k !in b
    ensures Distinct(a + b)
  {
    forall i, j | 0 <= i < j < |a + b|
      ensures (a + b)[i] != (a + b)[j]
    {
      if i < |a| && j >= |a| {
        assert (a + b)[i] in a && (a + b)[j] in b;
      }
    }
  }

  /** A well-formed dict has as many entries as keys. */
  lemma DictSize(d: Dict)
    requires d.Valid()
    ensures |d.values| == |d.keys|
  {
    assert d.values.Keys == set k | k in d.keys;
    DistinctCardinality(d.keys);
  }

  /** The first branch of `__init__`: parse `[project]` when present. */
  method ParseProjectTable(doc: Config) returns (r: Result<Dict, ConfigError>)
    requires WellShaped(doc)
    ensures r == ProjectOf(doc)
  {
    r := Success(EmptyDict);
    if "project" in doc {
      r := Parse(ProjectParser.ProjectSchema(), doc["project"].entries);
    }
  }

  /** The second branch of `__init__`: parse the whole `tool` table when it holds `sphinx-pyproject`. */
  method ParseToolTable(doc: Config) returns (r: Result<Dict, ConfigError>)
    requires WellShaped(doc)
    ensures r == SettingsOf(doc)
  {
    var tool := ToolTable(doc);
    r := Success(EmptyDict);
    if "sphinx-pyproject" in tool {
      r := Parse(SettingsParser.SettingsSchema(), tool);
    }
  }

  /** Two well-formed parse results whose keys lie in the two disjoint schemas. */
  ghost predicate Fits(projectConfig: Dict, config: Dict) {
    && projectConfig.Valid() && config.Valid()
    && (forall k :: k in projectConfig.values ==> k in ProjectParser.Keys)
    && (forall k :: k in config.values ==> k in SettingsParser.Keys)
  }

  /** How `__getitem__` fails. */
  datatype KeyLookupError = Unsupported(key: string) | Undefined(key: string)

  /** What `__getattr__` yields: an accessor for a key, or normal attribute lookup. */
  datatype Attribute = Accessor(key: string) | Ordinary(name: string)

  class PyProjectConfig {
    /** `_621config`: the parsed `[project]` table. */
    const projectConfig: Dict
    /** `_config`: the parsed tool settings. */
    const config: Dict

    ghost predicate Valid() {
      Fits(projectConfig, config)
    }

    constructor (projectConfig: Dict, config: Dict)
      requires Fits(projectConfig, config)
      ensures Valid()
      ensures this.projectConfig == projectConfig && this.config == config
    {
      this.projectConfig := projectConfig;
      this.config := config;
    }

    /** `__init__` after the document is loaded: parse `[project]`, then the tool settings. */
    static method Load(doc: Config) returns (r: Result<PyProjectConfig, ConfigError>)
      requires WellShaped(doc)
      ensures ParsedDocument(doc).Failure? ==> r == Failure(ParsedDocument(doc).error)
      ensures ParsedDocument(doc).Success? ==>
        && r.Success? && fresh(r.value) && r.value.Valid()
        && r.value.projectConfig == ParsedDocument(doc).value.0
        && r.value.config == ParsedDocument(doc).value.1
    {
      var project := ParseProjectTable(doc);
      if project.Failure? {
        return Failure(project.error);
      }
      var settings := ParseToolTable(doc);
      if settings.Failure? {
        return Failure(settings.error);
      }
      var projectConfig, config := project.value, settings.value;
      var c := new PyProjectConfig(projectConfig, config);
      return Success(c);
    }

    /** `valid_keys`: every key either parser recognises. */
    static function ValidKeys(): (r: set<string>)
      ensures forall k :: k in r <==> k in ProjectParser.Keys || k in SettingsParser.Keys
    {
      set k | k in ProjectParser.Keys + SettingsParser.Keys
    }

    /** There are 28 valid keys: 5 project fields and 23 tool settings, none shared. */
    static lemma ValidKeysCount()
      ensures |ValidKeys()| == 28
    {
      ProjectParser.KeysDistinct();
      SettingsParser.KeysDistinct();
      KeysDisjoint();
      var all := ProjectParser.Keys + SettingsParser.Keys;
      assert Distinct(all);
      DistinctCardinality(all);
    }

    /** `__iter__`: the project keys, then the settings keys, each in parse order. */
    function Iter(): (r: seq<string>)
      requires Valid()
      ensures |r| == |projectConfig.keys| + |config.keys|
      ensures r[..|projectConfig.keys|] == projectConfig.keys && r[|projectConfig.keys|..] == config.keys
      ensures Distinct(r)
      ensures forall k :: k in r <==> k in projectConfig.values || k in config.values
    {
      KeysDisjoint();
      DistinctAppend(projectConfig.keys, config.keys);
      projectConfig.keys + config.keys
    }

    /** `__len__`: the number of entries of both maps, which is the number of keys iterated. */
    function Len(): (n: nat)
      requires Valid()
      ensures n == |Iter()|
    {
      DictSize(projectConfig);
      DictSize(config);
      |projectConfig.values| + |config.values|
    }

    /** `__getitem__`: unknown keys are unsupported, known but absent ones undefined. */
    function GetItem(item: string): (r: Result<Value, KeyLookupError>)
      ensures item !in ValidKeys() ==> r == Failure(Unsupported(item))
      ensures item in ValidKeys() && item !in projectConfig.values && item !in config.values ==>
        r == Failure(Undefined(item))
      ensures item in ValidKeys() && item in projectConfig.values ==> r == Success(projectConfig.values[item])
      ensures item in ValidKeys() && item !in projectConfig.values && item in config.values ==>
        r == Success(config.values[item])
      ensures r.Success? ==>
        (item in projectConfig.values && r.value == projectConfig.values[item]) ||
        (item in config.values && r.value == config.values[item])
    {
      if item !in ValidKeys() then Failure(Unsupported(item))
      else if item in projectConfig.values then Success(projectConfig.values[item])
      else if item in config.values then Success(config.values[item])
      else Failure(Undefined(item))
    }

    /** `__getattr__`: `get_<key>` for a valid key is an accessor for that key. */
    function GetAttr(item: string): (r: Attribute)
      ensures r.Accessor? <==> |item| >= 4 && item[..4] == "get_" && item[4..] in ValidKeys()
      ensures r.Accessor? ==> "get_" + r.key == item
      ensures r.Ordinary? ==> r.name == item
    {
      if |item| >= 4 && item[..4] == "get_" && item[4..] in ValidKeys() then Accessor(item[4..])
      else Ordinary(item)
    }

    /**
     * The mapping is consistent: iteration yields exactly the keys that
     * lookup finds, each once, and their number is the length.
     */
    lemma MappingConsistent(k: string)
      requires Valid()
      ensures k in Iter() <==> GetItem(k).Success?
      ensures GetItem(k).Success? ==>
        GetItem(k).value == if k in projectConfig.values then projectConfig.values[k] else config.values[k]
      ensures |Iter()| == Len()
    {
    }

    /** Calling what `__getattr__` returned for an accessor: `self[key]`. */
    function Call(a: Attribute): (r: Result<Value, KeyLookupError>)
      requires a.Accessor?
      ensures a.key in ValidKeys() ==> (r.Success? <==> a.key in projectConfig.values || a.key in config.values)
    {
      GetItem(a.key)
    }

    /** `get_<key>()` for a valid key looks that key up. */
    lemma AccessorLooksUp(k: string)
      requires k in ValidKeys()
      ensures GetAttr("get_" + k) == Accessor(k)
      ensures Call(GetAttr("get_" + k)) == GetItem(k)
    {
      assert ("get_" + k)[..4] == "get_";
      assert ("get_" + k)[4..] == k;
    }
  }
}
