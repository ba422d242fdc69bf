# sphinx-pyproject in Dafny

A model of the parsing core of sphinx-pyproject. sphinx-pyproject reads a `pyproject.toml` document and gives a Sphinx
`conf.py` its PEP 621 project metadata and its `[tool.sphinx-pyproject]` settings.

The model covers these parts:

- **`construct_path`** (`Paths`). It renders a key path as a dotted TOML key: each segment is bare when TOML allows it and double-quoted otherwise.
- **The assertion helpers** (`ConfigParser.AssertType` and its indexed, key and value variants). They model `isinstance`, including Python's rule that `bool` is an `int`.
- **The generic `parse`** (`ConfigParser`).
  - It walks the parser's ordered `keys`. It skips keys absent from the input and calls the key's `parse_<key>` method when there is one. Otherwise it copies the value.
  - The first error aborts the call.
  - The result is an insertion-ordered dict (`Dict`).
  - `Parse` is the loop. `Parsed` is its specification.
- **`ProjectParser`**: `name` (hyphenated), `version` (`str()` of a string, an integer or a boolean), `description`, and `authors`/`maintainers` (one name or None per entry; a comma in a name is an error).
- **`SphinxPyprojectParser`** (`SettingsParser`).
  - 20 of its 23 keys have a handler: 19 are checked as strings, booleans or lists of strings, and `source_suffix` has its own coercion.
  - `source_parsers`, `html_theme_options` and `html_context` pass through unchecked.
  - Errors report the path `tool.sphinx-pyproject.<key>`.
- **`PyProjectConfig`** (`PyProject`). This is the read-only mapping built from an already-loaded document: `valid_keys`, `__len__`, `__iter__`, `__getitem__` and the `get_<key>` accessors of `__getattr__`.

Python exceptions become `Failure` values of the `ConfigError` datatype. Each error records its kind. Type, `source_suffix` and comma errors also record the key path and any index; the other kinds record the offending type or the missing key. Message text is not modelled, except the quoted name a message cites, which `Errors.Subject` renders. Values of the document are the `Value` datatype, and `Null` stands for Python's None.

These are behaviours of the code as written, which the model follows:

- Author names are returned as a list, not joined.
- An author entry without a name yields None and is kept.
- A missing `[project]` table or missing `name`/`version`/`description` is not an error.
- `len` and iteration cover both the project map and the settings map.
- The settings parser is given the whole `tool` table, not its `sphinx-pyproject` sub-table (`PyProject.SubTableNotRead`).

## Model

| member | source | states |
|---|---|---|
| Values.IsInstanceStr | sphinx_pyproject/parser.py:80 | `isinstance(v, str)` holds exactly for strings |
| Values.IsInstanceBool | sphinx_pyproject/parser.py:295 | `isinstance(v, bool)` holds exactly for booleans |
| Values.IsInstanceStrOrInt | sphinx_pyproject/parser.py:198 | `isinstance(v, (str, int))` holds exactly for strings, integers and booleans |
| Paths.RenderKey | sphinx_pyproject/parser.py:54 | a bare key is rendered without any `.` |
| Paths.ConstructPath | sphinx_pyproject/parser.py:54 | the rendering is empty exactly for an empty path, and begins with the first segment's rendering |
| Paths.ConstructPathRoundTrip | sphinx_pyproject/parser.py:47-54 | splitting the rendering of a path of bare keys at `.` gives the path back |
| Errors.Subject | sphinx_pyproject/parser.py:80-104 | the name a message cites: present exactly for type, `source_suffix` and comma errors; the rendered path itself for a type error without index or a `source_suffix` error; the rendered path followed by `[digits]` for an indexed type error, where the digits are canonical (no leading zero) and read back as the index, so they are exactly `str(idx)`; for a comma error, exactly `project.<key>[<entry>].name` as line 220 renders it, the entry's digits reading back as the entry |
| Errors.SubjectNamesPath | sphinx_pyproject/parser.py:80-82 | the name a type error cites splits back into the offending key path |
| Decimal.NatToString | sphinx_pyproject/parser.py:199 | `str(n)` is a non-empty digit string with no leading zero unless n is 0 |
| Decimal.NatToStringRoundTrip | sphinx_pyproject/parser.py:199 | reading `str(n)` back as decimal gives n |
| Decimal.IntToString | sphinx_pyproject/parser.py:199 | `str(i)` is in canonical form (no leading zero, no `-0`) and begins with `-` exactly when i is negative |
| Decimal.IntToStringRoundTrip | sphinx_pyproject/parser.py:199 | `str(i)` of any integer, with its sign, is read back as i |
| Decimal.CanonicalDigitsUnique | sphinx_pyproject/parser.py:199 | helper for `CanonicalIntStringUnique`: a canonical digit string is the rendering of the number it denotes |
| Decimal.CanonicalIntStringUnique | sphinx_pyproject/parser.py:199 | an integer has only one canonical string: any canonical string is `str` of the number it denotes |
| ConfigParser.AssertType | sphinx_pyproject/parser.py:63-83 | passes exactly when the value is an instance of one of the expected types; otherwise the error carries the path, the role, the expected types and the actual type |
| ConfigParser.AssertIndexedType | sphinx_pyproject/parser.py:85-104 | as `AssertType`, and the error also carries the element's index |
| ConfigParser.AssertKeyType | sphinx_pyproject/parser.py:106-122 | passes exactly on an instance of one of the expected types; otherwise the `assert_type` error with role key type, the path, no index, the expected types and the actual type |
| ConfigParser.AssertValueType | sphinx_pyproject/parser.py:124-140 | passes exactly on an instance of one of the expected types; otherwise the `assert_type` error with role value type, the path, no index, the expected types and the actual type |
| ConfigParser.Dict.Put | sphinx_pyproject/parser.py:166 | dict assignment: the key maps to the new value, a new key goes last, an existing key keeps its place, and a well-formed dict stays well formed |
| ConfigParser.PresentKeys | sphinx_pyproject/parser.py:160-163 | the keys kept are exactly those both listed and present; distinct keys stay distinct |
| ConfigParser.PresentKeysNone | sphinx_pyproject/parser.py:161-163 | an input holding none of the keys keeps no key |
| ConfigParser.Parse | sphinx_pyproject/parser.py:151-171 | the loop computes the specification `Parsed` |
| ConfigParser.ParsedKeys | sphinx_pyproject/parser.py:151-171 | on success the result holds exactly the listed keys present in the input, in list order, with no defaults; a handled key holds its handler's result and any other key its input value |
| ConfigParser.ParsedSucceeds | sphinx_pyproject/parser.py:165-166 | parsing succeeds exactly when every handler it dispatches to succeeds |
| ConfigParser.ParsedFailsFirst | sphinx_pyproject/parser.py:160-166 | a failure is the error of the first present, handled key whose handler fails, and every earlier handler succeeded |
| ProjectParser.HyphenateUnderscores | sphinx_pyproject/parser.py:188 | same length, every `_` replaced by `-`, every other character kept, no `_` left |
| ProjectParser.ParseName | sphinx_pyproject/parser.py:179-188 | succeeds exactly on a string and returns it hyphenated; otherwise the type error for `project.name` |
| ProjectParser.ParseVersion | sphinx_pyproject/parser.py:190-199 | succeeds exactly on a string, integer or boolean; a string is kept, an integer becomes `str` of it (canonical, reading back as the integer), a boolean becomes `True`/`False`; otherwise the type error for `project.version` expecting str or int |
| ProjectParser.ParseDescription | sphinx_pyproject/parser.py:201-210 | a string is returned verbatim; anything else gives the type error for `project.description` |
| ProjectParser.ContainsComma | sphinx_pyproject/parser.py:219 | Python's `',' in name`: a character test on a string, membership of `","` in a list or among a table's keys, and an error for any other value |
| ProjectParser.AuthorName | sphinx_pyproject/parser.py:216-222 | a non-table entry has no `.get`; an entry without a name gives None; a name containing a comma gives the error citing the key and the index |
| ProjectParser.AuthorNamesSucceed | sphinx_pyproject/parser.py:214-224 | the names are produced one per entry, in order, exactly when every entry yields a name |
| ProjectParser.AuthorNamesFail | sphinx_pyproject/parser.py:214-224 | the error is that of the first entry that fails |
| ProjectParser.AuthorList | sphinx_pyproject/parser.py:212-224 | for an array: one result per entry in order, success exactly when every entry succeeds, and otherwise the first failing entry's error; a string or table, whose items are strings, gives an empty list when empty and otherwise fails on `.get`; any other value cannot be iterated |
| ProjectParser.ParseAuthorList | sphinx_pyproject/parser.py:212-224 | the loop computes `AuthorList` |
| ProjectParser.KeysDistinct | sphinx_pyproject/parser.py:244-256 | the five project keys are distinct |
| ProjectParser.ProjectHandlers | sphinx_pyproject/parser.py:179-242 | the project parser satisfies `DispatchesLikeProject`: each project key is dispatched to its own `parse_<key>` method, and `authors`/`maintainers` pass their own key name |
| ProjectParser.ProjectSucceedsWith | sphinx_pyproject/parser.py:151-171 | the generic parser with the project handlers succeeds exactly when every present field is well formed |
| ProjectParser.ProjectValuesWith | sphinx_pyproject/parser.py:151-171 | the generic parser with the project handlers stores exactly the present fields, in order, each as its handler returns it |
| ProjectParser.ProjectParsed | sphinx_pyproject/parser.py:174-256 | parsing `[project]` succeeds exactly when each present field is well formed, and then keeps exactly the present fields in key order with the name hyphenated, the version as a string, the description verbatim and the author lists as names |
| SettingsParser.ParseString | sphinx_pyproject/parser.py:266-280 | a string is returned unchanged; anything else gives the type error for `tool.sphinx-pyproject.<name>` |
| SettingsParser.ParseBool | sphinx_pyproject/parser.py:282-296 | a boolean is returned unchanged; anything else, including an integer, gives the type error for `tool.sphinx-pyproject.<name>` |
| SettingsParser.FirstNonString | sphinx_pyproject/parser.py:312-313 | finds the lowest index of a non-string element, or reports that all elements are strings |
| SettingsParser.ListOfString | sphinx_pyproject/parser.py:298-315 | an array is returned unchanged exactly when all its elements are strings; otherwise the error names the lowest offending index; a string or table passes unchanged; any other value cannot be iterated |
| SettingsParser.ParseListOfString | sphinx_pyproject/parser.py:298-315 | the loop computes `ListOfString` |
| SettingsParser.ParseSourceSuffix | sphinx_pyproject/parser.py:328-349 | a string becomes a one-element list, a table an equal table, an array the same elements in order; anything else gives the `source_suffix` error |
| SettingsParser.SourceSuffixIdempotent | sphinx_pyproject/parser.py:328-349 | parsing a parsed `source_suffix` again gives it back |
| SettingsParser.HandlerRunsCheck | sphinx_pyproject/parser.py:317-551 | a handled key's method runs its check under its own key name |
| SettingsParser.StringKeysChecked | sphinx_pyproject/parser.py:351-529 | exactly the seven string settings are checked as strings |
| SettingsParser.BoolKeysChecked | sphinx_pyproject/parser.py:408-551 | exactly the eight boolean settings are checked as booleans |
| SettingsParser.ListKeysChecked | sphinx_pyproject/parser.py:317-540 | exactly the four list settings are checked as lists of strings |
| SettingsParser.PassthroughKeysUnhandled | sphinx_pyproject/parser.py:561-585 | the keys with no `parse_<key>` method are exactly `source_parsers`, `html_theme_options` and `html_context` |
| SettingsParser.KeysDistinct | sphinx_pyproject/parser.py:561-585 | the 23 settings keys are distinct |
| SettingsParser.HandlersDomain | sphinx_pyproject/parser.py:317-551 | the handled keys are exactly those of the check table |
| SettingsParser.SettingParsedAs | sphinx_pyproject/parser.py:165-166 | a present setting's handler succeeds exactly on an accepted value and stores it unchanged, except that a `source_suffix` string becomes a list |
| SettingsParser.SettingsParsedWith | sphinx_pyproject/parser.py:151-171 | the generic parser with the settings handlers succeeds exactly when every present setting is accepted, and keeps exactly the present keys in order |
| SettingsParser.SettingsParsed | sphinx_pyproject/parser.py:259-585 | parsing the settings succeeds exactly when every present setting has its declared shape; the result keeps exactly the present keys in order, each value unchanged except a `source_suffix` string |
| PyProject.ProjectOf | sphinx_pyproject/__init__.py:177-180 | with no `project` table the project map is empty; otherwise it succeeds exactly when the table is accepted and holds its parsed fields |
| PyProject.SettingsOf | sphinx_pyproject/__init__.py:182-185 | without a `sphinx-pyproject` entry in `tool` (or without `tool`) the settings map is empty and nothing fails; otherwise the whole `tool` table is parsed |
| PyProject.ParsedDocument | sphinx_pyproject/__init__.py:169-185 | construction succeeds exactly when both parts do, and the project table's error comes first |
| PyProject.ParseProjectTable | sphinx_pyproject/__init__.py:177-180 | the first branch of `__init__` computes `ProjectOf` |
| PyProject.ParseToolTable | sphinx_pyproject/__init__.py:182-185 | the second branch of `__init__` computes `SettingsOf` |
| PyProject.NoSettingsKeys | sphinx_pyproject/__init__.py:182-183 | a `tool` table holding no settings key gives an empty settings map |
| PyProject.SubTableNotRead | sphinx_pyproject/__init__.py:182-183 | settings placed only under `[tool.sphinx-pyproject]` give an empty settings map |
| PyProject.KeysDisjoint | sphinx_pyproject/__init__.py:187-189 | no project key is also a settings key |
| PyProject.DistinctCardinality | sphinx_pyproject/__init__.py:187-189 | helper for `ValidKeysCount` and `DictSize`: a list of distinct keys has as many elements as its set of keys |
| PyProject.DictSize | sphinx_pyproject/__init__.py:191-192 | helper for `Len`: a well-formed dict has as many entries as keys |
| PyProject.DistinctAppend | sphinx_pyproject/__init__.py:194-196 | helper for `Iter`: joining two disjoint lists of distinct keys gives distinct keys |
| PyProject.PyProjectConfig.constructor | sphinx_pyproject/__init__.py:169-185 | holds the two parsed maps |
| PyProject.PyProjectConfig.Load | sphinx_pyproject/__init__.py:169-185 | fails with the document's first parse error, or builds a fresh valid instance holding exactly the two parsed maps |
| PyProject.PyProjectConfig.ValidKeys | sphinx_pyproject/__init__.py:187-189 | the valid keys are exactly the union of both parsers' keys |
| PyProject.PyProjectConfig.ValidKeysCount | sphinx_pyproject/__init__.py:187-189 | there are 28 valid keys |
| PyProject.PyProjectConfig.Iter | sphinx_pyproject/__init__.py:194-196 | iteration yields the project keys in their parse order, then the settings keys in theirs, each key of either map exactly once |
| PyProject.PyProjectConfig.Len | sphinx_pyproject/__init__.py:191-192 | the length is the number of keys iterated |
| PyProject.PyProjectConfig.GetItem | sphinx_pyproject/__init__.py:198-207 | an invalid key is unsupported; a valid key held by the project map gives its project value, one held only by the settings map gives its settings value, and one found in neither map is undefined |
| PyProject.PyProjectConfig.GetAttr | sphinx_pyproject/__init__.py:209-213 | an accessor exactly for `get_<key>` with a valid key, bound to that key; any other name falls through |
| PyProject.PyProjectConfig.Call | sphinx_pyproject/__init__.py:211 | calling an accessor for a valid key succeeds exactly when one of the maps holds the key |
| PyProject.PyProjectConfig.MappingConsistent | sphinx_pyproject/__init__.py:191-207 | a key is iterated exactly when lookup finds it, the value found is the map's, and the length equals the number of keys iterated |
| PyProject.PyProjectConfig.AccessorLooksUp | sphinx_pyproject/__init__.py:209-211 | `get_<key>` for every valid key is the accessor for that key, and calling it is `self[key]` |

## Left out

- Reading the file: `PathPlus` and `dom_toml.load` are I/O. `Load` starts from the already-loaded document, and TOML decoding is not modelled.
- Load: requires `project` and `tool`, when present, to be tables. For other values, Python's `in` and indexing on strings and lists would apply, and the model does not follow that path.
- The module-level `get_*` functions and the `functools.lru_cache` behind them, which re-read the file. Most of them call a `parse_*` method that is modelled, but `get_source_parsers`, `get_html_theme_options` and `get_html_context` index the table directly. The settings getters parse the `[tool.sphinx-pyproject]` sub-table, whereas `PyProjectConfig` parses the whole `[tool]` table; the model covers only the latter.
- `__getattribute__` fall-through in `__getattr__` is represented only as `Ordinary(name)`. Python's attribute machinery is not modelled.
- Error message text and the `repr` of the expected types. Errors keep their kind and, where they have them, path, index and types instead; `Errors.Subject` renders only the quoted name.
- Paths.RenderKey: a non-bare key is wrapped in double quotes without the escaping that the TOML writer applies.
- `dict(...)` and `list(...)` copies in `parse_source_suffix` are modelled as the same value, because values here are immutable.
- The `key.replace('-', '_')` in the method lookup of `parse` is not modelled, because no key of either parser contains a `-`.
- Floating-point values are modelled as reals. No parser inspects them beyond their type.
- The tests under `tests/` exercise a different entry point (`SphinxConfig`, with namespace merging and required name/version/description), which these files do not define; that API is not part of this model.
