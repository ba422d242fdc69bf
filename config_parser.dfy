/**
 * `AbstractConfigParser`: the type assertions shared by the concrete parsers
 * and the generic key-driven `parse`.  Where Python looks up a method named
 * `parse_<key>` by reflection, a schema here carries an explicit table from key
 * to handler; a key with no entry in that table is passed through.
 */
module ConfigParser {
  import opened Wrappers
  import opened Values
  import opened Errors

  /** `assert_type`: passes exactly when `obj` is an instance of one of `expected`. */
  function AssertType(obj: Value, expected: seq<PyType>, path: seq<string>, what: Role): (r: Outcome<ConfigError>)
    ensures r.Pass? <==> IsInstance(obj, expected)
    ensures r.Fail? ==> r.error == InvalidType(what, path, None, expected, TypeOf(obj))
  {
    if IsInstance(obj, expected) then Pass else Fail(InvalidType(what, path, None, expected, TypeOf(obj)))
  }

  /** `assert_indexed_type`: as `assert_type`, for element `idx` of an array. */
  function AssertIndexedType(obj: Value, expected: seq<PyType>, path: seq<string>, idx: nat): (r: Outcome<ConfigError>)
    ensures r.Pass? <==> IsInstance(obj, expected)
    ensures r.Fail? ==> r.error == InvalidType(TypeRole, path, Some(idx), expected, TypeOf(obj))
  {
    if IsInstance(obj, expected) then Pass else Fail(InvalidType(TypeRole, path, Some(idx), expected, TypeOf(obj)))
  }

  /** `assert_key_type`: `assert_type` reporting a key type. */
  function AssertKeyType(obj: Value, expected: seq<PyType>, path: seq<string>): (r: Outcome<ConfigError>)
    ensures r.Pass? <==> IsInstance(obj, expected)
    ensures r.Fail? ==> r.error == InvalidType(KeyTypeRole, path, None, expected, TypeOf(obj))
  {
    AssertType(obj, expected, path, KeyTypeRole)
  }

  /** `assert_value_type`: `assert_type` reporting a value type. */
  function AssertValueType(obj: Value, expected: seq<PyType>, path: seq<string>): (r: Outcome<ConfigError>)
    ensures r.Pass? <==> IsInstance(obj, expected)
    ensures r.Fail? ==> r.error == InvalidType(ValueTypeRole, path, None, expected, TypeOf(obj))
  {
    AssertType(obj, expected, path, ValueTypeRole)
  }

  predicate Distinct(s: seq<string>) {
    forall i, j :: 0 <= i < j < |s| ==> s[i] != s[j]
  }

  /** A Python dict: its keys in insertion order and the value of each. */
  datatype Dict = Dict(keys: seq<string>, values: map<string, Value>) {

    ghost predicate Valid() {
      Distinct(keys) && forall k :: k in values <==> k in keys
    }

    /** `d[k] = v`: a new key goes last, an existing key keeps its place. */
    function Put(k: string, v: Value): (r: Dict)
      ensures r.values == values[k := v]
      ensures k in values ==> r.keys == keys
      ensures k !in values ==> r.keys == keys + [k]
      ensures Valid() ==> r.Valid()
    {
      Dict(if k in values then keys else keys + [k], values[k := v])
    }
  }

  const EmptyDict := Dict([], map[])

  /** A `parse_<key>` method: it receives the whole table. */
  type Handler = Config -> Result<Value, ConfigError>

  /** A concrete parser: its ordered `keys` and its `parse_<key>` methods. */
  datatype Schema = Schema(keys: seq<string>, handlers: map<string, Handler>)

  /** The keys of `keys` that `config` holds, in the order of `keys`. */
  function PresentKeys(keys: seq<string>, config: Config): (r: seq<string>)
    ensures forall k :: k in r <==> k in keys && k in config
    ensures Distinct(keys) ==> Distinct(r)
  {
    if keys == [] then []
    else
      var rest := PresentKeys(keys[1..], config);
      assert forall k :: k in keys <==> k == keys[0] || k in keys[1..];
      if keys[0] in config then [keys[0]] + rest else rest
  }

  /** When `config` holds none of `keys`, no key is present. */
  lemma {:induction false} PresentKeysNone(keys: seq<string>, config: Config)
    requires forall k :: k in config ==> k !in keys
    ensures PresentKeys(keys, config) == []
  {
    if keys != [] {
      assert keys[0] !in config;
      PresentKeysNone(keys[1..], config);
    }
  }

  /** What `parse` stores under a key that `config` holds. */
  predicate ParsedAs(schema: Schema, config: Config, k: string, v: Value)
    requires k in config
  {
    if k in schema.handlers then schema.handlers[k](config) == Success(v) else v == config[k]
  }

  /** The loop of `parse` from position `i` on, with `acc` built so far. */
  function ParseFrom(schema: Schema, config: Config, i: nat, acc: Dict): Result<Dict, ConfigError>
    requires i <= |schema.keys|
    decreases |schema.keys| - i
  {
    if i == |schema.keys| then Success(acc)
    else
      var key := schema.keys[i];
      if key !in config then ParseFrom(schema, config, i + 1, acc)
      else if key in schema.handlers then
        match schema.handlers[key](config)
        case Failure(e) => Failure(e)
        case Success(v) => ParseFrom(schema, config, i + 1, acc.Put(key, v))
      else ParseFrom(schema, config, i + 1, acc.Put(key, config[key]))
  }

  /** The specification of `parse`. */
  function Parsed(schema: Schema, config: Config): Result<Dict, ConfigError> {
    ParseFrom(schema, config, 0, EmptyDict)
  }

  /** `parse`: walks the keys in order, skipping absent ones, dispatching handled ones, copying the rest. */
  method Parse(schema: Schema, config: Config) returns (r: Result<Dict, ConfigError>)
    ensures r == Parsed(schema, config)
  {
    var parsed := EmptyDict;
    for i := 0 to |schema.keys|
      invariant ParseFrom(schema, config, i, parsed) == Parsed(schema, config)
    {
      var key := schema.keys[i];
      if key !in config {
        // absent keys are ignored
      } else if key in schema.handlers {
        var v := schema.handlers[key](config);
        if v.Failure? {
          return Failure(v.error);
        }
        parsed := parsed.Put(key, v.value);
      } else {
        parsed := parsed.Put(key, config[key]);
      }
    }
    return Success(parsed);
  }

  /** The first of the keys from `i` on is distinct from the rest. */
  lemma SplitKeys(keys: seq<string>, i: nat)
    requires i < |keys| && Distinct(keys)
    ensures keys[i..] == [keys[i]] + keys[i + 1..]
    ensures keys[i] !in keys[i + 1..]
    ensures forall k :: k in keys[i..] <==> k == keys[i] || k in keys[i + 1..]
  {
  }

  lemma {:induction false} ParseFromKeys(schema: Schema, config: Config, i: nat, acc: Dict)
    requires i <= |schema.keys| && Distinct(schema.keys)
    requires forall k :: k in acc.values <==> k in acc.keys
    requires forall k :: k in acc.values ==> k !in schema.keys[i..]
    ensures var r := ParseFrom(schema, config, i, acc);
      r.Success? ==>
        && r.value.keys == acc.keys + PresentKeys(schema.keys[i..], config)
        && (forall k :: k in r.value.values <==> k in acc.values || (k in schema.keys[i..] && k in config))
    decreases |schema.keys| - i
  {
    if i == |schema.keys| {
      assert schema.keys[i..] == [];
    } else {
      var key := schema.keys[i];
      SplitKeys(schema.keys, i);
      if key !in config {
        ParseFromKeys(schema, config, i + 1, acc);
      } else {
        var v := if key in schema.handlers then schema.handlers[key](config) else Success(config[key]);
        if v.Success? {
          ParseFromKeys(schema, config, i + 1, acc.Put(key, v.value));
          assert acc.keys + [key] + PresentKeys(schema.keys[i + 1..], config)
              == acc.keys + PresentKeys(schema.keys[i..], config);
        }
      }
    }
  }

  lemma {:induction false} ParseFromValues(schema: Schema, config: Config, i: nat, acc: Dict)
    requires i <= |schema.keys| && Distinct(schema.keys)
    ensures var r := ParseFrom(schema, config, i, acc);
      r.Success? ==>
        && (forall k :: k in acc.values && k !in schema.keys[i..] ==> k in r.value.values && r.value.values[k] == acc.values[k])
        && (forall k :: k in schema.keys[i..] && k in config ==>
              k in r.value.values && ParsedAs(schema, config, k, r.value.values[k]))
    decreases |schema.keys| - i
  {
    if i < |schema.keys| {
      var key := schema.keys[i];
      SplitKeys(schema.keys, i);
      if key !in config {
        ParseFromValues(schema, config, i + 1, acc);
      } else {
        var v := if key in schema.handlers then schema.handlers[key](config) else Success(config[key]);
        if v.Success? {
          ParseFromValues(schema, config, i + 1, acc.Put(key, v.value));
        }
      }
    }
  }

  /**
   * `parse` returns exactly the keys of `keys` present in the input, in order,
   * with no defaults added; a handled key holds its handler's result and any
   * other key holds its input value unchanged.
   */
  lemma ParsedKeys(schema: Schema, config: Config)
    requires Distinct(schema.keys)
    ensures var r := Parsed(schema, config);
      r.Success? ==>
        && r.value.Valid()
        && r.value.keys == PresentKeys(schema.keys, config)
        && (forall k :: k in r.value.values <==> k in schema.keys && k in config)
        && (forall k :: k in r.value.values ==> ParsedAs(schema, config, k, r.value.values[k]))
  {
    assert schema.keys[0..] == schema.keys;
    ParseFromKeys(schema, config, 0, EmptyDict);
    ParseFromValues(schema, config, 0, EmptyDict);
  }

  lemma {:induction false} ParseFromSucceeds(schema: Schema, config: Config, i: nat, acc: Dict)
    requires i <= |schema.keys|
    ensures ParseFrom(schema, config, i, acc).Success? <==>
      forall j :: i <= j < |schema.keys| && schema.keys[j] in config && schema.keys[j] in schema.handlers ==>
        schema.handlers[schema.keys[j]](config).Success?
    decreases |schema.keys| - i
  {
    if i < |schema.keys| {
      var key := schema.keys[i];
      if key !in config {
        ParseFromSucceeds(schema, config, i + 1, acc);
      } else if key in schema.handlers {
        match schema.handlers[key](config)
        case Failure(e) =>
        case Success(v) => ParseFromSucceeds(schema, config, i + 1, acc.Put(key, v));
      } else {
        ParseFromSucceeds(schema, config, i + 1, acc.Put(key, config[key]));
      }
    }
  }

  /** `parse` succeeds exactly when every handler it dispatches to succeeds. */
  lemma ParsedSucceeds(schema: Schema, config: Config)
    ensures Parsed(schema, config).Success? <==>
      forall k :: k in schema.keys && k in config && k in schema.handlers ==> schema.handlers[k](config).Success?
  {
    ParseFromSucceeds(schema, config, 0, EmptyDict);
  }

  lemma {:induction false} ParseFromFailsFirst(schema: Schema, config: Config, i: nat, acc: Dict)
    requires i <= |schema.keys|
    ensures ParseFrom(schema, config, i, acc).Failure? ==>
      exists j :: i <= j < |schema.keys| && schema.keys[j] in config && schema.keys[j] in schema.handlers
        && schema.handlers[schema.keys[j]](config) == Failure(ParseFrom(schema, config, i, acc).error)
        && forall j' :: i <= j' < j && schema.keys[j'] in config && schema.keys[j'] in schema.handlers ==>
             schema.handlers[schema.keys[j']](config).Success?
    decreases |schema.keys| - i
  {
    if i < |schema.keys| {
      var key := schema.keys[i];
      if key !in config {
        ParseFromFailsFirst(schema, config, i + 1, acc);
      } else if key in schema.handlers {
        match schema.handlers[key](config)
        case Failure(e) =>
        case Success(v) => ParseFromFailsFirst(schema, config, i + 1, acc.Put(key, v));
      } else {
        ParseFromFailsFirst(schema, config, i + 1, acc.Put(key, config[key]));
      }
    }
  }

  /** `parse` fails fast: its error is that of the first present key whose handler fails. */
  lemma ParsedFailsFirst(schema: Schema, config: Config)
    ensures Parsed(schema, config).Failure? ==>
      exists j :: 0 <= j < |schema.keys| && schema.keys[j] in config && schema.keys[j] in schema.handlers
        && schema.handlers[schema.keys[j]](config) == Failure(Parsed(schema, config).error)
        && forall j' :: 0 <= j' < j && schema.keys[j'] in config && schema.keys[j'] in schema.handlers ==>
             schema.handlers[schema.keys[j']](config).Success?
  {
    ParseFromFailsFirst(schema, config, 0, EmptyDict);
  }
}
