/**
 * Values of an already-loaded TOML document, and the Python values the
 * parsers hand back.  `Null` stands for Python's None, which TOML itself
 * cannot express; the parsers produce it for an author without a name.
 */
module Values {

  datatype Value =
    | Str(s: string)
    | Int(i: int)
    | Bool(b: bool)
    | Float(f: real)
    | DateTime(text: string)
    | Array(items: seq<Value>)
    | Table(entries: map<string, Value>)
    | Null

  /** A TOML table as a parser receives it: key to value. */
  type Config = map<string, Value>

  /** The Python type of a value, as `type(obj)` reports it. */
  datatype PyType = StrType | IntType | BoolType | FloatType | DateTimeType | ListType | DictType | NoneType

  function TypeOf(v: Value): PyType {
    match v
    case Str(_) => StrType
    case Int(_) => IntType
    case Bool(_) => BoolType
    case Float(_) => FloatType
    case DateTime(_) => DateTimeType
    case Array(_) => ListType
    case Table(_) => DictType
    case Null => NoneType
  }

  /** `isinstance(v, t)`; in Python `bool` is a subclass of `int`. */
  predicate InstanceOf(v: Value, t: PyType) {
    TypeOf(v) == t || (t == IntType && v.Bool?)
  }

  /** `isinstance(v, expected)` for a tuple of types. */
  predicate IsInstance(v: Value, expected: seq<PyType>) {
    exists i :: 0 <= i < |expected| && InstanceOf(v, expected[i])
  }

  lemma IsInstanceStr(v: Value)
    ensures IsInstance(v, [StrType]) <==> v.Str?
  {
    if v.Str? { assert InstanceOf(v, [StrType][0]); }
  }

  lemma IsInstanceBool(v: Value)
    ensures IsInstance(v, [BoolType]) <==> v.Bool?
  {
    if v.Bool? { assert InstanceOf(v, [BoolType][0]); }
  }

  lemma IsInstanceStrOrInt(v: Value)
    ensures IsInstance(v, [StrType, IntType]) <==> v.Str? || v.Int? || v.Bool?
  {
    if v.Str? { assert InstanceOf(v, [StrType, IntType][0]); }
    if v.Int? || v.Bool? { assert InstanceOf(v, [StrType, IntType][1]); }
  }
}
