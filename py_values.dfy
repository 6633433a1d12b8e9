/** The Python values a lock id may be, with the type tests the constructor makes
    (Python 3: `six.integer_types` is `(int,)`, `six.string_types` is `(str,)`). */
module PyValues {
  datatype Value =
    | Int(i: int)
    | Bool(b: bool)
    | Str(s: string)
    | List(items: seq<Value>)
    | Tuple(items: seq<Value>)
      /** Any other object: a float, None, bytes, a dict, ... */
    | Other(typeName: string)

  /** `isinstance(v, int)`; `bool` is a subclass of `int`. */
  predicate IsInteger(v: Value) {
    v.Int? || v.Bool?
  }

  /** The integer an integer value stands for (`True` is 1, `False` is 0). */
  function IntValue(v: Value): int
    requires IsInteger(v)
  {
    match v
    case Int(i) => i
    case Bool(b) => if b then 1 else 0
  }

  /** `isinstance(v, (list, tuple))`. */
  predicate IsListOrTuple(v: Value) {
    v.List? || v.Tuple?
  }

  /** `isinstance(v, str)`. */
  predicate IsString(v: Value) {
    v.Str?
  }
}
