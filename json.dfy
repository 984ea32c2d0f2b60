/**
 * The payloads a socket.io client sends, as the Python handlers see them
 * once the transport has decoded the JSON: `None`, booleans, integers,
 * strings, lists and dicts.
 */
module Json {

  datatype Value =
    | Null
    | Bool(b: bool)
    | Int(i: int)
    | Str(s: string)
    | Arr(items: seq<Value>)
    | Obj(fields: map<string, Value>)

  /** Python truthiness, as used by `if target_id:`. */
  predicate Truthy(v: Value)
  {
    match v
    case Null => false
    case Bool(b) => b
    case Int(i) => i != 0
    case Str(s) => s != ""
    case Arr(items) => items != []
    case Obj(fields) => fields != map[]
  }

  /** Lists and dicts are unhashable in Python: they cannot key a dict. */
  predicate Hashable(v: Value)
  {
    !v.Arr? && !v.Obj?
  }

  /** `d.get(key)` on a dict: `None` when the key is missing. */
  function Get(fields: map<string, Value>, key: string): Value
  {
    if key in fields then fields[key] else Null
  }
}
