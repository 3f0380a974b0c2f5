/** Metadata records as json.load builds them: Python dictionaries, lists and
    scalars. A record is a value here; json.load never shares one dictionary
    between two places, so updating a dictionary in place and building the
    updated value are indistinguishable for the callers in this model. */
module Json {

  datatype Option<T> = None | Some(value: T)

  /** One JSON value. Numbers are reals; JSON gives no other distinction. */
  datatype Value =
    | Null
    | Bool(b: bool)
    | Number(r: real)
    | Str(s: string)
    | Array(items: seq<Value>)
    | Object(fields: map<string, Value>)

  /** A Python dictionary loaded from JSON. */
  type Dict = map<string, Value>

  /** Python truthiness, as `if not x` tests it. */
  predicate Truthy(v: Value)
  {
    match v
    case Null => false
    case Bool(b) => b
    case Number(r) => r != 0.0
    case Str(s) => s != ""
    case Array(items) => items != []
    case Object(fields) => fields != map[]
  }

  /** `d.get(key, default)`. */
  function Get(d: Dict, key: string, default: Value): Value
  {
    if key in d then d[key] else default
  }
}
