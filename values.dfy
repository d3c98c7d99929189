/** Optional values and the metadata values a vector-index record carries. */
module Values {

  datatype Option<T> = None | Some(value: T)

  /** A metadata value: the index stores strings and integers. */
  datatype Value = Str(s: string) | Int(i: int)

  /** The metadata of one index record. */
  type Meta = map<string, Value>

  /** Python truthiness of a stored value. */
  predicate Truthy(v: Value) {
    match v
    case Str(s) => s != ""
    case Int(i) => i != 0
  }

  /** `meta.get(key)`: the stored value, or None when the key is missing. */
  function Get(m: Meta, key: string): Option<Value> {
    if key in m then Some(m[key]) else None
  }

  /** Python's `a or b` over optional values: `a` when it is present and truthy, else `b`. */
  function Or(a: Option<Value>, b: Option<Value>): Option<Value> {
    if a.Some? && Truthy(a.value) then a else b
  }
}
