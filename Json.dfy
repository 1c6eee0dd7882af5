/** Values as the router receives them in JSON request bodies and finds them in a record's `meta`. */
module Json {

  datatype Option<+T> = None | Some(value: T)

  datatype Result<+T, +E> = Ok(value: T) | Err(error: E)

  /** A JSON value. Floating-point numbers are not modelled: numbers are integers. */
  datatype Value =
    | Null
    | Bool(b: bool)
    | Num(n: int)
    | Str(s: string)
    | List(items: seq<Value>)
    | Obj(fields: map<string, Value>)

  /** Python's `set(...)` accepts only hashable elements; decoded lists and dicts are not hashable. */
  predicate Hashable(v: Value) {
    !v.List? && !v.Obj?
  }
}
