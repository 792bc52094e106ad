/** Values shared by the server and the client models: optional and failing
    results, and the few JavaScript values the application passes around. */
module Values {

  datatype Option<+T> = None | Some(value: T)

  datatype Result<+T, +E> = Ok(value: T) | Err(error: E)

  /** A JavaScript value as far as this application uses one: no nested
      objects, no arrays, and integers in place of IEEE doubles. */
  datatype JsValue = Undefined | Null | Bool(b: bool) | Num(n: int) | Str(s: string)

  /** A plain JavaScript object: property name to value. */
  type Obj = map<string, JsValue>

  /** JavaScript truthiness: `undefined`, `null`, `false`, `0` and `''` are falsy. */
  predicate Truthy(v: JsValue)
  {
    match v
    case Undefined => false
    case Null => false
    case Bool(b) => b
    case Num(n) => n != 0
    case Str(s) => s != ""
  }

  /** Reading a property: an absent property reads as `undefined`. */
  function Prop(o: Obj, key: string): JsValue
  {
    if key in o then o[key] else Undefined
  }

  /** A string field of a request body is either absent or a string; it is
      truthy when present and non-empty. */
  predicate Given(field: Option<string>)
  {
    field.Some? && field.value != ""
  }
}
