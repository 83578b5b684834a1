/** The values that cross the backend's boundaries: an optional value, a
    parsed JSON value with JavaScript's truthiness, and the HTTP reply a route
    handler sends. */
module Values {

  datatype Option<+T> = None | Some(value: T)

  /** Numbers are modelled as integers. An object is a map from keys to
      values (key order is not modelled). */
  datatype Json =
    | Null
    | Bool(b: bool)
    | Num(n: int)
    | Str(s: string)
    | Arr(items: seq<Json>)
    | Obj(fields: map<string, Json>)

  /** Property access `v.key` on a value that is not `null`: the field of an
      object, and `undefined` (None) for every other value or a missing key. */
  function Member(v: Json, key: string): (r: Option<Json>)
    requires v != Null
    ensures r.Some? <==> v.Obj? && key in v.fields
    ensures r.Some? ==> r.value == v.fields[key]
  {
    if v.Obj? && key in v.fields then Some(v.fields[key]) else None
  }

  /** JavaScript truthiness of a possibly `undefined` value: `undefined`,
      `null`, `false`, `0` and `""` are falsy; arrays and objects, even empty
      ones, are truthy. */
  predicate Truthy(v: Option<Json>) {
    match v
    case None => false
    case Some(Null) => false
    case Some(Bool(b)) => b
    case Some(Num(n)) => n != 0
    case Some(Str(s)) => s != ""
    case Some(Arr(_)) => true
    case Some(Obj(_)) => true
  }

  /** `x || fallback` for a string field of a request body. */
  function OrDefault(x: Option<string>, fallback: string): (r: string)
    ensures x.Some? && x.value != "" ==> r == x.value
    ensures x.None? || x.value == "" ==> r == fallback
  {
    if x.Some? && x.value != "" then x.value else fallback
  }

  /** What a route handler sends: a status with a payload, or a status with
      the `{ error: message }` body. */
  datatype Reply<+T> = Ok(status: int, value: T) | Err(status: int, message: string)

  /** A step of a handler that either yields a value or ends the request
      with a status and an error message. */
  datatype Checked<+T> = Pass(value: T) | Fail(status: int, message: string)

  const InternalError: string := "Internal server error"

  /** `error.message || 'Internal server error'`. */
  function ErrorText(message: string): (r: string)
    ensures r != ""
    ensures message != "" ==> r == message
  {
    if message != "" then message else InternalError
  }
}
