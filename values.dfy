/** Values shared by the client script and the server views: optional and
    failing results, bytes, and the JSON values the server sends back. */
module Values {

  /** `null`/`undefined` against a present value. */
  datatype Option<+T> = None | Some(value: T)

  /** A computation that either yields a value or raises an exception whose
      text (`str(e)` in Python, `error.message` in JavaScript) is `message`. */
  datatype Result<+T> = Ok(value: T) | Err(message: string)

  newtype Byte = b: int | 0 <= b < 256

  /** A parsed JSON value as `response.json()` hands it to the script. JSON
      numbers arrive as doubles; they are kept here as reals. */
  datatype Json =
    | JNull
    | JBool(b: bool)
    | JNum(n: real)
    | JStr(s: string)
    | JArr(elems: seq<Json>)
    | JObj(fields: map<string, Json>)

  /** A JSON object, read with `data.key`: a missing key reads as `undefined`. */
  type JsonObject = map<string, Json>

  /** `data.key`, with `undefined` as `None`. */
  function Field(data: JsonObject, key: string): (v: Option<Json>)
    ensures v.Some? <==> key in data
    ensures v.Some? ==> v.value == data[key]
  {
    if key in data then Some(data[key]) else None
  }

  /** JavaScript truthiness of a value read from a JSON object: `undefined`,
      `null`, `false`, `0`, `-0` and `""` are falsy, everything else (arrays
      and objects included, even empty ones) is truthy. `NaN` cannot come out
      of JSON. */
  predicate Truthy(v: Option<Json>) {
    match v
    case None => false
    case Some(JNull) => false
    case Some(JBool(b)) => b
    case Some(JNum(n)) => n != 0.0
    case Some(JStr(s)) => s != ""
    case Some(JArr(_)) => true
    case Some(JObj(_)) => true
  }

  /** `data.key === tag` for a string tag: strict equality holds only for a
      JSON string with exactly those characters. */
  predicate HasTag(data: JsonObject, key: string, tag: string) {
    key in data && data[key] == JStr(tag)
  }
}
