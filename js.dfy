/** JavaScript values as the front end and the proxy see them: parsed JSON,
    truthiness, property access and the length of a string in UTF-16 code
    units. Shared by the client form and the proxy route. */
module Js {

  datatype Option<+T> = None | Some(value: T)

  /** A value produced by `JSON.parse` (numbers as reals; JSON has no NaN). */
  datatype Json =
    | JNull
    | JBool(b: bool)
    | JNum(n: real)
    | JStr(s: string)
    | JArr(items: seq<Json>)
    | JObj(fields: map<string, Json>)

  /** JavaScript truthiness of a JSON value: `null`, `false`, `0` and `""` are falsy. */
  predicate Truthy(v: Json) {
    match v
    case JNull => false
    case JBool(b) => b
    case JNum(n) => n != 0.0
    case JStr(s) => s != ""
    case JArr(_) => true
    case JObj(_) => true
  }

  /** The outcome of reading `v.key`: reading a property of `null` throws a
      TypeError; a missing property reads as `undefined`. */
  datatype Access = TypeError | Undefined | Value(v: Json)

  /** `v.key` for a key that no built-in prototype defines (such as "text",
      "subject" or "error"): only an object's own fields are seen. */
  function Property(v: Json, key: string): (a: Access)
    ensures a.TypeError? <==> v.JNull?
    ensures a.Value? <==> v.JObj? && key in v.fields
    ensures a.Value? ==> a.v == v.fields[key]
  {
    match v
    case JNull => TypeError
    case JObj(m) => if key in m then Value(m[key]) else Undefined
    case _ => Undefined
  }

  /** `a || fallback` for a property read that did not throw. */
  function OrElse(a: Access, fallback: Json): Json
    requires !a.TypeError?
  {
    if a.Value? && Truthy(a.v) then a.v else fallback
  }

  /** `s.length`: JavaScript strings count UTF-16 code units, so a character
      outside the Basic Multilingual Plane counts twice. */
  function Utf16Length(s: string): (n: nat)
    ensures |s| <= n <= 2 * |s|
    ensures n == 0 <==> s == ""
  {
    if s == [] then 0 else (if s[0] as int > 0xFFFF then 2 else 1) + Utf16Length(s[1..])
  }

  /** What an awaited `fetch` delivers: it rejects (network failure), or a
      response arrives with a status and a body for which `response.json()`
      either resolves (`Some`) or rejects (`None`). */
  datatype FetchOutcome =
    | Threw
    | Responded(status: int, body: Option<Json>)

  /** `response.ok`: the status is in the range 200 to 299. */
  predicate IsOk(status: int) {
    200 <= status <= 299
  }
}
