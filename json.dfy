/**
 * Untyped values as they come out of JSON decoding: the shape the migration
 * engine works on. An absent object key stands for JavaScript `undefined`.
 */
module Json {
  import opened Wrappers

  /** A decoded JSON value; numbers are integers in this model. */
  datatype Json =
    | JNull
    | JBool(b: bool)
    | JNum(n: int)
    | JStr(s: string)
    | JArr(items: seq<Json>)
    | JObj(fields: map<string, Json>)

  /** A stored record: a JSON object. */
  type Record = map<string, Json>

  /** JavaScript truthiness of a present value. */
  predicate Truthy(j: Json) {
    match j
    case JNull => false
    case JBool(b) => b
    case JNum(n) => n != 0
    case JStr(s) => s != []
    case JArr(_) => true
    case JObj(_) => true
  }

  /** Decimal rendering of a natural number. */
  function NatToString(n: nat): (r: string)
    ensures |r| > 0
    decreases n
  {
    var d := ['0', '1', '2', '3', '4', '5', '6', '7', '8', '9'][n % 10];
    if n < 10 then [d] else NatToString(n / 10) + [d]
  }

  /** `String(n)` for an integer number. */
  function NumberToString(n: int): (r: string)
    ensures |r| > 0
  {
    if n < 0 then "-" + NatToString(-n) else NatToString(n)
  }

  /** `parts.join(',')`. */
  function JoinComma(parts: seq<string>): string {
    if |parts| == 0 then []
    else if |parts| == 1 then parts[0]
    else parts[0] + "," + JoinComma(parts[1..])
  }

  /** `String(x)` for a present value. */
  function JsString(j: Json): string
    decreases j, 0
  {
    match j
    case JNull => "null"
    case JBool(b) => if b then "true" else "false"
    case JNum(n) => NumberToString(n)
    case JStr(s) => s
    case JArr(items) => JoinComma(seq(|items|, i requires 0 <= i < |items| => Coerce(items[i])))
    case JObj(_) => "[object Object]"
  }

  /**
   * `typeof x === 'string' ? x : String(x ?? '')`: a string stays as it is,
   * null becomes '' and anything else is rendered with `String`.
   */
  function Coerce(j: Json): (r: string)
    ensures j.JStr? ==> r == j.s
    decreases j, 1
  {
    if j.JNull? then "" else JsString(j)
  }

  /** `obj.key` on a value that may be absent or not an object. */
  function Field(j: Json, key: string): (r: Option<Json>)
    ensures r.Some? <==> j.JObj? && key in j.fields
  {
    if j.JObj? && key in j.fields then Some(j.fields[key]) else None
  }
}
