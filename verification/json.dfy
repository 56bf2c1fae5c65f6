/**
  Parsed JSON bodies and the few JavaScript operations the pages apply to
  them: property reads, truthiness (`a || b`) and conversion to text
  (template literals, `textContent`, `localStorage.setItem`).
 */
module Json {
  import opened Basics
  import Decimal

  /** A JSON value as `response.json()` yields it; numbers are integral here. */
  datatype Json =
    | JNull
    | JBool(b: bool)
    | JNum(n: int)
    | JStr(s: string)
    | JArr(items: seq<Json>)
    | JObj(fields: map<string, Json>)

  /**
    `v.key` for a non-null `v`; `None` is `undefined`. Reading a property of
    `null` throws a TypeError in JavaScript, so callers test for `JNull` first.
    Only plain property names are read this way (never `length` or an index).
   */
  function Member(v: Json, key: string): (r: Option<Json>)
    requires !v.JNull?
    ensures r.Some? <==> v.JObj? && key in v.fields
    ensures r.Some? ==> r.value == v.fields[key]
  {
    match v
    case JObj(fields) => if key in fields then Some(fields[key]) else None
    case _ => None
  }

  /** JavaScript truthiness of a possibly undefined value. */
  predicate Truthy(v: Option<Json>) {
    match v
    case None => false
    case Some(JNull) => false
    case Some(JBool(b)) => b
    case Some(JNum(n)) => n != 0
    case Some(JStr(s)) => s != ""
    case Some(_) => true
  }

  /** `String(v)`: how a value prints inside a template literal or as `textContent`. */
  function ToText(v: Json): string
    decreases v
  {
    match v
    case JNull => "null"
    case JBool(b) => if b then "true" else "false"
    case JNum(n) => Decimal.IntToDecimal(n)
    case JStr(s) => s
    case JArr(items) =>
      // Array.prototype.toString joins the elements with commas; null prints as nothing.
      JoinWithCommas(seq(|items|, i requires 0 <= i < |items| =>
        if items[i].JNull? then "" else ToText(items[i])))
    case JObj(_) => "[object Object]"
  }

  function JoinWithCommas(parts: seq<string>): string {
    if |parts| == 0 then ""
    else if |parts| == 1 then parts[0]
    else parts[0] + "," + JoinWithCommas(parts[1..])
  }

  /** `v || fallback`, printed: falls back exactly when `v` is falsy. */
  function OrText(v: Option<Json>, fallback: string): (r: string)
    ensures Truthy(v) ==> r == ToText(v.value)
    ensures !Truthy(v) ==> r == fallback
  {
    if Truthy(v) then ToText(v.value) else fallback
  }

  /**
    `String(v)` for a value that may be undefined, which prints as
    "undefined"; it is also what `localStorage.setItem` stores.
   */
  function StringOf(v: Option<Json>): (r: string)
    ensures v.None? ==> r == "undefined"
    ensures v.Some? ==> r == ToText(v.value)
  {
    match v
    case None => "undefined"
    case Some(j) => ToText(j)
  }

  /** V8's TypeError message for reading a property of `null`. */
  function NullReadMessage(key: string): string {
    "Cannot read properties of null (reading '" + key + "')"
  }

  /** On an optional string both a missing value and "" fall back; any other string is kept. */
  lemma OrTextOfString(v: Option<Json>, fallback: string)
    requires v.None? || v.value.JStr?
    ensures OrText(v, fallback) == (if v.Some? && v.value.s != "" then v.value.s else fallback)
  {
  }

  /** Zero, false, null and "" are the falsy JSON values; arrays and objects are always truthy. */
  lemma FalsyJson(j: Json)
    ensures !Truthy(Some(j)) <==> j == JNull || j == JBool(false) || j == JNum(0) || j == JStr("")
  {
  }
}
