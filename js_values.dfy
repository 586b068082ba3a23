/**
 * JavaScript values as they come out of `JSON.parse`, and JavaScript truthiness.
 * Numbers are kept as reals: `JSON.parse` never yields NaN or an infinity.
 */
module JsValues {

  import opened Wrappers

  datatype Json =
    | JNull
    | JBool(b: bool)
    | JNumber(n: real)
    | JString(s: string)
    | JArray(items: seq<Json>)
    | JObject(fields: map<string, Json>)

  /** JavaScript truthiness: null, false, 0 and "" are falsy, arrays and objects are truthy. */
  predicate Truthy(v: Json): (b: bool)
    ensures !b <==> v == JNull || v == JBool(false) || v == JNumber(0.0) || v == JString("")
  {
    match v
    case JNull => false
    case JBool(b) => b
    case JNumber(n) => n != 0.0
    case JString(s) => s != ""
    case JArray(_) => true
    case JObject(_) => true
  }

  /**
   * Property read `v.key` on a value that is not null: an object yields its own
   * field, every other kind of value yields undefined (None) for the keys read here.
   */
  function Property(v: Json, key: string): (r: Option<Json>)
    ensures r.Some? <==> v.JObject? && key in v.fields
    ensures r.Some? ==> r.value == v.fields[key]
  {
    match v
    case JObject(fields) => if key in fields then Some(fields[key]) else None
    case _ => None
  }

  /** `x || fallback` where x is a property read that may be undefined. */
  function OrElse(x: Option<Json>, fallback: Json): (r: Json)
    ensures r == fallback || (x.Some? && r == x.value)
    ensures x.Some? && Truthy(x.value) ==> r == x.value
    ensures (x.None? || !Truthy(x.value)) ==> r == fallback
  {
    if x.Some? && Truthy(x.value) then x.value else fallback
  }
}
