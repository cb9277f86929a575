/**
 * The JavaScript values the extension handles, restricted to what `JSON.parse`
 * can produce, together with the two pieces of JavaScript semantics the core
 * leans on: truthiness and property reads.
 */
module JsValues {
  import opened Wrappers

  /** A value produced by `JSON.parse`. Objects are key/value maps (a later
      duplicate key wins in `JSON.parse`, so a map loses nothing). */
  datatype Json =
    | JNull
    | JBool(b: bool)
    | JNumber(n: real)
    | JString(s: string)
    | JArray(items: seq<Json>)
    | JObject(fields: map<string, Json>)

  /** The only exception the modelled code can raise by itself. */
  datatype JsError = TypeError

  /** JavaScript truthiness of a JSON value: `null`, `false`, `0` and `""` are falsy. */
  predicate Truthy(v: Json) {
    match v
    case JNull => false
    case JBool(b) => b
    case JNumber(n) => n != 0.0
    case JString(s) => s != ""
    case JArray(_) => true
    case JObject(_) => true
  }

  /** Truthiness of a property read, where `None` stands for `undefined`. */
  predicate TruthyProp(v: Option<Json>) {
    v.Some? && Truthy(v.value)
  }

  /** `v[key]`: reading a property of `null` throws; objects look the key up;
      every other JSON value has none of the keys the core reads. */
  function Prop(v: Json, key: string): (r: Result<Option<Json>, JsError>)
    ensures r.Failure? <==> v.JNull?
    ensures r.Success? && r.value.Some? ==> v.JObject? && key in v.fields && r.value.value == v.fields[key]
    ensures v.JObject? && key in v.fields ==> r == Success(Some(v.fields[key]))
  {
    match v
    case JNull => Failure(TypeError)
    case JObject(m) => Success(if key in m then Some(m[key]) else None)
    case _ => Success(None)
  }

  /** `a || b` where `a` is a property read and `b` a default. */
  function OrElse(a: Option<Json>, b: Json): (r: Json)
    ensures TruthyProp(a) ==> r == a.value
    ensures !TruthyProp(a) ==> r == b
  {
    if TruthyProp(a) then a.value else b
  }
}
