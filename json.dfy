/**
 * JSON values as the backend hands them to and receives them from the network,
 * with JavaScript's truthiness, which the `||` fallbacks of the source rely on.
 */
module Json {

  datatype Json =
    | JNull
    | JBool(b: bool)
    | JNumber(n: real)
    | JString(s: string)
    | JArray(items: seq<Json>)
    | JObject(members: seq<(string, Json)>)

  /** JavaScript truthiness of a JSON value: null, false, 0 and "" are falsy; arrays and objects never are. */
  predicate Truthy(j: Json)
  {
    match j
    case JNull => false
    case JBool(b) => b
    case JNumber(n) => n != 0.0
    case JString(s) => s != ""
    case JArray(_) => true
    case JObject(_) => true
  }

  /** The value of the first member named `key` of an object; null when there is none (JavaScript reads `undefined`). */
  function Member(j: Json, key: string): (r: Json)
  {
    match j
    case JObject(ms) => Lookup(ms, key)
    case _ => JNull
  }

  function Lookup(ms: seq<(string, Json)>, key: string): (r: Json)
    ensures r != JNull ==> exists i :: 0 <= i < |ms| && ms[i] == (key, r)
  {
    if ms == [] then JNull
    else if ms[0].0 == key then ms[0].1
    else Lookup(ms[1..], key)
  }
}
