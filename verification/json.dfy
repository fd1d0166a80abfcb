/**
  A decoded JSON document, as `json.loads` returns it: the decoder itself is not
  modelled, only the shape of what it yields.
*/
module JsonValue {
  import opened Outcomes

  datatype Json =
    | JNull
    | JBool(b: bool)
    | JNumber(n: real)
    | JString(s: string)
    | JArray(items: seq<Json>)
    | JObject(fields: map<string, Json>)

  /** `d.get(key)` on a decoded object: `None` when the key is absent. */
  function Get(fields: map<string, Json>, key: string): Option<Json> {
    if key in fields then Some(fields[key]) else None
  }
}
