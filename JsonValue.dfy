/**
 * A decoded JSON value, the shape `encoding/json` produces when it decodes into
 * `interface{}`: objects become string-keyed maps, numbers keep their literal text.
 */
module JsonValue {

  datatype Json =
    | JNull
    | JBool(b: bool)
    | JNumber(literal: string)
    | JString(s: string)
    | JArray(items: seq<Json>)
    | JObject(fields: map<string, Json>)
}
