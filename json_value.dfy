/**
 * The JSON value the serialised forms are built from and read back out of.
 * It stands for `serde_json::Value`: an object is a map from keys to values
 * (serde_json keeps objects in a key-ordered map by default), so two objects
 * are equal exactly when they hold the same entries, whatever order they were
 * written in. Numbers are kept as integers; none of the error types writes one.
 */
module JsonValue {

  datatype Json =
    | JNull
    | JBool(b: bool)
    | JNumber(n: int)
    | JString(str: string)
    | JArray(items: seq<Json>)
    | JObject(fields: map<string, Json>)
}
