/** Raw bytes and the parsed JSON values that end up in a log record. */
module Json {

  newtype byte = b: int | 0 <= b < 256

  type Bytes = seq<byte>

  /** A value of Go's `any` as `encoding/json` produces it. */
  datatype Json =
    | JNull
    | JBool(b: bool)
    | JNumber(text: string)
    | JString(s: string)
    | JArray(items: seq<Json>)
    | JObject(fields: map<string, Json>)

  /** Go's `map[string]any`. */
  type JsonObject = map<string, Json>
}
