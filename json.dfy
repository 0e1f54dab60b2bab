/**
 * JSON values as `json.loads` returns them (objects become dicts, arrays lists).
 * Numbers are integers only: the report never stores fractional numbers itself.
 */
module JsonValue {

  datatype Json =
    | JNull
    | JBool(b: bool)
    | JNum(n: int)
    | JStr(s: string)
    | JArray(items: seq<Json>)
    | JObject(fields: map<string, Json>)

  /** A JSON object as a Python dict, such as the patient record. */
  type Record = map<string, Json>
}
