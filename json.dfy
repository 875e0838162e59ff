/**
 * The generic JSON document that serde_json uses as its intermediate form
 * (`serde_json::Value`). Numbers are kept as integers: every number the
 * modelled code inspects is an integer.
 */
module Json {

  datatype Value =
    | Null
    | Bool(b: bool)
    | Number(n: int)
    | Str(s: string)
    | Array(items: seq<Value>)
    | Object(fields: map<string, Value>)

  /** A JSON object's member list, as `serde_json::Map<String, Value>`. */
  type Members = map<string, Value>
}
