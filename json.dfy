/**
  An already-parsed JSON document, as Go's encoding/json sees it when it
  decodes into interface{} values. Numbers are abstracted to integers: the
  core never looks at a number's value.
 */
module Json {

  import opened Results

  datatype Json =
    | JNull
    | JBool(b: bool)
    | JNumber(n: int)
    | JString(s: string)
    | JArray(items: seq<Json>)
    | JObject(fields: map<string, Json>)

  /** A site record: Go's map[string]interface{}. */
  type Record = map<string, Json>

  /** The value a Go map lookup `rec[key]` yields, None standing for a nil interface. */
  function Field(rec: Record, key: string): (v: Option<Json>)
    ensures v.Some? <==> key in rec
    ensures v.Some? ==> v.value == rec[key]
  {
    if key in rec then Some(rec[key]) else None
  }
}
