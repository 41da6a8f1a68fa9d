/**
 * JSON documents as values (`serde_json::Value`), and the accessors the
 * decoders use. Reading JSON text into a document is not modelled: a decoder
 * takes the parse as a function argument.
 */
module JsonTree {
  import opened Wrappers

  /** A JSON document; numbers are the integers the crates write. */
  datatype Json =
    | JNull
    | JBool(b: bool)
    | JNumber(n: int)
    | JString(s: string)
    | JArray(items: seq<Json>)
    | JObject(fields: map<string, Json>)

  /** `Value::get` with a string key: the member of an object, nothing for any other value. */
  function Get(v: Json, key: string): (r: Option<Json>)
    ensures r.Some? <==> v.JObject? && key in v.fields
    ensures r.Some? ==> v.JObject? && key in v.fields && r.value == v.fields[key]
  {
    if v.JObject? && key in v.fields then Some(v.fields[key]) else None
  }

  /** `Value::as_str`. */
  function AsStr(v: Json): (r: Option<string>)
    ensures r.Some? <==> v.JString?
    ensures r.Some? ==> v == JString(r.value)
  {
    if v.JString? then Some(v.s) else None
  }

  /** `value.get(key).and_then(Value::as_str)`: a string member. */
  function GetStr(v: Json, key: string): (r: Option<string>)
    ensures r.Some? <==> v.JObject? && key in v.fields && v.fields[key].JString?
    ensures r.Some? ==> v.JObject? && key in v.fields && v.fields[key] == JString(r.value)
  {
    match Get(v, key)
    case None => None
    case Some(m) => AsStr(m)
  }

  /** Reading back a string member gives the string stored under that key, whatever else the object holds. */
  lemma GetStrReadsMember(fields: map<string, Json>, key: string, text: string)
    ensures GetStr(JObject(fields[key := JString(text)]), key) == Some(text)
    ensures forall other :: other != key ==> GetStr(JObject(fields[key := JString(text)]), other) == GetStr(JObject(fields), other)
  {
  }
}
