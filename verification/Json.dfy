/** JSON values and an abstract JSON codec: `JSON.stringify` and `JSON.parse` are library code. */
module Json {
  import opened Common
  import opened Decimal

  datatype Json =
    | JNull
    | JBool(b: bool)
    | JNumber(n: JsNumber)
    | JString(s: string)
    | JArray(items: seq<Json>)
    | JObject(fields: map<string, Json>)

  /** `parse` returns None where `JSON.parse` throws. */
  datatype Codec = Codec(stringify: Json -> string, parse: string -> Option<Json>)

  predicate OneLine(s: string) { forall i | 0 <= i < |s| :: s[i] != '\n' && s[i] != '\r' }

  /** All the model takes from a JSON library: printing is undone by parsing, fits on one line, is never empty. */
  ghost predicate Sound(c: Codec) {
    forall j: Json :: c.parse(c.stringify(j)) == Some(j) && OneLine(c.stringify(j)) && c.stringify(j) != ""
  }

  function Field(fields: map<string, Json>, name: string): Option<Json> {
    if name in fields then Some(fields[name]) else None
  }

  /** `String(v)` for a parsed value that is not an object or array. */
  function StringOf(j: Json): string
    requires !j.JArray? && !j.JObject?
  {
    match j
    case JNull => "null"
    case JBool(b) => if b then "true" else "false"
    case JNumber(n) => PrintNumber(n)
    case JString(s) => s
  }
}
