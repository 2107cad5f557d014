/** The JSON values the local store keeps in its files. */
module Json {

  datatype Json =
    | JNull
    | JBool(b: bool)
    | JInt(i: int)
    | JStr(s: string)
    | JList(items: seq<Json>)
    | JObject(fields: map<string, Json>)

  /** A JSON object, the source's `dict`. */
  type Dict = map<string, Json>
}
