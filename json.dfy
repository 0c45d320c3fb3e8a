/** JSON values, as a decoded request body or `json.loads` result holds
    them. Numbers are integers here: no floating-point JSON number is read
    by the modelled code. */
module JsonValue {
  datatype Json =
    | JNull
    | JBool(b: bool)
    | JInt(i: int)
    | JStr(s: string)
    | JArr(items: seq<Json>)
    | JObj(fields: map<string, Json>)
}
