/** JSON values: the configuration dictionary and the server's replies and events. */
module Json {

  datatype Json =
    | JNull
    | JBool(b: bool)
    | JInt(i: int)
    | JReal(r: real)
    | JStr(s: string)
    | JArr(items: seq<Json>)
    | JObj(fields: map<string, Json>)

  type Object = map<string, Json>

  /** `d.get(key, default)` */
  function Get(d: Object, key: string, default: Json): Json {
    if key in d then d[key] else default
  }

  /** Python truthiness of a JSON value. */
  predicate Truthy(j: Json) {
    match j
    case JNull => false
    case JBool(b) => b
    case JInt(i) => i != 0
    case JReal(r) => r != 0.0
    case JStr(s) => s != ""
    case JArr(items) => items != []
    case JObj(fields) => fields != map[]
  }

  /** A key whose presence and value are the same in both dictionaries. */
  predicate Preserved(before: Object, after: Object, key: string) {
    (key in before <==> key in after) && (key in before ==> after[key] == before[key])
  }
}
