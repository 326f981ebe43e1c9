/** The documents `json.loads` produces, and the `dict` operations the service
    applies to them. Objects are finite maps: nothing downstream depends on key order. */
module Json {

  datatype Json =
    | JNull
    | JBool(b: bool)
    | JNum(n: real)
    | JStr(s: string)
    | JArr(items: seq<Json>)
    | JObj(fields: map<string, Json>)

  /** Python truthiness of a loaded document (`if cached:`). */
  predicate Truthy(j: Json) {
    match j
    case JNull => false
    case JBool(b) => b
    case JNum(n) => n != 0.0
    case JStr(s) => s != ""
    case JArr(xs) => xs != []
    case JObj(m) => m != map[]
  }

  /** `d.get(k)`: Python's `None` (JSON null) for a missing key. */
  function GetOrNull(m: map<string, Json>, k: string): (r: Json)
    ensures k !in m ==> r == JNull
    ensures k in m ==> r == m[k]
  {
    if k in m then m[k] else JNull
  }

  /** `d.setdefault(k, v)` for its effect on `d`: a missing key gets `v`; a present key keeps its value. */
  function SetDefault(m: map<string, Json>, k: string, v: Json): (r: map<string, Json>)
    ensures r.Keys == m.Keys + {k}
    ensures k in m ==> r == m
    ensures k !in m ==> r[k] == v
    ensures forall x :: x in m ==> r[x] == m[x]
  {
    if k in m then m else m[k := v]
  }
}
