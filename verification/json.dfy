/** Parsed JSON values, as Python's `json.loads` returns them (dict, list, str, int, float, bool, None). */
module Json {
  import opened Text

  datatype Json =
    | JNull
    | JBool(b: bool)
    | JInt(i: int)
    | JFloat(r: real)
    | JStr(s: string)
    | JArr(items: seq<Json>)
    | JObj(fields: map<string, Json>)

  /** Python truthiness of a parsed value: `None`, `False`, zero, `""`, `[]` and `{}` are falsy. */
  predicate Truthy(j: Json) {
    match j
    case JNull => false
    case JBool(b) => b
    case JInt(i) => i != 0
    case JFloat(r) => r != 0.0
    case JStr(s) => s != ""
    case JArr(a) => a != []
    case JObj(m) => m != map[]
  }

  /** Python's `d.get(k)`: a missing key reads as `None`. */
  function Get(m: map<string, Json>, k: string): Json {
    if k in m then m[k] else JNull
  }

  /** `isinstance(v, (int, float))` for a parsed value. */
  predicate IsNumber(j: Json) {
    j.JInt? || j.JFloat?
  }

  function NumValue(j: Json): real
    requires IsNumber(j)
  {
    if j.JInt? then j.i as real else j.r
  }

  /** The object with the keys whose value is `null` removed
      (what `model_dump(exclude_none=True)` leaves of a model's own fields). */
  function DropNulls(m: map<string, Json>): (r: map<string, Json>)
    ensures r.Keys <= m.Keys
    ensures forall k :: k in r ==> r[k] == m[k] && r[k] != JNull
    ensures forall k :: k in m && m[k] != JNull ==> k in r
  {
    map k | k in m && m[k] != JNull :: m[k]
  }

  /** Python's `str` of floats, lists and dicts, which is never empty. */
  type Show = f: Json -> string | forall j :: f(j) != "" witness (j: Json) => "?"

  /** Python's `str(v)` of a parsed value; containers and floats are rendered by `show`. */
  function PyStr(j: Json, show: Show): (r: string)
    ensures j.JStr? ==> r == j.s
    ensures !j.JStr? ==> r != ""
  {
    match j
    case JStr(s) => s
    case JInt(i) => IntToString(i)
    case JBool(b) => if b then "True" else "False"
    case JNull => "None"
    case _ => show(j)
  }
}
