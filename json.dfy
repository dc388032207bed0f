/** Decoded JSON values, and the Python operations the scripts apply to
    them, with the errors those operations raise. */
module Json {
  import opened Wrappers
  import Dict

  /** A value `json.loads` can produce; an object keeps its members in
      document order and, being a Python dict, has distinct keys.  Numbers
      are integers here. */
  datatype Json =
    | JNull
    | JBool(b: bool)
    | JNum(n: int)
    | JStr(s: string)
    | JArr(items: seq<Json>)
    | JObj(fields: seq<(string, Json)>)

  /** Python truthiness: `None`, `False`, `0`, `""`, `[]` and `{}` are false. */
  predicate Truthy(j: Json) {
    match j
    case JNull => false
    case JBool(b) => b
    case JNum(n) => n != 0
    case JStr(s) => s != ""
    case JArr(a) => a != []
    case JObj(f) => f != []
  }

  /** `len(j)`: strings, lists and dicts have one; anything else raises. */
  function Len(j: Json): Option<nat> {
    match j
    case JStr(s) => Some(|s|)
    case JArr(a) => Some(|a|)
    case JObj(f) => Some(|f|)
    case _ => None
  }

  /** `j.get(key, default)`: only a dict has `get`. */
  function Get(j: Json, key: string, default: Json): Option<Json> {
    match j
    case JObj(f) => Some(Dict.GetOr(f, key, default))
    case _ => None
  }

  /** `j.get(key)`, whose default is `None`. */
  function GetOrNull(j: Json, key: string): Option<Json> {
    Get(j, key, JNull)
  }

  /** `j[key]`: a missing key raises KeyError, a non-dict TypeError. */
  function Index(j: Json, key: string): Option<Json> {
    match j
    case JObj(f) => Dict.Get(f, key)
    case _ => None
  }

  /** `j[0]`: the first element of a list, or the first character of a
      string as a string; an empty one raises IndexError, a dict KeyError
      (its keys are strings), anything else TypeError. */
  function First(j: Json): Option<Json> {
    match j
    case JArr(a) => if a == [] then None else Some(a[0])
    case JStr(s) => if s == "" then None else Some(JStr(s[..1]))
    case _ => None
  }
}
