/** JSON values as `json.load` returns them: the bill records, their
    sections and the statistics file are all dictionaries of these. */
module Json {
  import opened Wrappers

  datatype Json =
    | JNull
    | JBool(b: bool)
    | JNum(n: real)
    | JStr(s: string)
    | JArr(items: seq<Json>)
    | JObj(fields: map<string, Json>)

  /** A JSON object, i.e. a Python `dict` with string keys. */
  type Record = map<string, Json>

  /** Python's `len` on a decoded JSON value: defined for strings (code
      points), lists and dictionaries; any other value raises TypeError. */
  function Len(j: Json): (r: Option<nat>)
    ensures r.Some? <==> (j.JStr? || j.JArr? || j.JObj?)
    ensures j.JStr? ==> r == Some(|j.s|)
    ensures j.JArr? ==> r == Some(|j.items|)
  {
    match j
    case JStr(s) => Some(|s|)
    case JArr(items) => Some(|items|)
    case JObj(fields) => Some(|fields|)
    case _ => None
  }

  /** A decoded value whose Python truth value is false: None, False, zero,
      and the empty string, list and dictionary. */
  predicate Falsy(j: Json)
  {
    j == JNull || j == JBool(false) || j == JNum(0.0) || j == JStr("") || j == JArr([]) || j == JObj(map[])
  }

  /** Python's `d.get(key, default)`. */
  function Get(d: Record, key: string, default: Json): Json
  {
    if key in d then d[key] else default
  }
}
