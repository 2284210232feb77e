/** Decoded JSON values, as the request bodies, the JSONB columns and the language-model
    replies carry them, with the few Python operations the model applies to them. */
module JsonValues {
  import opened Common

  datatype Json =
    | JNull
    | JBool(b: bool)
    | JInt(i: int)
    | JReal(r: real)
    | JStr(s: string)
    | JArr(items: seq<Json>)
    | JObj(fields: map<string, Json>)

  /** Python raises `TypeError` when it orders a number against a non-number. */
  datatype TypeError = NotOrderable(value: Json)

  /** `d.get(key, default)` */
  function Get(d: map<string, Json>, key: string, default: Json): Json
  {
    if key in d then d[key] else default
  }

  /** Python truthiness of a decoded value (`if value:`). */
  predicate Truthy(j: Json)
  {
    match j
    case JNull => false
    case JBool(b) => b
    case JInt(i) => i != 0
    case JReal(r) => r != 0.0
    case JStr(s) => s != ""
    case JArr(items) => items != []
    case JObj(fields) => fields != map[]
  }

  predicate IsNumber(j: Json)
  {
    j.JInt? || j.JReal? || j.JBool?
  }

  /** Python's `value >= bound` for an integer bound: booleans order as 0 and 1, and
      anything that is not a number raises. */
  function AtLeast(j: Json, bound: int): (r: Result<bool, TypeError>)
    ensures r.Err? <==> !IsNumber(j)
  {
    match j
    case JInt(i) => Ok(i >= bound)
    case JReal(x) => Ok(x >= bound as real)
    case JBool(b) => Ok((if b then 1 else 0) >= bound)
    case _ => Err(NotOrderable(j))
  }
}
