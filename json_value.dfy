/**
 * JSON values as the Python side of the service sees them after `json.loads`,
 * together with the two pieces of Python semantics the handlers depend on:
 * truthiness (`if not question:`) and the type name that appears in an
 * AttributeError message.
 */
module JsonValue {

  /** A decoded JSON value. Numbers are integers in this model. */
  datatype Json =
    | JNull
    | JBool(b: bool)
    | JNum(n: int)
    | JStr(s: string)
    | JArr(items: seq<Json>)
    | JObj(fields: map<string, Json>)

  /** A Python dict with string keys, as produced by `json.loads` for an object. */
  type Dict = map<string, Json>

  /** What `json.loads` does with a string: a value, or a JSONDecodeError. */
  datatype JsonParse = Decoded(value: Json) | DecodeError

  /** Python truth value of a decoded JSON value (None, False, 0, "", [] and {} are false). */
  predicate Truthy(v: Json)
    ensures v.JNull? ==> !Truthy(v)
    ensures v.JBool? ==> (Truthy(v) <==> v.b)
    ensures v.JNum? ==> (Truthy(v) <==> v.n != 0)
  {
    match v
    case JNull => false
    case JBool(b) => b
    case JNum(n) => n != 0
    case JStr(s) => s != ""
    case JArr(items) => items != []
    case JObj(fields) => fields != map[]
  }

  /** The Python type name of the value `json.loads` returns for `v`. */
  function TypeName(v: Json): (name: string)
    ensures name == "dict" <==> v.JObj?
  {
    match v
    case JNull => "NoneType"
    case JBool(_) => "bool"
    case JNum(_) => "int"
    case JStr(_) => "str"
    case JArr(_) => "list"
    case JObj(_) => "dict"
  }

  /** `d.get(k)`: the value under `k`, or None (JSON null) when `k` is absent. */
  function Get(d: Dict, k: string): (v: Json)
    ensures k in d ==> v == d[k]
    ensures k !in d ==> v == JNull
  {
    if k in d then d[k] else JNull
  }

  /** Only the empty JSON values and null, false and 0 are falsy. */
  lemma FalsyValues(v: Json)
    ensures !Truthy(v) <==> v in {JNull, JBool(false), JNum(0), JStr(""), JArr([]), JObj(map[])}
  {
  }
}
