/** The values that Python's `json.loads` produces, and the dictionary lookups
    the stream processor applies to them. Parsing itself is not modelled: a line
    arrives already decoded. */
module Json {
  import opened Wrappers

  /** A decoded JSON value. Numbers with a fraction or exponent become Python
      floats; they are kept as their source text, since nothing computes with them. */
  datatype Json =
    | JNull
    | JBool(b: bool)
    | JInt(i: int)
    | JFloat(literal: string)
    | JStr(str: string)
    | JArr(items: seq<Json>)
    | JObj(fields: map<string, Json>)

  /** A decoded JSON object, that is, a Python `dict`. */
  type Dict = map<string, Json>

  /** `d.get(key)`. */
  function Get(d: Dict, key: string): (r: Option<Json>)
    ensures r.Some? <==> key in d
    ensures r.Some? ==> r.value == d[key]
  {
    if key in d then Some(d[key]) else None
  }

  /** `d.get(key, default)`. */
  function GetOr(d: Dict, key: string, default: Json): Json {
    Get(d, key).GetOr(default)
  }

  /** `d.get(key) == s` for a string `s`. */
  predicate HasString(d: Dict, key: string, s: string) {
    Get(d, key) == Some(JStr(s))
  }

  /** `type(v).__name__` for a decoded value. */
  function TypeName(v: Json): string {
    match v
    case JNull => "NoneType"
    case JBool(_) => "bool"
    case JInt(_) => "int"
    case JFloat(_) => "float"
    case JStr(_) => "str"
    case JArr(_) => "list"
    case JObj(_) => "dict"
  }

  /** The message of the `AttributeError` raised by calling `.get` on a value that is not a dict. */
  function NoGetMessage(v: Json): string {
    "'" + TypeName(v) + "' object has no attribute 'get'"
  }

  /** Python truthiness of a dict: it is non-empty. */
  predicate Truthy(r: Option<Dict>) {
    r.Some? && |r.value| > 0
  }
}
