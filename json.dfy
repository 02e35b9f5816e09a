/**
 * Decoded JSON values as the Python code handles them (`dict`, `list`, `str`, `int`, `bool`,
 * `None`), with the dictionary accesses the routes make and the exceptions they can raise.
 */
module JsonValues {
  import opened Wrappers

  datatype Json =
    | JNull
    | JBool(b: bool)
    | JInt(n: int)
    | JStr(s: string)
    | JList(items: seq<Json>)
    | JObject(fields: map<string, Json>)

  /** Python truthiness: `None`, `False`, `0`, `""`, `[]` and `{}` are false. */
  predicate Truthy(v: Json) {
    match v
    case JNull => false
    case JBool(b) => b
    case JInt(n) => n != 0
    case JStr(s) => s != ""
    case JList(items) => items != []
    case JObject(fields) => fields != map[]
  }

  /** `d.get(key, default)`: `None` stands for the `AttributeError` raised when `d` is not a dict. */
  function DictGet(d: Json, key: string, default: Json): (r: Option<Json>)
    ensures r.Some? <==> d.JObject?
    ensures d.JObject? && key in d.fields ==> r == Some(d.fields[key])
    ensures d.JObject? && key !in d.fields ==> r == Some(default)
  {
    if !d.JObject? then None
    else if key in d.fields then Some(d.fields[key])
    else Some(default)
  }

  /** `d[key]`: `None` stands for the `KeyError` or `TypeError` raised when there is no such entry. */
  function Subscript(d: Json, key: string): (r: Option<Json>)
    ensures r.Some? <==> d.JObject? && key in d.fields
  {
    if d.JObject? && key in d.fields then Some(d.fields[key]) else None
  }

  /** `len(v)`: `None` stands for the `TypeError` raised on a value without a length. */
  function Len(v: Json): (r: Option<nat>)
    ensures r.Some? <==> v.JList? || v.JStr? || v.JObject?
  {
    match v
    case JList(items) => Some(|items|)
    case JStr(s) => Some(|s|)
    case JObject(fields) => Some(|fields.Keys|)
    case _ => None
  }

  /** A sized value is truthy exactly when its length is not zero. */
  lemma TruthyIsNonEmpty(v: Json)
    requires Len(v).Some?
    ensures Truthy(v) <==> Len(v).value > 0
  {
    if v.JObject? && v.fields != map[] {
      var k :| k in v.fields;
      assert k in v.fields.Keys;
    }
  }

  /** A two-entry dict literal. */
  function Dict2(k1: string, v1: Json, k2: string, v2: Json): Json {
    JObject(map[k1 := v1, k2 := v2])
  }
}
