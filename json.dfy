/**
 * A parsed JSON document, as `json.loads` hands it to the scripts, and the
 * few Python operations the scripts apply to such values: truthiness,
 * `dict.get`, `x in v`, `v != 0`, and iteration expecting dictionaries.
 * Object key order is not kept (a JSON object is a map).
 */
module Json {
  import opened Common

  datatype JValue =
    | JNull
    | JBool(b: bool)
    | JNum(n: real)
    | JStr(s: string)
    | JArr(items: seq<JValue>)
    | JObj(fields: map<string, JValue>)

  /** Python truthiness of a decoded JSON value. */
  predicate Truthy(v: JValue) {
    match v
    case JNull => false
    case JBool(b) => b
    case JNum(n) => n != 0.0
    case JStr(s) => s != ""
    case JArr(items) => items != []
    case JObj(fields) => fields != map[]
  }

  /** `d.get(k, default)` on a dictionary. */
  function Get(d: map<string, JValue>, k: string, default: JValue): (r: JValue)
    ensures k in d ==> r == d[k]
    ensures k !in d ==> r == default
  {
    if k in d then d[k] else default
  }

  /** `v == 0` in Python: the number zero, or `False` (a bool is an int). */
  predicate EqualsZero(v: JValue) {
    v == JNum(0.0) || v == JBool(false)
  }

  /**
   * `needle in v` for a string needle: a substring test on a string, a key
   * test on a dictionary, a membership test on a list; any other value
   * raises `TypeError` (`None`).
   */
  function PyIn(needle: string, v: JValue): (r: Option<bool>)
    ensures v.JStr? ==> r == Some(Contains(v.s, needle))
    ensures v.JObj? ==> r == Some(needle in v.fields)
    ensures v.JArr? ==> r == Some(JStr(needle) in v.items)
    ensures r.None? <==> (v.JNull? || v.JBool? || v.JNum?)
  {
    match v
    case JStr(s) => Some(Contains(s, needle))
    case JObj(fields) => Some(needle in fields)
    case JArr(items) => Some(JStr(needle) in items)
    case _ => None
  }

  /**
   * `for x in v: x.get(...)`: iterating `v` and calling `.get` on every
   * element succeeds only when every element is a dictionary. A list yields
   * its items, a dictionary its keys and a string its characters (both of
   * which are strings, so only an empty one survives); anything else raises.
   */
  function IterDicts(v: JValue): (r: Option<seq<map<string, JValue>>>)
    ensures r.Some? ==> (v.JArr? && |r.value| == |v.items|) || r.value == []
    ensures v.JArr? ==> (r.Some? <==> forall i :: 0 <= i < |v.items| ==> v.items[i].JObj?)
    ensures v.JArr? && r.Some? ==>
      |r.value| == |v.items| && forall i :: 0 <= i < |v.items| ==> v.items[i] == JObj(r.value[i])
    ensures v.JNull? || v.JBool? || v.JNum? ==> r.None?
  {
    match v
    case JArr(items) => AllObjects(items)
    case JObj(fields) => if fields == map[] then Some([]) else None
    case JStr(s) => if s == "" then Some([]) else None
    case _ => None
  }

  function AllObjects(items: seq<JValue>): (r: Option<seq<map<string, JValue>>>)
    ensures r.Some? <==> forall i :: 0 <= i < |items| ==> items[i].JObj?
    ensures r.Some? ==> |r.value| == |items| && forall i :: 0 <= i < |items| ==> items[i] == JObj(r.value[i])
  {
    if items == [] then Some([])
    else if !items[0].JObj? then None
    else match AllObjects(items[1..])
      case None => None
      case Some(rest) => Some([items[0].fields] + rest)
  }
}
