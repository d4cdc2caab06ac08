/**
 * Values as `json.loads` returns them, and the few Python behaviours of such
 * values the pipeline depends on: truthiness, `dict.get`, hashability (set
 * membership) and iteration.
 */
module Json {
  import opened Wrappers
  import opened Text

  datatype Json =
    | JNull
    | JBool(b: bool)
    | JInt(i: int)
    | JFloat(r: real)
    | JStr(s: string)
    | JArr(items: seq<Json>)
    | JObj(fields: map<string, Json>)

  /** A decoded JSON object (a Python dict with string keys). */
  type Obj = map<string, Json>

  /** Python's `bool(v)`. */
  predicate Truthy(v: Json) {
    match v
    case JNull => false
    case JBool(b) => b
    case JInt(i) => i != 0
    case JFloat(r) => r != 0.0
    case JStr(s) => s != []
    case JArr(xs) => xs != []
    case JObj(m) => m != map[]
  }

  /** `o.get(k, default)`. */
  function Get(o: Obj, k: string, default: Json): (v: Json)
    ensures k in o ==> v == o[k]
    ensures k !in o ==> v == default
  {
    if k in o then o[k] else default
  }

  /** Values Python can look up in a set: lists and dicts raise TypeError. */
  predicate Hashable(v: Json) {
    !v.JArr? && !v.JObj?
  }

  /**
   * `for x in v`: a list yields its items, a string its characters, an empty
   * dict nothing; None, booleans and numbers raise TypeError (None here).
   * A non-empty dict (Python yields its keys in insertion order, which a map
   * does not record) is also None.
   */
  function Iterate(v: Json): (r: Option<seq<Json>>)
    ensures v.JArr? ==> r == Some(v.items)
    ensures v.JStr? ==> r.Some? && |r.value| == |v.s|
    ensures (v.JNull? || v.JBool? || v.JInt? || v.JFloat?) ==> r.None?
  {
    match v
    case JArr(xs) => Some(xs)
    case JStr(s) => Some(seq(|s|, i requires 0 <= i < |s| => JStr([s[i]])))
    case JObj(m) => if m == map[] then Some([]) else None
    case _ => None
  }

  /** `str(v)` for None, booleans, integers and strings; other values render as a fixed marker. */
  function Display(v: Json): string {
    match v
    case JNull => "None"
    case JBool(b) => if b then "True" else "False"
    case JInt(i) => IntToString(i)
    case JStr(s) => s
    case _ => "<value>"
  }

  /** The strings of a list, in order. */
  function Strings(xs: seq<Json>): (r: seq<string>)
    ensures |r| <= |xs|
  {
    if xs == [] then []
    else if xs[0].JStr? then [xs[0].s] + Strings(xs[1..])
    else Strings(xs[1..])
  }
}
