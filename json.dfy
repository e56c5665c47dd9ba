/** Decoded JSON bodies and the few Python operations the core applies to
    them (`d[k]`, `d.get(k, default)`, `for x in j`, truthiness). */
module Json {
  import opened Results

  /** A JSON value.  `JNull` is also what Python's `None` becomes: the value
      an absent key yields under `dict.get` without a default. */
  datatype Json =
    | JNull
    | JBool(b: bool)
    | JInt(n: int)
    | JStr(s: string)
    | JArr(items: seq<Json>)
    | JObj(fields: map<string, Json>)

  /** Python's `d[key]`: a missing key raises `KeyError`; subscripting a list,
      a string or `None` with a string raises `TypeError`. */
  function Subscript(d: Json, key: string): (r: Result<Json>)
    ensures r.Ok? <==> d.JObj? && key in d.fields
    ensures r.Ok? ==> r.value == d.fields[key]
    ensures d.JObj? && key !in d.fields ==> r == Err(KeyError(key))
  {
    match d
    case JObj(m) => if key in m then Ok(m[key]) else Err(KeyError(key))
    case _ => Err(TypeError)
  }

  /** Python's `d.get(key, default)`: only a dict has `.get`. */
  function DictGet(d: Json, key: string, default: Json): (r: Result<Json>)
    ensures r.Ok? <==> d.JObj?
    ensures r.Ok? ==> r.value == if key in d.fields then d.fields[key] else default
  {
    match d
    case JObj(m) => Ok(if key in m then m[key] else default)
    case _ => Err(TypeError)
  }

  /** `m.get(key)` on a dict's fields: the entry, or `None` when the key is
      absent. */
  function Get(m: map<string, Json>, key: string): (r: Json)
    ensures DictGet(JObj(m), key, JNull) == Ok(r)
    ensures key !in m ==> r == JNull
  {
    if key in m then m[key] else JNull
  }

  /** The elements `for x in j` visits, when every element is then used as a
      dict.  A list yields its items.  An empty dict or string yields nothing;
      a non-empty one yields strings (its keys, its characters), each of which
      fails as soon as the loop body subscripts it or calls `.get` on it, so
      the model reports that failure here.  Other scalars are not iterable. */
  function Elements(j: Json): (r: Result<seq<Json>>)
    ensures j.JArr? ==> r == Ok(j.items)
    ensures j.JObj? ==> (r.Ok? <==> j.fields == map[])
    ensures j.JStr? ==> (r.Ok? <==> j.s == "")
    ensures j.JNull? || j.JBool? || j.JInt? ==> r.Err?
    ensures r.Ok? && !j.JArr? ==> r.value == []
  {
    match j
    case JArr(items) => Ok(items)
    case JObj(m) => if m == map[] then Ok([]) else Err(TypeError)
    case JStr(s) => if s == "" then Ok([]) else Err(TypeError)
    case _ => Err(TypeError)
  }

  /** Python truthiness of a decoded JSON value. */
  predicate Truthy(j: Json)
  {
    match j
    case JNull => false
    case JBool(b) => b
    case JInt(n) => n != 0
    case JStr(s) => s != ""
    case JArr(items) => items != []
    case JObj(m) => m != map[]
  }
}
