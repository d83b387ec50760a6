/** A decoded JSON value, and the handful of Python operations the plugins
    apply to one: `key in v`, `v[key]`, `v.get(key, default)`, iteration and
    truthiness. Each operation that Python may abort with an exception
    returns an Option; None stands for the exception. */
module Json {
  import opened Wrappers

  /** Objects keep their fields in document order; a decoded object has
      distinct keys. */
  datatype Json =
    | JNull
    | JInt(i: int)
    | JStr(s: string)
    | JList(items: seq<Json>)
    | JObj(fields: seq<(string, Json)>)

  /** The keys of an object, in order. */
  function Keys(fields: seq<(string, Json)>): (r: seq<string>)
    ensures |r| == |fields|
  {
    seq(|fields|, i requires 0 <= i < |fields| => fields[i].0)
  }

  /** The value of the first field named `key`. */
  function Lookup(fields: seq<(string, Json)>, key: string): (r: Option<Json>)
    ensures r.Some? <==> key in Keys(fields)
  {
    if fields == [] then None
    else
      assert Keys(fields) == [fields[0].0] + Keys(fields[1..]);
      if fields[0].0 == key then Some(fields[0].1)
      else Lookup(fields[1..], key)
  }

  /** `k` occurs as a contiguous piece of `s` (Python's `k in s` on strings). */
  predicate IsSubstring(k: string, s: string)
  {
    k <= s || (s != [] && IsSubstring(k, s[1..]))
  }

  /** Python `key in v` for a string `key`: key membership for a dict,
      substring search for a str, element equality for a list; an int or
      None raises TypeError. */
  function In(key: string, v: Json): (r: Option<bool>)
    ensures r.Some? <==> !v.JInt? && !v.JNull?
    ensures v.JObj? ==> r == Some(key in Keys(v.fields))
  {
    match v
    case JObj(fields) => Some(key in Keys(fields))
    case JStr(s) => Some(IsSubstring(key, s))
    case JList(items) => Some(JStr(key) in items)
    case _ => None
  }

  /** Python `v[key]` for a string `key`: a KeyError on a dict without the
      key, a TypeError on anything that is not a dict. */
  function Index(v: Json, key: string): (r: Option<Json>)
    ensures r.Some? <==> v.JObj? && key in Keys(v.fields)
  {
    match v
    case JObj(fields) => Lookup(fields, key)
    case _ => None
  }

  /** Python `v.get(key, default)`: only a dict has `get`
      (AttributeError otherwise). */
  function Get(v: Json, key: string, default: Json): (r: Option<Json>)
    ensures r.Some? <==> v.JObj?
    ensures v.JObj? && key !in Keys(v.fields) ==> r == Some(default)
  {
    match v
    case JObj(fields) =>
      if key in Keys(fields) then Lookup(fields, key) else Some(default)
    case _ => None
  }

  /** The one-character strings of `s`, as Python yields them. */
  function Chars(s: string): (r: seq<Json>)
    ensures |r| == |s|
  {
    seq(|s|, i requires 0 <= i < |s| => JStr([s[i]]))
  }

  /** Python `for x in v` (and `list(v)`): a list yields its items, a str
      its characters, a dict its keys; an int or None is not iterable. */
  function Iter(v: Json): (r: Option<seq<Json>>)
    ensures r.Some? <==> !v.JInt? && !v.JNull?
    ensures v.JList? ==> r == Some(v.items)
  {
    match v
    case JList(items) => Some(items)
    case JStr(s) => Some(Chars(s))
    case JObj(fields) => Some(seq(|fields|, i requires 0 <= i < |fields| => JStr(fields[i].0)))
    case _ => None
  }

  /** Python truthiness: None, 0 and empty strings, lists and dicts are false. */
  predicate Truthy(v: Json)
  {
    match v
    case JNull => false
    case JInt(i) => i != 0
    case JStr(s) => s != ""
    case JList(items) => items != []
    case JObj(fields) => fields != []
  }
}
