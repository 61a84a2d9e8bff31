/** Decoded JSON values as the Python core sees them (`request.json`, exchange replies),
    with the few Python operations the core applies to them: truthiness, `dict.get`,
    the `in` operator and subscription with a string key. */
module Json {
  import opened Wrappers
  import Text

  /** A JSON object keeps its members in document order, because Python dicts
      iterate in insertion order and the core scans `data.items()` in that order. */
  datatype Json =
    | JNull
    | JBool(b: bool)
    | JNum(n: real)
    | JStr(s: string)
    | JArr(items: seq<Json>)
    | JObj(fields: seq<(string, Json)>)

  /** The Python exceptions an operation on an unexpected JSON shape raises. */
  datatype PyError = TypeError | AttributeError

  /** Python's `bool(v)`: null, false, zero and empty containers are false. */
  predicate Truthy(v: Json) {
    match v
    case JNull => false
    case JBool(b) => b
    case JNum(n) => n != 0.0
    case JStr(s) => s != ""
    case JArr(items) => items != []
    case JObj(fields) => fields != []
  }

  predicate HasKey(fields: seq<(string, Json)>, key: string) {
    exists i :: 0 <= i < |fields| && fields[i].0 == key
  }

  /** `d.get(key)`: the value of the first member named `key`. */
  function Get(fields: seq<(string, Json)>, key: string): (r: Option<Json>)
    ensures r.Some? <==> HasKey(fields, key)
    ensures r.Some? ==> exists i :: 0 <= i < |fields| && fields[i] == (key, r.value)
  {
    if fields == [] then None
    else if fields[0].0 == key then Some(fields[0].1)
    else
      var r := Get(fields[1..], key);
      assert HasKey(fields, key) ==> HasKey(fields[1..], key) by {
        if HasKey(fields, key) {
          var i :| 0 <= i < |fields| && fields[i].0 == key;
          assert i > 0 && fields[1..][i - 1].0 == key;
        }
      }
      assert r.Some? ==> exists i :: 0 <= i < |fields| && fields[i] == (key, r.value) by {
        if r.Some? {
          var i :| 0 <= i < |fields[1..]| && fields[1..][i] == (key, r.value);
          assert fields[i + 1] == (key, r.value);
        }
      }
      r
  }

  /** `d.get(key, default)`. */
  function GetOr(fields: seq<(string, Json)>, key: string, default: Json): Json {
    Get(fields, key).GetOr(default)
  }

  /** Python's `key in container` for a string key: membership of the keys of a dict,
      substring of a string, element equality in a list; `TypeError` (None) for
      numbers, booleans and null. */
  function PyIn(key: string, container: Json): (r: Option<bool>)
    ensures r.None? <==> (container.JNull? || container.JBool? || container.JNum?)
    ensures container.JObj? ==> r == Some(HasKey(container.fields, key))
  {
    match container
    case JObj(fields) => Some(HasKey(fields, key))
    case JStr(s) => Some(Text.Contains(s, key))
    case JArr(items) => Some(JStr(key) in items)
    case _ => None
  }
}
