/** Decoded JSON values as Python's `json.loads` produces them, with the two
    Python operations the backend applies to them: truthiness and `str()`. */
module Json {
  import opened Base
  import opened Strings

  datatype Value =
    | Null
    | Bool(b: bool)
    | Number(n: int)
    | Str(s: string)
    | Array(items: seq<Value>)
    | Object(fields: seq<(string, Value)>)

  /** Python truthiness of the decoded value. */
  predicate Truthy(v: Value) {
    match v
    case Null => false
    case Bool(b) => b
    case Number(n) => n != 0
    case Str(s) => s != ""
    case Array(xs) => xs != []
    case Object(fs) => fs != []
  }

  /** `d.get(key)` on a decoded object; of duplicated keys the last one wins. */
  function Get(fields: seq<(string, Value)>, key: string): (r: Option<Value>)
    ensures r.Some? ==> (key, r.value) in fields
    ensures r.None? ==> forall i :: 0 <= i < |fields| ==> fields[i].0 != key
  {
    if fields == [] then None
    else if fields[|fields| - 1].0 == key then Some(fields[|fields| - 1].1)
    else Get(fields[..|fields| - 1], key)
  }

  /** `d.get(key, default)`. */
  function GetOr(fields: seq<(string, Value)>, key: string, default: Value): Value {
    match Get(fields, key)
    case Some(v) => v
    case None => default
  }

  /** `repr()` of the decoded value. */
  function Repr(v: Value): (r: string)
    ensures r != []
    decreases v
  {
    match v
    case Null => "None"
    case Bool(b) => if b then "True" else "False"
    case Number(n) => IntToString(n)
    case Str(s) => "'" + s + "'"
    case Array(xs) => "[" + Join(", ", seq(|xs|, i requires 0 <= i < |xs| => Repr(xs[i]))) + "]"
    case Object(fs) =>
      "{" + Join(", ", seq(|fs|, i requires 0 <= i < |fs| =>
        assert fs[i] in fs; "'" + fs[i].0 + "': " + Repr(fs[i].1))) + "}"
  }

  /** `str()` of the decoded value: a string is itself, anything else its repr. */
  function PyStr(v: Value): (r: string)
    ensures r == [] ==> v == Str("")
  {
    match v
    case Str(s) => s
    case _ => Repr(v)
  }
}
