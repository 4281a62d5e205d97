/** The values the Python scripts pass around (the results of reading XML or
    JSON: None, booleans, integers, strings, lists and dicts) and the few
    built-in operations on them whose failures matter. */
module Py {
  import opened Wrappers
  import opened Dicts
  import opened Text

  datatype Json =
    | Null
    | Bool(b: bool)
    | Int(i: int)
    | Str(s: string)
    | List(items: seq<Json>)
    | Obj(fields: Dict<string, Json>)

  /** Every dict in the value has distinct keys. */
  ghost predicate Valid(j: Json) {
    match j
    case List(items) => forall i :: 0 <= i < |items| ==> Valid(items[i])
    case Obj(fs) => Unique(fs) && forall i :: 0 <= i < |fs| ==> Valid(fs[i].val)
    case _ => true
  }

  /** Python truthiness: None, False, 0, "" and empty containers are false. */
  predicate Truthy(j: Json) {
    match j
    case Null => false
    case Bool(b) => b
    case Int(i) => i != 0
    case Str(s) => s != ""
    case List(items) => items != []
    case Obj(fs) => fs != []
  }

  /** The values a container holds, in iteration order: list items, or dict values. */
  function Children(j: Json): seq<Json> {
    match j
    case List(items) => items
    case Obj(fs) => Values(fs)
    case _ => []
  }

  lemma ChildSmaller(j: Json, i: nat)
    requires i < |Children(j)|
    ensures Children(j)[i] < j
  {
    if j.Obj? {
      assert j.fields[i] in j.fields;
    }
  }

  /** `d.get(k)`: `None` for a missing key; only dicts have `get`. */
  function GetKey(j: Json, k: string): (r: Result<Json>)
    ensures r.Err? <==> !j.Obj?
    ensures r.Ok? && r.value != Null ==> Get(j.fields, k) == Some(r.value)
    ensures j.Obj? && !HasKey(j.fields, k) ==> r == Ok(Null)
  {
    if j.Obj? then Ok(Get(j.fields, k).GetOr(Null)) else Err(AttributeError)
  }

  /** `d.get(k)` on a value known to be a dict. */
  function Lookup(fs: Dict<string, Json>, k: string): (r: Json)
    ensures HasKey(fs, k) ==> Get(fs, k) == Some(r)
    ensures !HasKey(fs, k) ==> r == Null
  {
    Get(fs, k).GetOr(Null)
  }

  /** `d[k]` with a string key: `KeyError` when a dict lacks it, `TypeError` on anything but a dict. */
  function Index(j: Json, k: string): (r: Result<Json>)
    ensures r.Ok? <==> j.Obj? && HasKey(j.fields, k)
    ensures r.Ok? ==> Get(j.fields, k) == Some(r.value)
    ensures j.Obj? && !HasKey(j.fields, k) ==> r == Err(KeyError(k))
  {
    if !j.Obj? then Err(TypeError)
    else match Get(j.fields, k)
      case Some(v) => Ok(v)
      case None => Err(KeyError(k))
  }

  /** The keys of a dict as string values. */
  function KeyValues(fs: Dict<string, Json>): (r: seq<Json>)
    ensures |r| == |fs| && forall i :: 0 <= i < |fs| ==> r[i] == Str(fs[i].key)
  {
    seq(|fs|, i requires 0 <= i < |fs| => Str(fs[i].key))
  }

  /** `for x in j`: list items, dict keys, or the one-character strings of a string. */
  function Iterate(j: Json): (r: Result<seq<Json>>)
    ensures r.Err? <==> !(j.List? || j.Obj? || j.Str?)
    ensures j.List? ==> r == Ok(j.items)
    ensures j.Str? ==> r.Ok? && |r.value| == |j.s| && forall i :: 0 <= i < |j.s| ==> r.value[i] == Str([j.s[i]])
  {
    match j
    case List(items) => Ok(items)
    case Obj(fs) => Ok(KeyValues(fs))
    case Str(s) => Ok(seq(|s|, i requires 0 <= i < |s| => Str([s[i]])))
    case _ => Err(TypeError)
  }

  /** `prefix + x`: a `TypeError` unless `x` is a string. */
  function ConcatStr(prefix: string, x: Json): (r: Result<string>)
    ensures r.Ok? <==> x.Str?
    ensures r.Ok? ==> r.value == prefix + x.s
  {
    if x.Str? then Ok(prefix + x.s) else Err(TypeError)
  }

  /** `element_array`: None becomes the empty list, a list stays as it is, anything else is wrapped. */
  function ElementArray(value: Json): (r: seq<Json>)
    ensures value == Null ==> r == []
    ensures value.List? ==> r == value.items
    ensures value != Null && !value.List? ==> r == [value]
  {
    match value
    case Null => []
    case List(items) => items
    case _ => [value]
  }

  /** Wrapping a value as `element_array` does and unwrapping it again gives the same list. */
  lemma ElementArrayIdempotent(value: Json)
    ensures ElementArray(List(ElementArray(value))) == ElementArray(value)
    ensures forall x :: x in ElementArray(value) ==> x == value || (value.List? && x in value.items)
  {
  }

  /** `d.get(k, default)`: only dicts have `get`. */
  function GetDefault(j: Json, k: string, default: Json): (r: Result<Json>)
    ensures r.Err? <==> !j.Obj?
    ensures r.Ok? && HasKey(j.fields, k) ==> Get(j.fields, k) == Some(r.value)
    ensures j.Obj? && !HasKey(j.fields, k) ==> r == Ok(default)
  {
    if j.Obj? then Ok(Get(j.fields, k).GetOr(default)) else Err(AttributeError)
  }

  /** `int(x)`: integers as they are, booleans as 0 or 1, strings parsed, anything else a `TypeError`. */
  function ToInt(j: Json): (r: Result<int>)
    ensures j.Int? ==> r == Ok(j.i)
    ensures j.Str? ==> (r.Ok? <==> ParseInt(j.s).Some?)
    ensures j.Str? && r.Ok? ==> r.value == ParseInt(j.s).value
    ensures j.Str? && r.Err? ==> r.error == ValueError
    ensures j.Null? || j.List? || j.Obj? ==> r == Err(TypeError)
  {
    match j
    case Int(i) => Ok(i)
    case Bool(b) => Ok(if b then 1 else 0)
    case Str(s) => (match ParseInt(s) case Some(n) => Ok(n) case None => Err(ValueError))
    case _ => Err(TypeError)
  }

  /** `int(str(n)) == n` for the attribute text of a number. */
  lemma ToIntOfText(n: int)
    ensures ToInt(Str(IntToString(n))) == Ok(n)
  {
    ParseIntToString(n);
  }

  /** `str(x)` for the scalars; the `repr` of a container is not modelled. */
  function PyStr(j: Json): (r: Result<string>)
    ensures r.Ok? <==> !(j.List? || j.Obj?)
    ensures j == Null ==> r == Ok("None")
    ensures j.Str? ==> r == Ok(j.s)
  {
    match j
    case Null => Ok("None")
    case Bool(b) => Ok(if b then "True" else "False")
    case Int(i) => Ok(IntToString(i))
    case Str(s) => Ok(s)
    case _ => Err(TypeError)
  }

  /** Lists and dicts cannot be dict keys. */
  predicate Hashable(j: Json) {
    !(j.List? || j.Obj?)
  }
}
