/**
 * The JavaScript values the application stores and copies: the catalog's track record,
 * the projection of it kept in the playlist, and what a property read returns.
 * Numbers are integers here; JavaScript's floating point is not modelled.
 */
module Json {
  import opened Wrappers

  datatype Value =
    | Undefined
    | Null
    | Bool(b: bool)
    | Num(n: int)
    | Str(s: string)
    | Arr(items: seq<Value>)
    | Obj(fields: map<string, Value>)

  /** JavaScript truthiness: undefined, null, false, 0 and "" are falsy; objects and arrays,
      even empty ones, are truthy. */
  function Truthy(v: Value): (b: bool)
    ensures v.Obj? || v.Arr? ==> b
    ensures v.Undefined? || v.Null? ==> !b
  {
    match v
    case Undefined => false
    case Null => false
    case Bool(b) => b
    case Num(n) => n != 0
    case Str(s) => s != ""
    case Arr(_) => true
    case Obj(_) => true
  }

  /** The falsy values are exactly undefined, null, false, 0 and the empty string. */
  lemma FalsyValues(v: Value)
    ensures !Truthy(v) <==> v in {Undefined, Null, Bool(false), Num(0), Str("")}
  {
  }

  /** `v[k]`: the field of an object, undefined when it is missing or `v` is not an object. */
  function Get(v: Value, k: string): (r: Value)
    ensures r != Undefined ==> v.Obj? && k in v.fields && r == v.fields[k]
    ensures v.Obj? && k in v.fields ==> r == v.fields[k]
  {
    if v.Obj? && k in v.fields then v.fields[k] else Undefined
  }

  /** Follows a path of field names, `v[p0][p1]...`. */
  function Lookup(v: Value, path: seq<string>): (r: Value)
    ensures path == [] ==> r == v
    ensures path != [] && r != Undefined ==> v.Obj? && path[0] in v.fields
    decreases path
  {
    if path == [] then v else Lookup(Get(v, path[0]), path[1..])
  }

  /** A path of one field is a single read. */
  lemma LookupOne(v: Value, k: string)
    ensures Lookup(v, [k]) == Get(v, k)
  {
    assert [k][1..] == [];
  }

  /** `v[i]` on an array: the element, undefined when out of range or `v` is not an array. */
  function At(v: Value, i: nat): (r: Value)
    ensures v.Arr? && i < |v.items| ==> r == v.items[i]
    ensures !v.Arr? ==> r == Undefined
  {
    if v.Arr? && i < |v.items| then v.items[i] else Undefined
  }

  /** A property read `v.k` that throws a TypeError (None) when `v` is undefined or null. */
  function Read(v: Value, k: string): (r: Option<Value>)
    ensures r.None? <==> v == Undefined || v == Null
    ensures r.Some? ==> r.value == Get(v, k)
  {
    if v == Undefined || v == Null then None else Some(Get(v, k))
  }
}
