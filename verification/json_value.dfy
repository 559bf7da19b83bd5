/** The dynamically shaped values the front-end manipulates: what `JSON.parse`
    returns and what the XML mapper builds, as a tagged variant. Objects are
    ordered key/value lists, because JavaScript objects remember the order in
    which non-index string keys were first assigned. */
module JsonValue {
  import opened Wrappers

  datatype Value =
    | Null
    | Bool(b: bool)
    | Num(n: real)
    | Str(s: string)
    | Arr(items: seq<Value>)
    | Obj(fields: seq<(string, Value)>)

  /** The own properties of an object, in insertion order. */
  type Fields = seq<(string, Value)>

  /** The errors JavaScript raises in the code modelled here. */
  datatype TypeError =
    | ReadOfNull(property: string)       // reading `property` of null
    | ReadOfUndefined(property: string)  // reading `property` of undefined
    | NotAFunction(property: string)     // calling a `property` that is not callable

  /** The set of keys of an object. */
  function KeySet(fs: Fields): set<string> {
    if |fs| == 0 then {} else {fs[0].0} + KeySet(fs[1..])
  }

  /** Every key occurs at most once, as in a JavaScript object. */
  predicate UniqueKeys(fs: Fields) {
    |fs| == 0 || (fs[0].0 !in KeySet(fs[1..]) && UniqueKeys(fs[1..]))
  }

  /** Property read `obj[k]` on own properties: `None` is `undefined`. */
  function Lookup(fs: Fields, k: string): (r: Option<Value>)
    ensures r.Some? <==> k in KeySet(fs)
    ensures r.Some? ==> (k, r.value) in fs
  {
    if |fs| == 0 then None
    else if fs[0].0 == k then Some(fs[0].1)
    else Lookup(fs[1..], k)
  }

  /** Property write `obj[k] = v`: an existing key keeps its position and
      takes the new value, a new key is appended. */
  function Assign(fs: Fields, k: string, v: Value): (r: Fields)
    ensures Lookup(r, k) == Some(v)
    ensures forall j :: j != k ==> Lookup(r, j) == Lookup(fs, j)
    ensures KeySet(r) == KeySet(fs) + {k}
    ensures UniqueKeys(fs) ==> UniqueKeys(r)
    ensures k in KeySet(fs) ==> |r| == |fs| && forall i :: 0 <= i < |fs| ==> r[i].0 == fs[i].0
    ensures |fs| <= |r| && forall i :: 0 <= i < |fs| && fs[i].0 != k ==> r[i] == fs[i]
    ensures k !in KeySet(fs) ==> r == fs + [(k, v)]
  {
    if |fs| == 0 then [(k, v)]
    else if fs[0].0 == k then [(k, v)] + fs[1..]
    else
      var r := [fs[0]] + Assign(fs[1..], k, v);
      assert r[1..] == Assign(fs[1..], k, v);
      r
  }

  /** JavaScript truthiness: `null`, `false`, `0` and `""` are falsy. */
  predicate Truthy(v: Value) {
    match v
    case Null => false
    case Bool(b) => b
    case Num(n) => n != 0.0
    case Str(s) => s != ""
    case Arr(_) => true
    case Obj(_) => true
  }

  /** `base.name` for a base that may be `undefined`, for the property
      names read here. Only own properties of objects are modelled; reading
      a property of `null` or `undefined` throws, and reading one of a
      string, number, boolean or array yields `undefined`, as it does for
      any name other than `length`, an index or an inherited method. */
  function GetProperty(base: Option<Value>, name: string): (r: Result<Option<Value>, TypeError>)
    ensures base.None? ==> r == Failure(ReadOfUndefined(name))
    ensures base == Some(Null) ==> r == Failure(ReadOfNull(name))
    ensures base.Some? && base.value.Obj? ==> r == Success(Lookup(base.value.fields, name))
    ensures base.Some? && base.value != Null && !base.value.Obj? ==> r == Success(None)
    ensures r.Success? && r.value.Some? ==> base.Some? && base.value.Obj?
  {
    match base
    case None => Failure(ReadOfUndefined(name))
    case Some(Null) => Failure(ReadOfNull(name))
    case Some(Obj(fs)) => Success(Lookup(fs, name))
    case Some(_) => Success(None)
  }
}
