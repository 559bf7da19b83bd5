/** `XMLHelper.xmlToJson`: a recursive fold that turns a parsed XML tree into
    a plain value. Attributes are stored first, each coerced through
    `JSON.parse`; then every child is converted and stored under its node
    name, a repeated name turning the stored value into an array. */
module XmlHelper {
  import opened Wrappers
  import opened JsonValue

  datatype Attribute = Attribute(name: string, value: string)

  /** The DOM nodes the conversion distinguishes: elements (node type 1),
      text (node type 3) and every other kind (the document, comments, CDATA
      sections, processing instructions), which only contribute children.
      A text node has no children in the DOM, so the type gives it none. */
  datatype Node =
    | Element(tag: string, attributes: seq<Attribute>, children: seq<Node>)
    | Text(text: string)
    | Other(name: string, children: seq<Node>)

  /** `JSON.parse` as an oracle: `None` when it throws. */
  type Parser = string -> Option<Value>

  /** The DOM `nodeName`: the tag of an element, `#text` for text. */
  function NodeName(n: Node): string {
    match n
    case Element(tag, _, _) => tag
    case Text(_) => "#text"
    case Other(name, _) => name
  }

  /** The names of a list of attributes. */
  function Names(attrs: seq<Attribute>): set<string> {
    if |attrs| == 0 then {} else {attrs[0].name} + Names(attrs[1..])
  }

  /** No two attributes share a name (the DOM guarantees this). */
  predicate DistinctNames(attrs: seq<Attribute>) {
    |attrs| == 0 || (attrs[0].name !in Names(attrs[1..]) && DistinctNames(attrs[1..]))
  }

  /** The node names of a list of children. */
  function ChildNames(kids: seq<Node>): set<string> {
    if |kids| == 0 then {} else {NodeName(kids[0])} + ChildNames(kids[1..])
  }

  /** The children called `k`, in document order. */
  function ChildrenNamed(kids: seq<Node>, k: string): (r: seq<Node>)
    ensures forall j :: 0 <= j < |r| ==> NodeName(r[j]) == k
    ensures |r| > 0 <==> k in ChildNames(kids)
  {
    if |kids| == 0 then []
    else if NodeName(kids[0]) == k then [kids[0]] + ChildrenNamed(kids[1..], k)
    else ChildrenNamed(kids[1..], k)
  }

  /** `try { JSON.parse(s) } catch { s }`. */
  function Coerce(parse: Parser, s: string): (v: Value)
    ensures parse(s).Some? ==> v == parse(s).value
    ensures parse(s).None? ==> v == Str(s)
  {
    match parse(s)
    case Some(parsed) => parsed
    case None => Str(s)
  }

  /** The attribute loop: each attribute is written under its name, in
      order, on top of the object built so far. */
  function StoreAttributes(parse: Parser, fs: Fields, attrs: seq<Attribute>): (r: Fields)
    ensures KeySet(r) == KeySet(fs) + Names(attrs)
    ensures UniqueKeys(fs) ==> UniqueKeys(r)
    ensures forall k :: k !in Names(attrs) ==> Lookup(r, k) == Lookup(fs, k)
    ensures DistinctNames(attrs) ==>
      forall i :: 0 <= i < |attrs| ==> Lookup(r, attrs[i].name) == Some(Coerce(parse, attrs[i].value))
    decreases attrs
  {
    if |attrs| == 0 then fs
    else
      var r := StoreAttributes(parse, Assign(fs, attrs[0].name, Coerce(parse, attrs[0].value)), attrs[1..]);
      assert DistinctNames(attrs) ==>
        forall i :: 0 <= i < |attrs| ==> Lookup(r, attrs[i].name) == Some(Coerce(parse, attrs[i].value))
      by {
        if DistinctNames(attrs) {
          forall i | 0 <= i < |attrs|
            ensures Lookup(r, attrs[i].name) == Some(Coerce(parse, attrs[i].value))
          {
            if i > 0 { assert attrs[i] == attrs[1..][i - 1]; }
          }
        }
      }
      r
  }

  /** The value a key holds after one more same-named child `v` arrives,
      ignoring failures: the first occurrence is stored as it is, an array
      grows by one, anything else becomes a two-element array. */
  function Add(cur: Option<Value>, v: Value): Value {
    match cur
    case None => v
    case Some(Arr(xs)) => Arr(xs + [v])
    case Some(stored) => Arr([stored, v])
  }

  /** A stored value onto which no further child can be pushed: `null`, or
      an object carrying an own `push` key. */
  predicate Blocked(cur: Option<Value>) {
    cur == Some(Null) || (cur.Some? && cur.value.Obj? && Lookup(cur.value.fields, "push").Some?)
  }

  /** Whether the stored value has a `push` member: arrays do, and so does an
      object with an own key `push`. */
  predicate HasPush(v: Value) {
    v.Arr? || (v.Obj? && Lookup(v.fields, "push").Some?)
  }

  /** One iteration of the child loop once the child has been converted to
      `v`: store it under `k` if nothing is there; otherwise promote a stored
      value without `push` to a one-element array and push `v`. Reading
      `push` of a stored `null` throws, and so does calling an own `push`
      key of a stored object, which is never a function. */
  function Store(fs: Fields, k: string, v: Value): (r: Result<Fields, TypeError>)
    ensures r.Failure? <==> Blocked(Lookup(fs, k))
    ensures r.Success? ==> Lookup(r.value, k) == Some(Add(Lookup(fs, k), v))
    ensures r.Success? ==> forall j :: j != k ==> Lookup(r.value, j) == Lookup(fs, j)
    ensures r.Success? ==> KeySet(r.value) == KeySet(fs) + {k}
    ensures r.Success? && UniqueKeys(fs) ==> UniqueKeys(r.value)
  {
    match Lookup(fs, k)
    case None => Success(Assign(fs, k, v))
    case Some(stored) =>
      if stored == Null then Failure(ReadOfNull("push"))
      else if HasPush(stored) then
        if stored.Arr? then Success(Assign(fs, k, Arr(stored.items + [v])))
        else Failure(NotAFunction("push"))
      else Success(Assign(fs, k, Arr([stored, v])))
  }

  /** `xmlToJson`. Every recursive call is on a strict subtree, so the
      conversion terminates. */
  function Convert(parse: Parser, n: Node): (r: Result<Value, TypeError>)
    ensures n.Text? ==> r == Success(Coerce(parse, n.text))
    ensures !n.Text? && r.Success? ==> r.value.Obj? && UniqueKeys(r.value.fields)
    ensures n.Element? && r.Success? ==>
      KeySet(r.value.fields) == Names(n.attributes) + ChildNames(n.children)
    ensures n.Other? && r.Success? ==> KeySet(r.value.fields) == ChildNames(n.children)
    decreases n
  {
    match n
    case Text(t) => Success(Coerce(parse, t))
    case Element(_, attrs, kids) =>
      var fs :- MergeChildren(parse, StoreAttributes(parse, [], attrs), kids);
      Success(Obj(fs))
    case Other(_, kids) =>
      var fs :- MergeChildren(parse, [], kids);
      Success(Obj(fs))
  }

  /** The child loop, in document order. A stored `null` fails before the
      child is converted; any other failure happens after it. */
  function MergeChildren(parse: Parser, fs: Fields, kids: seq<Node>): (r: Result<Fields, TypeError>)
    ensures r.Success? ==> KeySet(r.value) == KeySet(fs) + ChildNames(kids)
    ensures r.Success? && UniqueKeys(fs) ==> UniqueKeys(r.value)
    decreases kids
  {
    if |kids| == 0 then Success(fs)
    else
      var k := NodeName(kids[0]);
      if Lookup(fs, k) == Some(Null) then Failure(ReadOfNull("push"))
      else
        var v :- Convert(parse, kids[0]);
        var fs' :- Store(fs, k, v);
        MergeChildren(parse, fs', kids[1..])
  }

  // ---------------------------------------------------------------------
  // The child loop over already converted children, and a per-key
  // reference semantics for it.
  // ---------------------------------------------------------------------

  /** The converted children as (node name, value) entries, in document
      order; the first failing conversion fails the whole list. */
  function ConvertAll(parse: Parser, kids: seq<Node>): (r: Result<seq<(string, Value)>, TypeError>)
    ensures r.Success? ==> |r.value| == |kids|
    ensures r.Success? ==> forall i :: 0 <= i < |kids| ==> r.value[i].0 == NodeName(kids[i])
  {
    if |kids| == 0 then Success([])
    else
      var v :- Convert(parse, kids[0]);
      var rest :- ConvertAll(parse, kids[1..]);
      Success([(NodeName(kids[0]), v)] + rest)
  }

  /** The child loop run over converted entries. */
  function MergeValues(fs: Fields, es: seq<(string, Value)>): Result<Fields, TypeError>
    decreases |es|
  {
    if |es| == 0 then Success(fs)
    else
      var fs' :- Store(fs, es[0].0, es[0].1);
      MergeValues(fs', es[1..])
  }

  /** The values of the entries called `k`, in order. */
  function ValuesNamed(es: seq<(string, Value)>, k: string): seq<Value> {
    if |es| == 0 then []
    else if es[0].0 == k then [es[0].1] + ValuesNamed(es[1..], k)
    else ValuesNamed(es[1..], k)
  }

  /** What a single key ends up holding when the values `vs` arrive for it
      one after the other. */
  function FoldKey(cur: Option<Value>, vs: seq<Value>): Option<Value>
    decreases |vs|
  {
    if |vs| == 0 then cur else FoldKey(Some(Add(cur, vs[0])), vs[1..])
  }

  /** No value of `vs` arrives while the key is blocked. */
  predicate KeyOk(cur: Option<Value>, vs: seq<Value>)
    decreases |vs|
  {
    |vs| == 0 || (!Blocked(cur) && KeyOk(Some(Add(cur, vs[0])), vs[1..]))
  }

  /** Converting the children one at a time, interleaved with storing them,
      relates to converting them all first and then storing the values:
      when every child converts, both give the same result and the same
      error; if some conversion fails, the one-at-a-time loop fails too,
      though possibly with a different error, since a store can throw
      before a later child is converted. */
  lemma {:induction false} MergeChildrenIsMergeValues(parse: Parser, fs: Fields, kids: seq<Node>)
    ensures MergeChildren(parse, fs, kids).Success? ==> ConvertAll(parse, kids).Success?
    ensures ConvertAll(parse, kids).Success? ==>
      MergeChildren(parse, fs, kids) == MergeValues(fs, ConvertAll(parse, kids).value)
    decreases kids
  {
    if |kids| > 0 {
      var k := NodeName(kids[0]);
      if Lookup(fs, k) != Some(Null) && Convert(parse, kids[0]).Success? {
        var v := Convert(parse, kids[0]).value;
        if Store(fs, k, v).Success? {
          var fs' := Store(fs, k, v).value;
          MergeChildrenIsMergeValues(parse, fs', kids[1..]);
          if ConvertAll(parse, kids).Success? {
            var es := ConvertAll(parse, kids).value;
            assert es[0] == (k, v);
            assert es[1..] == ConvertAll(parse, kids[1..]).value;
          }
        }
      }
    }
  }

  /** One stored entry, seen from every key: the entry's own key moves one
      value along its fold, every other key is untouched. */
  lemma StoreStepPerKey(fs: Fields, e: (string, Value), rest: seq<(string, Value)>, k: string)
    requires Store(fs, e.0, e.1).Success?
    ensures KeyOk(Lookup(fs, k), ValuesNamed([e] + rest, k))
        == KeyOk(Lookup(Store(fs, e.0, e.1).value, k), ValuesNamed(rest, k))
    ensures FoldKey(Lookup(fs, k), ValuesNamed([e] + rest, k))
        == FoldKey(Lookup(Store(fs, e.0, e.1).value, k), ValuesNamed(rest, k))
  {
  }

  /** No key receives a value while it is blocked. */
  ghost predicate AllKeysOk(fs: Fields, es: seq<(string, Value)>) {
    forall k :: KeyOk(Lookup(fs, k), ValuesNamed(es, k))
  }

  /** A successful child loop never pushed onto a blocked key. */
  lemma {:induction false} MergeValuesSuccessKeysOk(fs: Fields, es: seq<(string, Value)>)
    requires MergeValues(fs, es).Success?
    ensures AllKeysOk(fs, es)
    decreases |es|
  {
    if |es| > 0 {
      var e := es[0];
      assert es == [e] + es[1..];
      var fs' := Store(fs, e.0, e.1).value;
      MergeValuesSuccessKeysOk(fs', es[1..]);
      forall k ensures KeyOk(Lookup(fs, k), ValuesNamed(es, k)) {
        StoreStepPerKey(fs, e, es[1..], k);
      }
    }
  }

  /** A child loop that never pushes onto a blocked key succeeds. */
  lemma {:induction false} KeysOkMergeValuesSucceeds(fs: Fields, es: seq<(string, Value)>)
    requires AllKeysOk(fs, es)
    ensures MergeValues(fs, es).Success?
    decreases |es|
  {
    if |es| > 0 {
      var e := es[0];
      assert es == [e] + es[1..];
      assert ValuesNamed(es, e.0) == [e.1] + ValuesNamed(es[1..], e.0);
      assert KeyOk(Lookup(fs, e.0), ValuesNamed(es, e.0));
      var fs' := Store(fs, e.0, e.1).value;
      forall k ensures KeyOk(Lookup(fs', k), ValuesNamed(es[1..], k)) {
        StoreStepPerKey(fs, e, es[1..], k);
      }
      KeysOkMergeValuesSucceeds(fs', es[1..]);
    }
  }

  /** The child loop succeeds exactly when no key receives a value while it
      is blocked. */
  lemma MergeValuesSucceedsIff(fs: Fields, es: seq<(string, Value)>)
    ensures MergeValues(fs, es).Success? <==> AllKeysOk(fs, es)
  {
    if MergeValues(fs, es).Success? {
      MergeValuesSuccessKeysOk(fs, es);
    }
    if AllKeysOk(fs, es) {
      KeysOkMergeValuesSucceeds(fs, es);
    }
  }

  /** When the child loop succeeds, every key holds the fold of the values
      that arrived for it over what it held before. */
  lemma {:induction false} MergeValuesFoldsEachKey(fs: Fields, es: seq<(string, Value)>, k: string)
    requires MergeValues(fs, es).Success?
    ensures Lookup(MergeValues(fs, es).value, k) == FoldKey(Lookup(fs, k), ValuesNamed(es, k))
    decreases |es|
  {
    if |es| > 0 {
      var e := es[0];
      assert es == [e] + es[1..];
      var fs' := Store(fs, e.0, e.1).value;
      MergeValuesFoldsEachKey(fs', es[1..], k);
      StoreStepPerKey(fs, e, es[1..], k);
    }
  }

  /** A key that receives values onto an array keeps that array and appends
      them all, without wrapping it again. */
  lemma {:induction false} FoldKeyOntoArray(xs: seq<Value>, vs: seq<Value>)
    ensures FoldKey(Some(Arr(xs)), vs) == Some(Arr(xs + vs))
    decreases |vs|
  {
    if |vs| > 0 {
      FoldKeyOntoArray(xs + [vs[0]], vs[1..]);
      assert xs + [vs[0]] + vs[1..] == xs + vs;
    } else {
      assert xs + vs == xs;
    }
  }

  /** A key holding a value that is not an array, once it receives at least
      one value, holds the array of the old value followed by the new ones. */
  lemma FoldKeyOntoScalar(x: Value, vs: seq<Value>)
    requires !x.Arr? && |vs| > 0
    ensures FoldKey(Some(x), vs) == Some(Arr([x] + vs))
  {
    FoldKeyOntoArray([x, vs[0]], vs[1..]);
    assert [x, vs[0]] + vs[1..] == [x] + vs;
  }

  /** A key nothing was stored under: no value leaves it unset, the first
      value is stored as it is, and two or more values form an array of all
      of them in order (appended to the first one if that was an array). */
  lemma FoldKeyFresh(vs: seq<Value>)
    ensures |vs| == 0 ==> FoldKey(None, vs) == None
    ensures |vs| == 1 ==> FoldKey(None, vs) == Some(vs[0])
    ensures |vs| >= 2 && !vs[0].Arr? ==> FoldKey(None, vs) == Some(Arr(vs))
    ensures |vs| >= 2 && vs[0].Arr? ==> FoldKey(None, vs) == Some(Arr(vs[0].items + vs[1..]))
  {
    if |vs| >= 2 {
      if vs[0].Arr? {
        FoldKeyOntoArray(vs[0].items, vs[1..]);
      } else {
        FoldKeyOntoScalar(vs[0], vs[1..]);
        assert [vs[0]] + vs[1..] == vs;
      }
    }
  }

  /** The converted values stored under `k` are those of the children
      called `k`, one per child, in document order. */
  lemma {:induction false} ChildValuesInDocumentOrder(parse: Parser, kids: seq<Node>, k: string)
    requires ConvertAll(parse, kids).Success?
    ensures |ValuesNamed(ConvertAll(parse, kids).value, k)| == |ChildrenNamed(kids, k)|
    ensures forall j :: 0 <= j < |ChildrenNamed(kids, k)| ==>
      Convert(parse, ChildrenNamed(kids, k)[j]) == Success(ValuesNamed(ConvertAll(parse, kids).value, k)[j])
    decreases kids
  {
    if |kids| > 0 {
      ChildValuesInDocumentOrder(parse, kids[1..], k);
      var es := ConvertAll(parse, kids).value;
      assert es[1..] == ConvertAll(parse, kids[1..]).value;
    }
  }

  /** A successfully converted element, key by key: the children all
      converted, and each key holds the fold of its same-named children's
      values over what the attribute pass stored there. */
  lemma ElementPerKey(parse: Parser, n: Node, fs: Fields, k: string)
    requires n.Element? && Convert(parse, n) == Success(Obj(fs))
    ensures ConvertAll(parse, n.children).Success?
    ensures ConvertAll(parse, n.children).Success? &&
      Lookup(fs, k) == FoldKey(Lookup(StoreAttributes(parse, [], n.attributes), k),
                               ValuesNamed(ConvertAll(parse, n.children).value, k))
  {
    var base := StoreAttributes(parse, [], n.attributes);
    MergeChildrenIsMergeValues(parse, base, n.children);
    MergeValuesFoldsEachKey(base, ConvertAll(parse, n.children).value, k);
  }

  // ---------------------------------------------------------------------
  // Properties of the conversion of one element.
  // ---------------------------------------------------------------------

  /** An element with no attributes and no children converts to `{}`. */
  lemma EmptyElementIsEmptyObject(parse: Parser, tag: string)
    ensures Convert(parse, Element(tag, [], [])) == Success(Obj([]))
  {
  }

  /** An attribute with no same-named child keeps the coerced attribute
      value: the parsed JSON when parsing succeeds, else the raw string. */
  lemma AttributeKeepsCoercedValue(parse: Parser, n: Node, fs: Fields, i: nat)
    requires n.Element? && Convert(parse, n) == Success(Obj(fs))
    requires DistinctNames(n.attributes) && i < |n.attributes|
    requires n.attributes[i].name !in ChildNames(n.children)
    ensures Lookup(fs, n.attributes[i].name) == Some(Coerce(parse, n.attributes[i].value))
  {
    var k := n.attributes[i].name;
    ElementPerKey(parse, n, fs, k);
    ChildValuesInDocumentOrder(parse, n.children, k);
  }

  /** The only child called `k`, with no attribute called `k`, is stored as
      its converted value, not wrapped in an array. */
  lemma SingleChildIsNotWrapped(parse: Parser, n: Node, fs: Fields, k: string)
    requires n.Element? && Convert(parse, n) == Success(Obj(fs))
    requires k !in Names(n.attributes) && |ChildrenNamed(n.children, k)| == 1
    ensures Lookup(fs, k).Some?
    ensures Convert(parse, ChildrenNamed(n.children, k)[0]) == Success(Lookup(fs, k).value)
  {
    ElementPerKey(parse, n, fs, k);
    ChildValuesInDocumentOrder(parse, n.children, k);
    FoldKeyFresh(ValuesNamed(ConvertAll(parse, n.children).value, k));
  }

  /** Two or more child elements called `k`, with no attribute called `k`,
      are stored as one array holding their converted values, one entry per
      child, in document order. */
  lemma RepeatedChildrenFormArray(parse: Parser, n: Node, fs: Fields, k: string)
    requires n.Element? && Convert(parse, n) == Success(Obj(fs))
    requires k !in Names(n.attributes) && k != "#text"
    requires |ChildrenNamed(n.children, k)| >= 2
    ensures Lookup(fs, k).Some? && Lookup(fs, k).value.Arr?
    ensures |Lookup(fs, k).value.items| == |ChildrenNamed(n.children, k)|
    ensures forall j :: 0 <= j < |ChildrenNamed(n.children, k)| ==>
      Convert(parse, ChildrenNamed(n.children, k)[j]) == Success(Lookup(fs, k).value.items[j])
  {
    ElementPerKey(parse, n, fs, k);
    ChildValuesInDocumentOrder(parse, n.children, k);
    var vs := ValuesNamed(ConvertAll(parse, n.children).value, k);
    var first := ChildrenNamed(n.children, k)[0];
    assert !first.Text? && Convert(parse, first) == Success(vs[0]);
    FoldKeyFresh(vs);
  }

  /** An attribute whose value parses to an array is extended by the
      same-named children's values, in document order, without being
      wrapped: attributes are written before children. */
  lemma AttributeArrayIsExtended(parse: Parser, n: Node, i: nat, xs: seq<Value>)
    requires n.Element? && DistinctNames(n.attributes) && i < |n.attributes|
    requires Coerce(parse, n.attributes[i].value) == Arr(xs)
    ensures Convert(parse, n).Success? ==>
      Convert(parse, n).value.Obj? && ConvertAll(parse, n.children).Success?
      && Lookup(Convert(parse, n).value.fields, n.attributes[i].name)
         == Some(Arr(xs + ValuesNamed(ConvertAll(parse, n.children).value, n.attributes[i].name)))
  {
    if Convert(parse, n).Success? {
      var k := n.attributes[i].name;
      ElementPerKey(parse, n, Convert(parse, n).value.fields, k);
      FoldKeyOntoArray(xs, ValuesNamed(ConvertAll(parse, n.children).value, k));
    }
  }

  /** A child whose name is that of an attribute holding `null` makes the
      conversion throw: `typeof null` is not `"undefined"`, so the code reads
      `push` of `null`. */
  lemma NullAttributeCollision(parse: Parser, n: Node, i: nat)
    requires n.Element? && DistinctNames(n.attributes) && i < |n.attributes|
    requires Coerce(parse, n.attributes[i].value) == Null
    requires n.attributes[i].name in ChildNames(n.children)
    ensures Convert(parse, n).Failure?
  {
    var k := n.attributes[i].name;
    var base := StoreAttributes(parse, [], n.attributes);
    MergeChildrenIsMergeValues(parse, base, n.children);
    if ConvertAll(parse, n.children).Success? {
      var es := ConvertAll(parse, n.children).value;
      ChildValuesInDocumentOrder(parse, n.children, k);
      assert Lookup(base, k) == Some(Null);
      assert !KeyOk(Lookup(base, k), ValuesNamed(es, k));
      MergeValuesSucceedsIff(base, es);
    }
  }
}
