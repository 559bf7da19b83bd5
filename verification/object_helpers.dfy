/** `createStringEnum` and `renameProp`: two helpers over plain objects,
    modelled as maps from property names. A property whose value is
    `undefined` is still a property, so `renameProp` works on maps whose
    values are `Option<V>`, with `None` for `undefined`. */
module ObjectHelpers {
  import opened Wrappers

  /** `createStringEnum(keys)`: an object without a prototype in which each
      key names itself. */
  function CreateStringEnum(keys: seq<string>): (e: map<string, string>)
    ensures e.Keys == set k | k in keys
    ensures forall k :: k in e ==> e[k] == k
  {
    if |keys| == 0 then map[]
    else
      var last := keys[|keys| - 1];
      var e := CreateStringEnum(keys[..|keys| - 1])[last := last];
      assert keys == keys[..|keys| - 1] + [last];
      e
  }

  /** A repeated key collapses: adding a key already present changes
      nothing, and the order of the keys does not matter. */
  lemma StringEnumIgnoresRepeatsAndOrder(keys: seq<string>, k: string, other: seq<string>)
    ensures k in keys ==> CreateStringEnum(keys + [k]) == CreateStringEnum(keys)
    ensures (set x | x in keys) == (set x | x in other) ==> CreateStringEnum(keys) == CreateStringEnum(other)
  {
  }

  /** `obj[k]`: `undefined` for a missing property. */
  function Get<V>(m: map<string, Option<V>>, k: string): Option<V> {
    if k in m then m[k] else None
  }

  /** One step of `renameProp`: `obj[n] = obj[o]; delete obj[o]`. */
  function RenameStep<V>(m: map<string, Option<V>>, o: string, n: string): (r: map<string, Option<V>>)
    ensures o !in r
    ensures o != n ==> n in r && r[n] == Get(m, o)
    ensures forall k :: k != o && k != n ==> Get(r, k) == Get(m, k) && (k in r <==> k in m)
  {
    m[n := Get(m, o)] - {o}
  }

  /** `newKeys[index]`: past its end the key is `undefined`, which a
      property write turns into the name `"undefined"`. */
  function NewKeyAt(newKeys: seq<string>, i: nat): string {
    if i < |newKeys| then newKeys[i] else "undefined"
  }

  /** The names `renameProp` writes, one per old key. */
  function Targets(oldKeys: seq<string>, newKeys: seq<string>): (t: seq<string>)
    ensures |t| == |oldKeys|
    ensures forall i :: 0 <= i < |oldKeys| ==> t[i] == NewKeyAt(newKeys, i)
  {
    seq(|oldKeys|, (i: int) requires 0 <= i < |oldKeys| => NewKeyAt(newKeys, i))
  }

  /** `renameProp(oldKeys, newKeys, obj)`: the pairs are renamed one after
      the other in index order. The last old key is gone at the end, and
      names neither read nor written keep their value. */
  function RenameProp<V>(oldKeys: seq<string>, newKeys: seq<string>, m: map<string, Option<V>>): (r: map<string, Option<V>>)
    ensures |oldKeys| > 0 ==> oldKeys[|oldKeys| - 1] !in r
    ensures forall k :: k !in oldKeys && k !in Targets(oldKeys, newKeys) ==>
      Get(r, k) == Get(m, k) && (k in r <==> k in m)
  {
    if |oldKeys| == 0 then m
    else
      var n := |oldKeys| - 1;
      var prefix := oldKeys[..n];
      var before := RenameProp(prefix, newKeys, m);
      assert Targets(oldKeys, newKeys) == Targets(prefix, newKeys) + [NewKeyAt(newKeys, n)];
      assert oldKeys == prefix + [oldKeys[n]];
      RenameStep(before, oldKeys[n], NewKeyAt(newKeys, n))
  }

  /** Step `i` of the rename, between the first `i` pairs and the first
      `i + 1`: the old key is then absent and, unless it is its own new
      name, the new name holds the value the old key had at that moment. */
  lemma RenamePropStepwise<V>(oldKeys: seq<string>, newKeys: seq<string>, m: map<string, Option<V>>, i: nat)
    requires i < |oldKeys|
    ensures oldKeys[i] !in RenameProp(oldKeys[..i + 1], newKeys, m)
    ensures oldKeys[i] != NewKeyAt(newKeys, i) ==>
      NewKeyAt(newKeys, i) in RenameProp(oldKeys[..i + 1], newKeys, m)
      && RenameProp(oldKeys[..i + 1], newKeys, m)[NewKeyAt(newKeys, i)]
         == Get(RenameProp(oldKeys[..i], newKeys, m), oldKeys[i])
  {
    assert oldKeys[..i + 1][..i] == oldKeys[..i];
  }

  /** The names written by a prefix of the old keys are that prefix of the
      names written. */
  lemma TargetsOfPrefix(oldKeys: seq<string>, newKeys: seq<string>, n: nat)
    requires n <= |oldKeys|
    ensures Targets(oldKeys[..n], newKeys) == Targets(oldKeys, newKeys)[..n]
  {
  }

  /** A property neither read nor written by the rename keeps its value. */
  lemma RenameLeavesOthers<V>(oldKeys: seq<string>, newKeys: seq<string>, m: map<string, Option<V>>, k: string)
    requires k !in oldKeys && k !in Targets(oldKeys, newKeys)
    ensures Get(RenameProp(oldKeys, newKeys, m), k) == Get(m, k)
  {
  }

  /** No two entries of `xs` are equal. */
  predicate Distinct(xs: seq<string>) {
    forall i, j :: 0 <= i < j < |xs| ==> xs[i] != xs[j]
  }

  /** No entry of `a` is an entry of `b`. */
  predicate Disjoint(a: seq<string>, b: seq<string>) {
    forall i, j :: 0 <= i < |a| && 0 <= j < |b| ==> a[i] != b[j]
  }

  /** Splitting off the last old key and its new name: what remains is
      still distinct and apart, and the last pair is fresh for it. */
  lemma SplitLastPair(ps: seq<string>, ts: seq<string>)
    requires |ps| == |ts| > 0
    requires Distinct(ps) && Distinct(ts) && Disjoint(ps, ts)
    ensures Distinct(ps[..|ps| - 1]) && Distinct(ts[..|ts| - 1])
    ensures Disjoint(ps[..|ps| - 1], ts[..|ts| - 1])
    ensures ps[|ps| - 1] !in ps[..|ps| - 1] && ps[|ps| - 1] !in ts[..|ts| - 1]
    ensures ts[|ts| - 1] !in ps[..|ps| - 1] && ts[|ts| - 1] !in ts[..|ts| - 1]
    ensures ps[|ps| - 1] != ts[|ts| - 1]
  {
  }

  /** The facts of the rename so far, for old keys `ps` and new names
      `ts`: each new name holds the original value of its old key, and no
      old key is left. */
  ghost predicate Moved<V>(r: map<string, Option<V>>, m: map<string, Option<V>>, ps: seq<string>, ts: seq<string>)
    requires |ps| == |ts|
  {
    (forall i :: 0 <= i < |ps| ==> ts[i] in r && r[ts[i]] == Get(m, ps[i]))
    && (forall i :: 0 <= i < |ps| ==> ps[i] !in r)
  }

  /** One more rename step, of a last old key and last new name that are
      fresh, extends what has been moved by all the earlier pairs. */
  lemma StepExtendsMoved<V>(before: map<string, Option<V>>, m: map<string, Option<V>>,
                            ps: seq<string>, ts: seq<string>)
    requires |ps| == |ts| > 0
    requires Moved(before, m, ps[..|ps| - 1], ts[..|ts| - 1])
    requires ps[|ps| - 1] !in ps[..|ps| - 1] && ps[|ps| - 1] !in ts[..|ts| - 1]
    requires ts[|ts| - 1] !in ps[..|ps| - 1] && ts[|ts| - 1] !in ts[..|ts| - 1]
    requires ps[|ps| - 1] != ts[|ts| - 1]
    requires Get(before, ps[|ps| - 1]) == Get(m, ps[|ps| - 1])
    ensures Moved(RenameStep(before, ps[|ps| - 1], ts[|ts| - 1]), m, ps, ts)
  {
    var n := |ps| - 1;
    var r := RenameStep(before, ps[n], ts[n]);
    forall i | 0 <= i < n
      ensures ts[i] in r && r[ts[i]] == Get(m, ps[i]) && ps[i] !in r
    {
      assert ts[i] == ts[..n][i] && ps[i] == ps[..n][i];
    }
  }

  /** With distinct old keys, distinct new names and no name on both sides,
      each new name receives the original value of its old key and every
      old key is gone; by the frame of `RenameProp`, every other property is
      unchanged. */
  lemma {:induction false} RenameDisjointMovesEachValue<V>(oldKeys: seq<string>, newKeys: seq<string>, m: map<string, Option<V>>)
    requires Distinct(oldKeys) && Distinct(Targets(oldKeys, newKeys))
    requires Disjoint(oldKeys, Targets(oldKeys, newKeys))
    ensures Moved(RenameProp(oldKeys, newKeys, m), m, oldKeys, Targets(oldKeys, newKeys))
  {
    if |oldKeys| > 0 {
      var n := |oldKeys| - 1;
      var prefix := oldKeys[..n];
      var t := Targets(oldKeys, newKeys);
      TargetsOfPrefix(oldKeys, newKeys, n);
      SplitLastPair(oldKeys, t);
      RenameDisjointMovesEachValue(prefix, newKeys, m);
      var before := RenameProp(prefix, newKeys, m);
      RenameLeavesOthers(prefix, newKeys, m, oldKeys[n]);
      StepExtendsMoved(before, m, oldKeys, t);
    }
  }

  /** Renaming a key to itself deletes it; nothing else changes. */
  lemma RenameToSelfDeletes<V>(k: string, m: map<string, Option<V>>)
    ensures RenameProp([k], [k], m) == m - {k}
  {
  }

  /** Renaming a missing key creates the new name holding `undefined`. */
  lemma RenameMissingKeyGivesUndefined<V>(o: string, n: string, m: map<string, Option<V>>)
    requires o !in m && o != n
    ensures n in RenameProp([o], [n], m) && RenameProp([o], [n], m)[n] == None
  {
  }

  /** With fewer new names than old keys, the surplus old key is moved to a
      property literally named `"undefined"`. */
  lemma RenamePastNewKeysUsesUndefined<V>(o: string, m: map<string, Option<V>>)
    requires o != "undefined"
    ensures "undefined" in RenameProp([o], [], m)
    ensures RenameProp([o], [], m)["undefined"] == Get(m, o)
    ensures o !in RenameProp([o], [], m)
  {
  }
}
