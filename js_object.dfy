/** `Object.values` on an object whose keys are all integer-like: ECMAScript
    enumerates such keys in ascending numeric order, whatever order they were
    written in. */
module JsObject {

  import opened JsValue

  /** The keys of `keys` below `bound`, in ascending order. */
  function KeysBelow(keys: set<nat>, bound: nat): (ks: seq<nat>)
    ensures forall i, j :: 0 <= i < j < |ks| ==> ks[i] < ks[j]
    ensures forall i :: 0 <= i < |ks| ==> ks[i] < bound
    ensures forall k :: k in ks <==> k in keys && k < bound
    decreases bound
  {
    if bound == 0 then []
    else KeysBelow(keys, bound - 1) + (if bound - 1 in keys then [bound - 1] else [])
  }

  /** `Object.values(m)` for an object every key of which is below `bound`: the
      values in ascending order of their keys. */
  function ObjectValues(m: map<nat, Value>, bound: nat): (vs: seq<Value>)
    requires forall k :: k in m ==> k < bound
    ensures |vs| == |m|
    ensures var ks := KeysBelow(m.Keys, bound);
      |vs| == |ks| && forall i :: 0 <= i < |ks| ==> vs[i] == m[ks[i]]
  {
    var ks := KeysBelow(m.Keys, bound);
    KeysBelowCount(m.Keys, bound);
    seq(|ks|, i requires 0 <= i < |ks| => m[ks[i]])
  }

  /** When every key is below the bound, `KeysBelow` lists each key once. */
  lemma KeysBelowCount(keys: set<nat>, bound: nat)
    requires forall k :: k in keys ==> k < bound
    ensures |KeysBelow(keys, bound)| == |keys|
  {
    IncreasingCount(KeysBelow(keys, bound), keys);
  }

  /** A strictly increasing sequence is as long as the set of its elements. */
  lemma {:induction false} IncreasingCount(ks: seq<nat>, elems: set<nat>)
    requires forall i, j :: 0 <= i < j < |ks| ==> ks[i] < ks[j]
    requires forall k :: k in ks <==> k in elems
    ensures |ks| == |elems|
    decreases |ks|
  {
    if ks == [] {
      assert elems == {};
    } else {
      var last := ks[|ks| - 1];
      var init := ks[..|ks| - 1];
      assert ks == init + [last];
      assert last !in init by {
        forall i | 0 <= i < |init| ensures init[i] != last {
          assert init[i] == ks[i];
        }
      }
      assert forall k :: k in init <==> k in elems - {last};
      IncreasingCount(init, elems - {last});
      RemoveOneCount(elems, last);
    }
  }

  /** Taking one element out of a set lowers its size by one exactly when the
      element was there. */
  lemma RemoveOneCount(keys: set<nat>, b: nat)
    ensures |keys| == |keys - {b}| + if b in keys then 1 else 0
  {
    if b in keys {
      assert keys == (keys - {b}) + {b};
    } else {
      assert keys == keys - {b};
    }
  }

  /** Only the keys below the bound matter to `KeysBelow`. */
  lemma {:induction false} KeysBelowOnlyBelow(keys: set<nat>, other: set<nat>, bound: nat)
    requires forall k :: k < bound ==> (k in keys <==> k in other)
    ensures KeysBelow(keys, bound) == KeysBelow(other, bound)
    decreases bound
  {
    if bound > 0 {
      KeysBelowOnlyBelow(keys, other, bound - 1);
    }
  }

  /** Raising the bound past every key adds nothing. */
  lemma {:induction false} KeysBelowPastLast(keys: set<nat>, bound: nat, larger: nat)
    requires bound <= larger
    requires forall k :: k in keys ==> k < bound
    ensures KeysBelow(keys, larger) == KeysBelow(keys, bound)
    decreases larger
  {
    if bound < larger {
      KeysBelowPastLast(keys, bound, larger - 1);
    }
  }

  /** A key one past all the others comes last. */
  lemma KeysBelowAddTop(keys: set<nat>, top: nat)
    requires forall k :: k in keys ==> k < top
    ensures KeysBelow(keys, top + 1) == KeysBelow(keys, top)
    ensures KeysBelow(keys + {top}, top + 1) == KeysBelow(keys, top) + [top]
  {
    KeysBelowOnlyBelow(keys + {top}, keys, top);
  }

  /** Storing a value under a key one past all the others appends it. */
  lemma ObjectValuesAddTop(m: map<nat, Value>, top: nat, v: Value)
    requires forall k :: k in m ==> k < top
    ensures ObjectValues(m[top := v], top + 1) == ObjectValues(m, top) + [v]
  {
    KeysBelowAddTop(m.Keys, top);
    assert m[top := v].Keys == m.Keys + {top};
    var ks := KeysBelow(m.Keys, top);
    forall i | 0 <= i < |ks| ensures m[top := v][ks[i]] == m[ks[i]] {
      assert ks[i] < top;
    }
  }

  /** The result of `ObjectValues` does not depend on the bound chosen, as long
      as it exceeds every key. */
  lemma ObjectValuesBoundIrrelevant(m: map<nat, Value>, b1: nat, b2: nat)
    requires forall k :: k in m ==> k < b1
    requires forall k :: k in m ==> k < b2
    ensures ObjectValues(m, b1) == ObjectValues(m, b2)
  {
    if b1 <= b2 {
      KeysBelowPastLast(m.Keys, b1, b2);
    } else {
      KeysBelowPastLast(m.Keys, b2, b1);
    }
  }
}
