/** Stores that go wrong are never made good: when what the reader stores for a table is not its copy. */
module SeriSpoil {
  import opened Bits
  import opened LuaValues
  import opened SeriFormat
  import opened SeriRead
  import opened SeriWalk
  import opened SeriSimulation
  import opened SeriCopy

  // ---------- any stores at all ----------

  function StoreValues(m: Entries, xs: seq<Value>, i: int): Entries
    decreases |xs|
  {
    if xs == [] then m else StoreValues(RawSet(m, IndexKey(i), xs[0]), xs[1..], i + 1)
  }

  function StoreKeyed(m: Entries, ks: seq<Value>, xs: seq<Value>): Entries
    requires |ks| == |xs|
    decreases |ks|
  {
    if ks == [] then m else StoreKeyed(RawSet(m, ks[0], xs[0]), ks[1..], xs[1..])
  }

  /** Every entry the writer writes is there with its value. */
  ghost predicate Copies(m: Entries, t: TableObj, final: seq<nat>)
  {
    forall p :: p in t.pairs && !Lost(p.0, t.border) ==>
      Image(final, p.0) in m && m[Image(final, p.0)] == Image(final, p.1)
  }

  /** One entry of the table is not there, or not with its value. */
  lemma NoCopyWithout(m: Entries, t: TableObj, final: seq<nat>, p: (Value, Value))
    requires p in t.pairs && !Lost(p.0, t.border)
    requires !(Image(final, p.0) in m && m[Image(final, p.0)] == Image(final, p.1))
    ensures !Copies(m, t, final)
  {
  }

  // ---------- too few stores ----------

  function NonNil(vs: seq<Value>): nat
  {
    if vs == [] then 0 else (if vs[0].Nil? then 0 else 1) + NonNil(vs[1..])
  }

  lemma RawSetSize(m: Entries, k: Value, v: Value)
    ensures |RawSet(m, k, v)| <= |m| + if v.Nil? then 0 else 1
  {
    var key := if k == Number(MINUS_ZERO) then Number(0) else k;
    if v.Nil? {
      assert (m - {key}).Keys <= m.Keys;
      SubsetSize(RawSet(m, k, v).Keys, m.Keys);
      SizeOfKeys(m);
      SizeOfKeys(RawSet(m, k, v));
    } else {
      assert m[key := v].Keys == m.Keys + {key};
      SizeOfKeys(m);
      SizeOfKeys(m[key := v]);
    }
  }

  lemma SizeOfKeys(m: Entries)
    ensures |m| == |m.Keys|
  {
  }

  lemma SubsetSize(a: set<Value>, b: set<Value>)
    requires a <= b
    ensures |a| <= |b|
  {
    assert b == a + (b - a);
  }

  lemma {:induction false} StoreValuesSize(m: Entries, vs: seq<Value>, xs: seq<Value>, i: int)
    requires |xs| == |vs| && forall q :: 0 <= q < |vs| && vs[q].Nil? ==> xs[q].Nil?
    ensures |StoreValues(m, xs, i)| <= |m| + NonNil(vs)
    decreases |xs|
  {
    hide RawSet;
    if xs != [] {
      RawSetSize(m, IndexKey(i), xs[0]);
      StoreValuesSize(RawSet(m, IndexKey(i), xs[0]), vs[1..], xs[1..], i + 1);
    }
  }

  lemma {:induction false} StoreKeyedSize(m: Entries, ks: seq<Value>, xs: seq<Value>)
    requires |ks| == |xs|
    ensures |StoreKeyed(m, ks, xs)| <= |m| + |ks|
    decreases |ks|
  {
    hide RawSet;
    if ks != [] {
      RawSetSize(m, ks[0], xs[0]);
      StoreKeyedSize(RawSet(m, ks[0], xs[0]), ks[1..], xs[1..]);
    }
  }

  lemma IndexKeysApart(i: nat, j: nat)
    requires 0 < i < TWO_31 && 0 < j < TWO_31
    ensures IndexKey(i) == IndexKey(j) <==> i == j
    ensures IndexKey(i) != Number(MINUS_ZERO)
  {
    hide OfInteger, ToInteger;
    ToIntegerOfIndex(i);
    ToIntegerOfIndex(j);
  }

  lemma FirstStore(m: Entries, k: Value, v: Value)
    requires k !in m && k != Number(MINUS_ZERO)
    ensures |RawSet(m, k, v)| == |m| + if v.Nil? then 0 else 1
    ensures forall key :: key in RawSet(m, k, v) ==> key in m || key == k
  {
    if v.Nil? {
      assert RawSet(m, k, v) == m;
    } else {
      assert RawSet(m, k, v).Keys == m.Keys + {k};
    }
  }

  /** The array pass stores each element that is not nil under a key of its own. */
  lemma {:induction false} StoreArraySize(m: Entries, vs: seq<Value>, i: nat, final: seq<nat>)
    requires 0 < i && i + |vs| <= TWO_31
    requires forall y :: i <= y < i + |vs| ==> IndexKey(y) !in m
    ensures |StoreArray(m, vs, i, final)| == |m| + NonNil(vs)
    decreases |vs|
  {
    hide IndexKey, RawSet, Num;
    if vs != [] {
      var m' := RawSet(m, IndexKey(i), Image(final, vs[0]));
      IndexKeysApart(i, i);
      FirstStore(m, IndexKey(i), Image(final, vs[0]));
      forall y | i + 1 <= y < i + |vs| ensures IndexKey(y) !in m' {
        IndexKeysApart(i, y);
      }
      StoreArraySize(m', vs[1..], i + 1, final);
    }
  }

  /** The hash pass stores each pair under a key of its own. */
  lemma {:induction false} StorePairsSize(h: LuaHeap, m: Entries, pairs: seq<(Value, Value)>, final: seq<nat>)
    requires ValidPairs(h, pairs) && KeysNumbered(pairs, final)
    requires forall i :: 0 <= i < |pairs| ==> Image(final, pairs[i].0) !in m
    ensures |StorePairs(m, pairs, final)| == |m| + |pairs|
    decreases |pairs|
  {
    if pairs != [] {
      var k := Image(final, pairs[0].0);
      assert pairs[0].0 != Number(MINUS_ZERO) && k !in m;
      var m' := RawSet(m, k, Image(final, pairs[0].1));
      assert m'.Keys == m.Keys + {k};
      forall i | 0 <= i < |pairs[1..]| ensures Image(final, pairs[1..][i].0) !in m' {
        assert pairs[1..][i] == pairs[i + 1];
        if Image(final, pairs[i + 1].0) == k {
          ImageInjective(final, pairs[i + 1].0, pairs[0].0);
        }
      }
      StorePairsSize(h, m', pairs[1..], final);
    }
  }

  lemma BuiltSize(h: LuaHeap, t: TableObj, final: seq<nat>)
    requires ValidPairs(h, t.pairs) && t.border < TWO_31 && KeysNumbered(t.pairs, final)
    ensures |Built(t, final)| == NonNil(ArrayPart(t)) + |HashPart(t)|
  {
    hide StorePairs, StoreArray, EmittedPairs, RawSet, IndexKey, ToInteger;
    var m := StoreArray(map[], ArrayPart(t), 1, final);
    StoreArraySize(map[], ArrayPart(t), 1, final);
    HashPartValid(h, t.pairs, t.border);
    HashPartNumbered(t, final);
    forall i | 0 <= i < |HashPart(t)| ensures Image(final, HashPart(t)[i].0) !in m {
      NotInArray(t, final, HashPart(t)[i]);
    }
    StorePairsSize(h, m, HashPart(t), final);
  }

  lemma NotInArray(t: TableObj, final: seq<nat>, p: (Value, Value))
    requires t.border < TWO_31 && p in HashPart(t)
    ensures Image(final, p.0) !in StoreArray(map[], ArrayPart(t), 1, final)
  {
    hide StoreArray, EmittedPairs, OfInteger, ToInteger;
    EmittedExactly(t.pairs, t.border, p);
    StoreArrayOther(map[], ArrayPart(t), 1, final, Image(final, p.0));
  }

  /** A copy has at least as many entries as the stores of both passes make. */
  lemma CopySize(h: LuaHeap, t: TableObj, final: seq<nat>, m: Entries)
    requires ValidPairs(h, t.pairs) && t.border < TWO_31 && KeysNumbered(t.pairs, final) && Copies(m, t, final)
    ensures |m| >= NonNil(ArrayPart(t)) + |HashPart(t)|
  {
    hide Built, Lost, Image, HashPart, ArrayPart;
    BuiltIsCopy(h, t, final);
    var b := Built(t, final);
    forall key | key in b ensures key in m {
      var p :| p in t.pairs && !Lost(p.0, t.border) && Image(final, p.0) == key;
    }
    SubsetSize(b.Keys, m.Keys);
    SizeOfKeys(m);
    SizeOfKeys(b);
    BuiltSize(h, t, final);
  }

  /** A hash pass that ends before its last pair leaves too few entries. */
  lemma TooFewStores(h: LuaHeap, t: TableObj, final: seq<nat>, vs: seq<Value>, ks: seq<Value>, xs: seq<Value>)
    requires ValidPairs(h, t.pairs) && t.border < TWO_31 && KeysNumbered(t.pairs, final)
    requires |vs| == t.border && forall q :: 0 <= q < |vs| && ArrayPart(t)[q].Nil? ==> vs[q].Nil?
    requires |ks| == |xs| < |HashPart(t)|
    ensures !Copies(StoreKeyed(StoreValues(map[], vs, 1), ks, xs), t, final)
  {
    hide StoreKeyed, StoreValues, Copies, HashPart, ArrayPart;
    StoreValuesSize(map[], ArrayPart(t), vs, 1);
    StoreKeyedSize(StoreValues(map[], vs, 1), ks, xs);
    if Copies(StoreKeyed(StoreValues(map[], vs, 1), ks, xs), t, final) {
      CopySize(h, t, final, StoreKeyed(StoreValues(map[], vs, 1), ks, xs));
    }
  }

  // ---------- stores under wrong keys ----------

  /** How a value comes out of the reader: as its image, but for short references, which give what their slot holds. */
  predicate ValueRead(x: Value, v: Value, st: RState, open: seq<nat>, final: seq<nat>)
    requires |st.ancestor| == MAX_DEPTH
  {
    if v.Table? && ShortRef(open, v.id).Some? then
      var i := ShortRef(open, v.id).value;
      i < st.depth && x == StackAt(st.stack, st.ancestor[i])
    else x == Image(final, v)
  }

  /** What the slots hold while the keys of the innermost table are read: the right table, or, for the indices in u,
      something that is none of the tables at a smaller or equal index in u. */
  ghost predicate SlotsKnown(st: RState, open: seq<nat>, final: seq<nat>, u: set<nat>)
  {
    && |st.ancestor| == MAX_DEPTH && |open| < MAX_DEPTH && NoDuplicates(open) && NoDuplicates(final)
    && (forall i :: 0 <= i < |open| ==> open[i] in final)
    && forall i :: 0 <= i < |open| && i < st.depth ==>
         if i in u then NoneOf(StackAt(st.stack, st.ancestor[i]), open, final, u, i)
         else StackAt(st.stack, st.ancestor[i]) == Table(Num(final, open[i]))
  }

  /** x is not the image of an open table whose index is in u and at most i. */
  ghost predicate NoneOf(x: Value, open: seq<nat>, final: seq<nat>, u: set<nat>, i: int)
  {
    forall j :: 0 <= j < |open| && j <= i && j in u ==> x != Table(Num(final, open[j]))
  }

  ghost predicate NoneIn(m: Entries, open: seq<nat>, final: seq<nat>, u: set<nat>, i: int)
  {
    forall key :: key in m ==> NoneOf(key, open, final, u, i)
  }

  lemma NoneInStored(m: Entries, k: Value, x: Value, open: seq<nat>, final: seq<nat>, u: set<nat>, i: int)
    requires NoneIn(m, open, final, u, i) && NoneOf(k, open, final, u, i)
    ensures NoneIn(RawSet(m, k, x), open, final, u, i)
  {
  }

  /** A key that is not read through a slot in u is read as its image, which is no open table in u. */
  lemma RightKey(k: Value, x: Value, st: RState, open: seq<nat>, final: seq<nat>, u: set<nat>)
    requires SlotsKnown(st, open, final, u) && ValueRead(x, k, st, open, final) && (k.Table? ==> k.id in final)
    requires open != []
    ensures (k.Table? && k.id in open && ShortRef(open, k.id).value in u)
            || (x == Image(final, k) && NoneOf(x, open, final, u, |open|))
  {
    if k.Table? && k.id in open {
      var i := ShortRef(open, k.id).value;
      assert open[i] == k.id;
      forall j | 0 <= j < |open| && j in u && i !in u ensures Num(final, open[j]) != Num(final, k.id) {
        assert open[j] != open[i];
      }
    }
  }

  /** One key of the table was misread through slot i: then, of all its misread keys, the one with the smallest index
      is stored by nobody. */
  lemma {:induction false} KeySpoils(t: TableObj, m: Entries, pairs: seq<(Value, Value)>, ks: seq<Value>,
                                     xs: seq<Value>, st: RState, open: seq<nat>, final: seq<nat>, u: set<nat>,
                                     p: (Value, Value), i: nat)
    requires SlotsKnown(st, open, final, u) && |ks| == |xs| <= |pairs|
    requires forall q :: 0 <= q < |pairs| ==> pairs[q] in t.pairs && (pairs[q].0.Table? ==> pairs[q].0.id in final)
    requires forall q :: 0 <= q < |ks| ==> ValueRead(ks[q], pairs[q].0, st, open, final)
    requires i < |open| && i in u && p in t.pairs && p.0 == Table(open[i]) && NoneIn(m, open, final, u, i)
    ensures !Copies(StoreKeyed(m, ks, xs), t, final)
    decreases |ks|
  {
    if ks == [] {
      NoCopyWithout(m, t, final, p);
    } else {
      var k := pairs[0].0;
      var m' := RawSet(m, ks[0], xs[0]);
      RightKey(k, ks[0], st, open, final, u);
      if k.Table? && k.id in open && ShortRef(open, k.id).value in u && ShortRef(open, k.id).value < i {
        var i' := ShortRef(open, k.id).value;
        NoneInStored(m, ks[0], xs[0], open, final, u, i');
        KeySpoils(t, m', pairs[1..], ks[1..], xs[1..], st, open, final, u, pairs[0], i');
      } else {
        NoneInStored(m, ks[0], xs[0], open, final, u, i);
        KeySpoils(t, m', pairs[1..], ks[1..], xs[1..], st, open, final, u, p, i);
      }
    }
  }

  /** One entry of the table is wrong, and none of the pairs still to come has its key. */
  lemma {:induction false} EntrySpoils(t: TableObj, m: Entries, pairs: seq<(Value, Value)>, ks: seq<Value>,
                                       xs: seq<Value>, st: RState, open: seq<nat>, final: seq<nat>, u: set<nat>,
                                       p: (Value, Value))
    requires SlotsKnown(st, open, final, u) && open != [] && |ks| == |xs| <= |pairs|
    requires forall q :: 0 <= q < |pairs| ==> pairs[q] in t.pairs && (pairs[q].0.Table? ==> pairs[q].0.id in final)
    requires forall q :: 0 <= q < |pairs| ==> ValidKey(pairs[q].0) && pairs[q].0 != p.0
    requires forall q :: 0 <= q < |ks| ==> ValueRead(ks[q], pairs[q].0, st, open, final)
    requires p in t.pairs && !Lost(p.0, t.border) && (p.0.Table? ==> p.0.id in final)
    requires !(Image(final, p.0) in m && m[Image(final, p.0)] == Image(final, p.1))
    requires NoneIn(m, open, final, u, |open|)
    ensures !Copies(StoreKeyed(m, ks, xs), t, final)
    decreases |ks|
  {
    hide Lost;
    if ks == [] {
      NoCopyWithout(m, t, final, p);
    } else {
      var k := pairs[0].0;
      var m' := RawSet(m, ks[0], xs[0]);
      RightKey(k, ks[0], st, open, final, u);
      if k.Table? && k.id in open && ShortRef(open, k.id).value in u {
        KeySpoils(t, m, pairs, ks, xs, st, open, final, u, pairs[0], ShortRef(open, k.id).value);
      } else {
        NoneInStored(m, ks[0], xs[0], open, final, u, |open|);
        if Image(final, k) == Image(final, p.0) {
          ImageInjective(final, k, p.0);
        }
        EntrySpoils(t, m', pairs[1..], ks[1..], xs[1..], st, open, final, u, p);
      }
    }
  }
}
