/** The array pass and the hash pass together store every surviving entry of a table exactly once. */
module SeriCopy {
  import opened Bits
  import opened LuaValues
  import opened Doubles
  import opened SeriWalk
  import opened SeriSimulation

  /** A number key with a fraction, above 1 and less than 1 above the border: neither pass writes it. */
  predicate Lost(k: Value, border: nat)
  {
    k.Number? && 1.0 < ValueOf(k.bits) < border as real + 1.0 && !Whole(ValueOf(k.bits))
  }

  /** Told by the conversion to an integer: the array pass seems to have covered the key, but has covered another. */
  lemma LostIsDropped(k: Value, border: nat)
    requires border < TWO_31
    ensures Lost(k, border) <==> Skipped(k, border) && k != IndexKey(ToInteger(k.bits))
  {
    hide ValueOf, ToInteger, OfInteger;
    if k.Number? {
      IntegerPartWithin(k.bits, border);
      if Skipped(k, border) {
        IntegerPartIsAll(k.bits, border);
      }
      if ValueOf(k.bits) == 1.0 {
        assert Whole(1.0);
      }
    }
  }

  /** The hash pass writes an entry exactly when it is in the table and its key is no number in [1, border + 1). */
  lemma EmittedByValue(pairs: seq<(Value, Value)>, border: nat, p: (Value, Value))
    requires border < TWO_31
    ensures p in EmittedPairs(pairs, border) <==>
            p in pairs && !(p.0.Number? && 1.0 <= ValueOf(p.0.bits) < border as real + 1.0)
  {
    hide ValueOf, ToInteger, EmittedPairs;
    EmittedExactly(pairs, border, p);
    if p.0.Number? {
      IntegerPartWithin(p.0.bits, border);
    }
  }

  /** m holds the renamed entries of t, all of them and nothing else, apart from those `without` leaves out. */
  ghost predicate CopyWithout(m: Entries, t: TableObj, final: seq<nat>, without: Value -> bool)
  {
    && (forall p :: p in t.pairs && !without(p.0) ==>
          Image(final, p.0) in m && m[Image(final, p.0)] == Image(final, p.1))
    && (forall key :: key in m ==> exists p :: p in t.pairs && !without(p.0) && Image(final, p.0) == key)
  }

  ghost predicate FullCopy(m: Entries, t: TableObj, final: seq<nat>)
  {
    CopyWithout(m, t, final, k => false)
  }

  /** All tables used as keys have a number, so renaming keeps keys apart. */
  ghost predicate KeysNumbered(pairs: seq<(Value, Value)>, final: seq<nat>)
  {
    forall i :: 0 <= i < |pairs| && pairs[i].0.Table? ==> pairs[i].0.id in final
  }

  lemma ImageInjective(final: seq<nat>, a: Value, b: Value)
    requires a.Table? ==> a.id in final
    requires b.Table? ==> b.id in final
    requires Image(final, a) == Image(final, b)
    ensures a == b
  {
  }

  lemma {:induction false} StoreArrayAt(m: Entries, vs: seq<Value>, i: nat, final: seq<nat>, j: nat)
    requires 0 < i && i + |vs| <= TWO_31 && j < |vs|
    ensures var r := StoreArray(m, vs, i, final);
            var key := IndexKey(i + j);
            if vs[j].Nil? then key !in r else key in r && r[key] == Image(final, vs[j])
    decreases |vs|
  {
    hide OfInteger, ToInteger, IsNaN, Num;
    ToIntegerOfIndex(i + j);
    ToIntegerOfIndex(i);
    var m' := RawSet(m, IndexKey(i), Image(final, vs[0]));
    if j == 0 {
      StoreArrayOther(m', vs[1..], i + 1, final, IndexKey(i));
    } else {
      StoreArrayAt(m', vs[1..], i + 1, final, j - 1);
      assert vs[1..][j - 1] == vs[j];
    }
  }

  lemma {:induction false} StoreArrayOther(m: Entries, vs: seq<Value>, i: nat, final: seq<nat>, key: Value)
    requires 0 < i && i + |vs| <= TWO_31
    requires key.Number? ==> !(i <= ToInteger(key.bits) < i + |vs|) || key != IndexKey(ToInteger(key.bits))
    ensures var r := StoreArray(m, vs, i, final);
            (key in r <==> key in m) && (key in m ==> r[key] == m[key])
    decreases |vs|
  {
    hide OfInteger, ToInteger, IsNaN, Num;
    if vs != [] {
      ToIntegerOfIndex(i);
      StoreArrayOther(RawSet(m, IndexKey(i), Image(final, vs[0])), vs[1..], i + 1, final, key);
    }
  }

  lemma {:induction false} StorePairsOther(h: LuaHeap, m: Entries, pairs: seq<(Value, Value)>, final: seq<nat>,
                                           key: Value)
    requires ValidPairs(h, pairs)
    requires forall i :: 0 <= i < |pairs| ==> Image(final, pairs[i].0) != key
    ensures var r := StorePairs(m, pairs, final);
            (key in r <==> key in m) && (key in m ==> r[key] == m[key])
    decreases |pairs|
  {
    if pairs != [] {
      assert pairs[0].0 != Number(MINUS_ZERO);
      StorePairsOther(h, RawSet(m, Image(final, pairs[0].0), Image(final, pairs[0].1)), pairs[1..], final, key);
    }
  }

  lemma {:induction false} StorePairsAt(h: LuaHeap, m: Entries, pairs: seq<(Value, Value)>, final: seq<nat>, q: nat)
    requires ValidPairs(h, pairs) && KeysNumbered(pairs, final) && q < |pairs|
    ensures var r := StorePairs(m, pairs, final);
            Image(final, pairs[q].0) in r && r[Image(final, pairs[q].0)] == Image(final, pairs[q].1)
    decreases |pairs|
  {
    var m' := RawSet(m, Image(final, pairs[0].0), Image(final, pairs[0].1));
    if q > 0 {
      StorePairsAt(h, m', pairs[1..], final, q - 1);
    } else {
      var key := Image(final, pairs[0].0);
      assert key in m' && m'[key] == Image(final, pairs[0].1);
      forall i | 0 <= i < |pairs[1..]| ensures Image(final, pairs[1..][i].0) != key {
        if Image(final, pairs[i + 1].0) == key {
          ImageInjective(final, pairs[i + 1].0, pairs[0].0);
        }
      }
      StorePairsOther(h, m', pairs[1..], final, key);
    }
  }

  lemma HashPartNumbered(t: TableObj, final: seq<nat>)
    requires KeysNumbered(t.pairs, final)
    ensures KeysNumbered(HashPart(t), final)
  {
    forall i | 0 <= i < |HashPart(t)| && HashPart(t)[i].0.Table? ensures HashPart(t)[i].0.id in final {
      EmittedExactly(t.pairs, t.border, HashPart(t)[i]);
    }
  }

  /** The entry stored by the array pass is left alone by the hash pass. */
  lemma BuiltIndexed(h: LuaHeap, t: TableObj, final: seq<nat>, x: nat)
    requires ValidPairs(h, t.pairs) && t.border < TWO_31 && KeysNumbered(t.pairs, final) && 0 < x <= t.border
    ensures var v := RawGet(t.pairs, IndexKey(x));
            if v.Nil? then IndexKey(x) !in Built(t, final)
            else IndexKey(x) in Built(t, final) && Built(t, final)[IndexKey(x)] == Image(final, v)
  {
    hide StorePairs, StoreArray, RawGet, OfInteger, ToInteger, EmittedPairs;
    StoreArrayAt(map[], ArrayPart(t), 1, final, x - 1);
    HashPartValid(h, t.pairs, t.border);
    ToIntegerOfIndex(x);
    forall i | 0 <= i < |HashPart(t)| ensures Image(final, HashPart(t)[i].0) != IndexKey(x) {
      EmittedExactly(t.pairs, t.border, HashPart(t)[i]);
    }
    StorePairsOther(h, StoreArray(map[], ArrayPart(t), 1, final), HashPart(t), final, IndexKey(x));
  }

  lemma BuiltHas(h: LuaHeap, t: TableObj, final: seq<nat>, p: (Value, Value))
    requires ValidPairs(h, t.pairs) && t.border < TWO_31 && KeysNumbered(t.pairs, final)
    requires p in t.pairs && !Lost(p.0, t.border)
    ensures Image(final, p.0) in Built(t, final) && Built(t, final)[Image(final, p.0)] == Image(final, p.1)
  {
    hide StorePairs, StoreArray, OfInteger, ToInteger, EmittedPairs, Lost;
    LostIsDropped(p.0, t.border);
    if Skipped(p.0, t.border) {
      var x := ToInteger(p.0.bits);
      BuiltIndexed(h, t, final, x);
      RawGetValid(h, t.pairs, p.0);
    } else {
      HashPartValid(h, t.pairs, t.border);
      HashPartNumbered(t, final);
      EmittedExactly(t.pairs, t.border, p);
      var q :| 0 <= q < |HashPart(t)| && HashPart(t)[q] == p;
      StorePairsAt(h, StoreArray(map[], ArrayPart(t), 1, final), HashPart(t), final, q);
    }
  }

  lemma BuiltOnly(h: LuaHeap, t: TableObj, final: seq<nat>, key: Value) returns (p: (Value, Value))
    requires ValidPairs(h, t.pairs) && t.border < TWO_31 && KeysNumbered(t.pairs, final)
    requires key in Built(t, final)
    ensures p in t.pairs && !Lost(p.0, t.border) && Image(final, p.0) == key
  {
    hide StorePairs, StoreArray, OfInteger, ToInteger, EmittedPairs, Lost;
    HashPartValid(h, t.pairs, t.border);
    if q :| 0 <= q < |HashPart(t)| && Image(final, HashPart(t)[q].0) == key {
      p := HashPart(t)[q];
      EmittedExactly(t.pairs, t.border, p);
      LostIsDropped(p.0, t.border);
    } else {
      StorePairsOther(h, StoreArray(map[], ArrayPart(t), 1, final), HashPart(t), final, key);
      if key.Number? && 0 < ToInteger(key.bits) <= t.border && key == IndexKey(ToInteger(key.bits)) {
        var x := ToInteger(key.bits);
        BuiltIndexed(h, t, final, x);
        RawGetValid(h, t.pairs, key);
        p := (key, RawGet(t.pairs, key));
        LostIsDropped(key, t.border);
      } else {
        StoreArrayOther(map[], ArrayPart(t), 1, final, key);
        assert false;
      }
    }
  }

  /** For any border and any enumeration order, what is built is a copy without the lost entries. */
  lemma BuiltIsCopy(h: LuaHeap, t: TableObj, final: seq<nat>)
    requires ValidPairs(h, t.pairs) && t.border < TWO_31 && KeysNumbered(t.pairs, final)
    ensures CopyWithout(Built(t, final), t, final, k => Lost(k, t.border))
  {
    forall p | p in t.pairs && !Lost(p.0, t.border)
      ensures Image(final, p.0) in Built(t, final) && Built(t, final)[Image(final, p.0)] == Image(final, p.1) {
      BuiltHas(h, t, final, p);
    }
    forall key | key in Built(t, final)
      ensures exists p :: p in t.pairs && !Lost(p.0, t.border) && Image(final, p.0) == key {
      var p := BuiltOnly(h, t, final, key);
    }
  }

  /** The copy is complete exactly when the table has no fractional key inside its array part. */
  lemma BuiltIsFullCopy(h: LuaHeap, t: TableObj, final: seq<nat>)
    requires ValidPairs(h, t.pairs) && t.border < TWO_31 && KeysNumbered(t.pairs, final)
    ensures FullCopy(Built(t, final), t, final) <==> forall p :: p in t.pairs ==> !Lost(p.0, t.border)
  {
    hide Built, Lost;
    BuiltIsCopy(h, t, final);
    if FullCopy(Built(t, final), t, final) {
      forall p | p in t.pairs ensures !Lost(p.0, t.border) {
        var q := BuiltOnly(h, t, final, Image(final, p.0));
        ImageInjective(final, p.0, q.0);
      }
    }
  }
}
