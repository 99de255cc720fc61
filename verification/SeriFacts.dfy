/** What a walk covers: exactly the tables that can be reached, each once. */
module SeriFacts {
  import opened Bits
  import opened LuaValues
  import opened SeriFormat
  import opened SeriWalk
  import opened SeriSimulation

  /** Everything a table hands to pack_one, in order: the array part, then key and value of each pair. */
  function Slots(t: TableObj): seq<Value>
  {
    ArrayPart(t) + Flatten(HashPart(t))
  }

  function Flatten(pairs: seq<(Value, Value)>): (vs: seq<Value>)
    ensures |vs| == 2 * |pairs|
  {
    if pairs == [] then [] else [pairs[0].0, pairs[0].1] + Flatten(pairs[1..])
  }

  /** Walking the pairs is walking the flattened pairs. */
  lemma {:induction false} VisitFlat(h: LuaHeap, pairs: seq<(Value, Value)>, open: seq<nat>, seen: seq<nat>)
    ensures VisitPairs(h, pairs, open, seen) == VisitAll(h, Flatten(pairs), open, seen)
    decreases |pairs|
  {
    if pairs != [] {
      var f := Flatten(pairs);
      var a := Visit(h, pairs[0].0, open, seen);
      var b := Visit(h, pairs[0].1, open, a.seen);
      VisitFlat(h, pairs[1..], open, b.seen);
      assert f[1..][1..] == Flatten(pairs[1..]);
      var c := VisitPairs(h, pairs[1..], open, b.seen);
      ConcatAssoc(a.items, b.items, c.items);
    }
  }

  lemma {:induction false} VisitConcat(h: LuaHeap, us: seq<Value>, vs: seq<Value>, open: seq<nat>, seen: seq<nat>)
    ensures var a := VisitAll(h, us, open, seen);
            var b := VisitAll(h, vs, open, a.seen);
            VisitAll(h, us + vs, open, seen) == Walk(a.items + b.items, b.seen)
    decreases |us|
  {
    if us == [] {
      assert us + vs == vs;
    } else {
      var a := Visit(h, us[0], open, seen);
      VisitConcat(h, us[1..], vs, open, a.seen);
      assert (us + vs)[1..] == us[1..] + vs;
      var b := VisitAll(h, us[1..], open, a.seen);
      var c := VisitAll(h, vs, open, b.seen);
      ConcatAssoc(a.items, b.items, c.items);
    }
  }

  /** A first visit is its tag, its slots in order, and the terminator. */
  lemma VisitSlots(h: LuaHeap, id: nat, open: seq<nat>, seen: seq<nat>)
    requires id in h && id !in seen && ShortRef(open, id).None?
    ensures var s := VisitAll(h, Slots(h[id]), open + [id], seen + [id]);
            Visit(h, Table(id), open, seen) == Walk([Open(|seen|, h[id].border)] + s.items + [Plain(Nil)], s.seen)
  {
    var t := h[id];
    var a := VisitAll(h, ArrayPart(t), open + [id], seen + [id]);
    VisitFlat(h, HashPart(t), open + [id], a.seen);
    VisitConcat(h, ArrayPart(t), Flatten(HashPart(t)), open + [id], seen + [id]);
    ConcatAssoc([Open(|seen|, t.border)], a.items, VisitPairs(h, HashPart(t), open + [id], a.seen).items);
  }

  lemma {:induction false} FlattenHas(pairs: seq<(Value, Value)>, p: (Value, Value))
    requires p in pairs
    ensures p.0 in Flatten(pairs) && p.1 in Flatten(pairs)
  {
    if pairs[0] != p {
      FlattenHas(pairs[1..], p);
    }
  }

  // ---------- coverage ----------

  ghost predicate TablesIn(vs: seq<Value>, s: set<nat>)
  {
    forall i :: 0 <= i < |vs| && vs[i].Table? ==> vs[i].id in s
  }

  /** S is closed: whatever is written for one of its tables leads to its tables only. */
  ghost predicate Closed(h: LuaHeap, s: set<nat>)
  {
    forall id :: id in s && id in h ==> TablesIn(Slots(h[id]), s)
  }

  ghost predicate Supported(vs: seq<Value>)
  {
    forall i :: 0 <= i < |vs| ==> !vs[i].Unsupported?
  }

  function Ids(seen: seq<nat>): set<nat> { set id | id in seen }

  lemma IdsSnoc(seen: seq<nat>, id: nat)
    ensures Ids(seen + [id]) == Ids(seen) + {id}
  {
    assert (seen + [id])[|seen|] == id;
    assert forall i :: 0 <= i < |seen| ==> (seen + [id])[i] == seen[i];
  }

  /** The tables visited from position n on are in the heap, and all they hold has been visited and written. */
  ghost predicate Covered(h: LuaHeap, seen: seq<nat>, n: nat)
  {
    forall j :: n <= j < |seen| ==>
      seen[j] in h && TablesIn(Slots(h[seen[j]]), Ids(seen)) && Supported(Slots(h[seen[j]]))
  }

  lemma SlotTables(t: TableObj, s: set<nat>)
    requires TablesIn(Slots(t), s)
    ensures TablesIn(ArrayPart(t), s)
    ensures forall p :: p in HashPart(t) ==> TablesIn([p.0], s) && TablesIn([p.1], s)
  {
    hide ArrayPart, HashPart;
    var a, f := ArrayPart(t), Flatten(HashPart(t));
    assert forall i :: 0 <= i < |a| ==> (a + f)[i] == a[i];
    forall p | p in HashPart(t) ensures TablesIn([p.0], s) && TablesIn([p.1], s) {
      FlattenHas(HashPart(t), p);
      var i :| 0 <= i < |f| && f[i] == p.0;
      var j :| 0 <= j < |f| && f[j] == p.1;
      assert (a + f)[|a| + i] == p.0 && (a + f)[|a| + j] == p.1;
    }
  }

  lemma TablesInGrows(vs: seq<Value>, s: set<nat>, s': set<nat>)
    requires TablesIn(vs, s) && s <= s'
    ensures TablesIn(vs, s')
  {
  }

  lemma CoveredGrows(h: LuaHeap, seen: seq<nat>, seen': seq<nat>, n: nat)
    requires Covered(h, seen, n) && Covered(h, seen', |seen|) && seen <= seen'
    ensures Covered(h, seen', n)
  {
    assert Ids(seen) <= Ids(seen');
    forall j | n <= j < |seen'|
      ensures seen'[j] in h && TablesIn(Slots(h[seen'[j]]), Ids(seen')) && Supported(Slots(h[seen'[j]])) {
      if j < |seen| {
        assert seen'[j] == seen[j];
        TablesInGrows(Slots(h[seen[j]]), Ids(seen), Ids(seen'));
      }
    }
  }

  lemma TablesInCons(vs: seq<Value>, s: set<nat>)
    requires vs != []
    ensures TablesIn(vs, s) <==> TablesIn([vs[0]], s) && TablesIn(vs[1..], s)
    ensures Supported(vs) <==> Supported([vs[0]]) && Supported(vs[1..])
  {
    assert [vs[0]][0] == vs[0];
    assert forall i :: 0 < i < |vs| ==> vs[i] == vs[1..][i - 1];
  }

  lemma IdsGrow(a: seq<nat>, b: seq<nat>)
    requires a <= b
    ensures Ids(a) <= Ids(b)
  {
  }

  lemma CoveredNothing(h: LuaHeap, vs: seq<Value>, seen: seq<nat>)
    requires vs == []
    ensures Covered(h, seen, |seen|) && TablesIn(vs, Ids(seen)) && Supported(vs)
  {
  }

  lemma NoDuplicatesSnoc(seen: seq<nat>, id: nat)
    requires NoDuplicates(seen) && id !in seen
    ensures NoDuplicates(seen + [id])
  {
  }

  /** A walk without error visits no table twice, leaves nothing reachable unvisited, and meets no unsupported value. */
  lemma {:induction false} VisitCovers(h: LuaHeap, v: Value, open: seq<nat>, seen: seq<nat>)
    requires NoDuplicates(seen) && Ids(open) <= Ids(seen)
    requires Fail !in Visit(h, v, open, seen).items
    ensures var w := Visit(h, v, open, seen);
            NoDuplicates(w.seen) && Covered(h, w.seen, |seen|) && TablesIn([v], Ids(w.seen)) && Supported([v])
    decreases Unseen(h, seen), 0, 1
  {
    hide Slots;
    var w := Visit(h, v, open, seen);
    if v.Unsupported? {
      assert false by { SingleFail(w.items); }
    } else if v.Table? && ShortRef(open, v.id).Some? {
      assert v.id in Ids(open);
    } else if v.Table? && v.id !in seen {
      var id := v.id;
      if id !in h {
        assert false by { SingleFail(w.items); }
      } else {
        VisitNewCovers(h, id, open, seen);
      }
    }
  }

  lemma {:induction false} VisitNewCovers(h: LuaHeap, id: nat, open: seq<nat>, seen: seq<nat>)
    requires NoDuplicates(seen) && Ids(open) <= Ids(seen) && id in h && id !in seen && ShortRef(open, id).None?
    requires Fail !in Visit(h, Table(id), open, seen).items
    ensures var w := Visit(h, Table(id), open, seen);
            NoDuplicates(w.seen) && Covered(h, w.seen, |seen|) && id in w.seen
    decreases Unseen(h, seen), 0, 0
  {
    hide Slots, Visit, ShortRef;
    VisitSlots(h, id, open, seen);
    var s := VisitAll(h, Slots(h[id]), open + [id], seen + [id]);
    NoDuplicatesSnoc(seen, id);
    IdsSnoc(open, id);
    IdsSnoc(seen, id);
    UnseenShrinks(h, seen, seen + [id]);
    VisitAllCovers(h, Slots(h[id]), open + [id], seen + [id]);
    assert s.seen[|seen|] == id;
  }

  lemma {:induction false} VisitAllCovers(h: LuaHeap, vs: seq<Value>, open: seq<nat>, seen: seq<nat>)
    requires NoDuplicates(seen) && Ids(open) <= Ids(seen)
    requires Fail !in VisitAll(h, vs, open, seen).items
    ensures var w := VisitAll(h, vs, open, seen);
            NoDuplicates(w.seen) && Covered(h, w.seen, |seen|) && TablesIn(vs, Ids(w.seen)) && Supported(vs)
    decreases Unseen(h, seen), |vs|
  {
    hide Slots, Visit, Covered, TablesIn, Supported, Ids, NoDuplicates;
    if vs == [] {
      CoveredNothing(h, vs, seen);
    } else {
      var a := Visit(h, vs[0], open, seen);
      var b := VisitAll(h, vs[1..], open, a.seen);
      VisitCovers(h, vs[0], open, seen);
      UnseenShrinks(h, seen, a.seen);
      IdsGrow(seen, a.seen);
      IdsGrow(a.seen, b.seen);
      VisitAllCovers(h, vs[1..], open, a.seen);
      CoveredGrows(h, a.seen, b.seen, |seen|);
      TablesInGrows([vs[0]], Ids(a.seen), Ids(b.seen));
      TablesInCons(vs, Ids(b.seen));
    }
  }

  /** Nothing beyond the reachable tables is visited: any closed set that holds the starting point holds them all. */
  lemma {:induction false} VisitWithin(h: LuaHeap, vs: seq<Value>, open: seq<nat>, seen: seq<nat>, s: set<nat>)
    requires Closed(h, s) && Ids(seen) <= s && TablesIn(vs, s)
    ensures Ids(VisitAll(h, vs, open, seen).seen) <= s
    decreases Unseen(h, seen), |vs|
  {
    hide Slots, ShortRef, VisitPairs, ArrayPart, HashPart;
    if vs != [] {
      var v := vs[0];
      var a := Visit(h, v, open, seen);
      if v.Table? && ShortRef(open, v.id).None? && v.id !in seen && v.id in h {
        VisitSlots(h, v.id, open, seen);
        UnseenShrinks(h, seen, seen + [v.id]);
        IdsSnoc(seen, v.id);
        VisitWithin(h, Slots(h[v.id]), open + [v.id], seen + [v.id], s);
      }
      assert Ids(a.seen) <= s;
      UnseenShrinks(h, seen, a.seen);
      VisitWithin(h, vs[1..], open, a.seen, s);
    }
  }

  /** Plain values and repeated tables cannot fail. */
  lemma EasyVisit(h: LuaHeap, v: Value, open: seq<nat>, seen: seq<nat>)
    requires !v.Unsupported? && (v.Table? ==> ShortRef(open, v.id).Some? || v.id in seen)
    ensures Fail !in Visit(h, v, open, seen).items
  {
  }

  /** The writer raises its error exactly when it meets an unsupported value: if there is none to meet, it does not. */
  lemma {:induction false} VisitSucceeds(h: LuaHeap, vs: seq<Value>, open: seq<nat>, seen: seq<nat>, s: set<nat>)
    requires Closed(h, s) && TablesIn(vs, s) && Supported(vs)
    requires forall id :: id in s ==> id in h && Supported(Slots(h[id]))
    ensures Fail !in VisitAll(h, vs, open, seen).items
    decreases Unseen(h, seen), |vs|
  {
    hide Slots, ShortRef, Visit;
    if vs != [] {
      var v := vs[0];
      var a := Visit(h, v, open, seen);
      if v.Table? && ShortRef(open, v.id).None? && v.id !in seen {
        VisitSlots(h, v.id, open, seen);
        UnseenShrinks(h, seen, seen + [v.id]);
        VisitSucceeds(h, Slots(h[v.id]), open + [v.id], seen + [v.id], s);
      } else {
        EasyVisit(h, v, open, seen);
      }
      UnseenShrinks(h, seen, a.seen);
      VisitSucceeds(h, vs[1..], open, a.seen, s);
    }
  }
}
