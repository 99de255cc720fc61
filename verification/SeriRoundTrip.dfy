/** The round trip: what is packed is unpacked as the same graph, table by table. */
module SeriRoundTrip {
  import opened Bits
  import opened LuaValues
  import opened SeriFormat
  import opened SeriWalk
  import opened SeriRead
  import opened SeriSimulation
  import opened SeriReplay
  import opened SeriFacts
  import opened SeriCopy

  // ---------- the domain ----------

  /** A Lua heap and arguments that pack without error into fewer than 2^31 bytes. */
  ghost predicate Encodable(h: LuaHeap, roots: seq<Value>)
  {
    && ValidHeap(h) && ValidValues(h, roots)
    && Fail !in Pack(h, roots).items
    && |Payload(h, roots)| < TWO_31
  }

  /** Those with every short reference in a slot that is the same on both sides. */
  ghost predicate InDomain(h: LuaHeap, roots: seq<Value>)
  {
    Encodable(h, roots) && AgreesAll(h, roots, [], [], TOP)
  }

  /** The tables that can be reached: the least closed set that holds those among the arguments. */
  ghost predicate Reachable(h: LuaHeap, roots: seq<Value>, s: set<nat>)
  {
    && Closed(h, s) && TablesIn(roots, s)
    && forall s' :: Closed(h, s') && TablesIn(roots, s') ==> s <= s'
  }

  ghost predicate PlainKeys(h: LuaHeap, s: set<nat>)
  {
    forall id, p :: id in s && id in h && p in HashPart(h[id]) ==> !p.0.Table?
  }

  /** What the reader leaves behind is the packed graph: `final` numbers the reachable tables one to one, every
      argument is there in order under its new name, and every new table is a copy of its original. */
  ghost predicate SameGraph(h: LuaHeap, roots: seq<Value>, final: seq<nat>, st: RState)
  {
    && NoDuplicates(final) && Reachable(h, roots, Ids(final))
    && st.stack == Images(final, roots)
    && |st.tables| == |final|
    && forall j :: 0 <= j < |final| ==>
         final[j] in h && FullCopy(st.tables[j], h[final[j]], final)
  }

  /** The same, but for the entries under fractional keys inside an array part. */
  ghost predicate SameGraphWithoutLost(h: LuaHeap, roots: seq<Value>, final: seq<nat>, st: RState)
  {
    && NoDuplicates(final) && Reachable(h, roots, Ids(final))
    && st.stack == Images(final, roots)
    && |st.tables| == |final|
    && forall j :: 0 <= j < |final| ==>
         final[j] in h
         && CopyWithout(st.tables[j], h[final[j]], final, k => Lost(k, h[final[j]].border))
  }

  // ---------- when the domain is met ----------

  /** The writer succeeds exactly when no unsupported value can be reached. */
  lemma PackSucceeds(h: LuaHeap, roots: seq<Value>)
    ensures Fail !in Pack(h, roots).items <==>
            exists s :: Closed(h, s) && TablesIn(roots, s) && Supported(roots)
                        && forall id :: id in s ==> id in h && Supported(Slots(h[id]))
  {
    hide Slots, Visit, VisitAll;
    if Fail !in Pack(h, roots).items {
      VisitAllCovers(h, roots, [], []);
      var s := Ids(Pack(h, roots).seen);
      assert Closed(h, s);
    }
    if s :| Closed(h, s) && TablesIn(roots, s) && Supported(roots)
            && forall id :: id in s ==> id in h && Supported(Slots(h[id])) {
      VisitSucceeds(h, roots, [], [], s);
    }
  }

  /** Graphs without tables as keys use no slot in which the two ancestor stacks differ. */
  lemma {:induction false} PlainKeysAgree(h: LuaHeap, vs: seq<Value>, open: seq<nat>, seen: seq<nat>, s: set<nat>)
    requires Closed(h, s) && PlainKeys(h, s) && TablesIn(vs, s)
    ensures AgreesAll(h, vs, open, seen, TOP)
    decreases Unseen(h, seen), |vs|, 1
  {
    hide Slots, HashPart, ArrayPart;
    if vs != [] {
      var v := vs[0];
      var a := Visit(h, v, open, seen);
      if v.Table? && ShortRef(open, v.id).None? && v.id !in seen && v.id in h {
        PlainTableAgrees(h, v.id, open, seen, s);
      }
      UnseenShrinks(h, seen, a.seen);
      PlainKeysAgree(h, vs[1..], open, a.seen, s);
    }
  }

  lemma {:induction false} PlainTableAgrees(h: LuaHeap, id: nat, open: seq<nat>, seen: seq<nat>, s: set<nat>)
    requires Closed(h, s) && PlainKeys(h, s) && id in s && id in h && id !in seen
    ensures var a := VisitAll(h, ArrayPart(h[id]), open + [id], seen + [id]);
            AgreesAll(h, ArrayPart(h[id]), open + [id], seen + [id], TOP)
            && AgreesPairs(h, HashPart(h[id]), open + [id], a.seen, TOP)
    decreases Unseen(h, seen), 0, 0
  {
    SlotTables(h[id], s);
    PlainPairsOf(h, id, s);
    hide Slots, Closed, TablesIn, HashPart, ArrayPart;
    UnseenShrinks(h, seen, seen + [id]);
    var a := VisitAll(h, ArrayPart(h[id]), open + [id], seen + [id]);
    UnseenShrinks(h, seen + [id], a.seen);
    PlainKeysAgree(h, ArrayPart(h[id]), open + [id], seen + [id], s);
    PlainPairsAgree(h, HashPart(h[id]), open + [id], a.seen, s);
  }

  lemma PlainPairsOf(h: LuaHeap, id: nat, s: set<nat>)
    requires PlainKeys(h, s) && id in s && id in h
    ensures forall p :: p in HashPart(h[id]) ==> !p.0.Table?
  {
  }

  lemma {:induction false} PlainPairsAgree(h: LuaHeap, pairs: seq<(Value, Value)>, open: seq<nat>, seen: seq<nat>,
                                           s: set<nat>)
    requires Closed(h, s) && PlainKeys(h, s) && open != []
    requires forall p :: p in pairs ==> !p.0.Table? && TablesIn([p.1], s)
    ensures AgreesPairs(h, pairs, open, seen, TOP)
    decreases Unseen(h, seen), |pairs|, 2
  {
    hide Slots, HashPart, ArrayPart;
    if pairs != [] {
      var p := pairs[0];
      var a := Visit(h, p.0, open, seen);
      var b := Visit(h, p.1, open, seen);
      assert a.seen == seen;
      PlainKeysAgree(h, [p.1], open, seen, s);
      UnseenShrinks(h, seen, b.seen);
      PlainPairsAgree(h, pairs[1..], open, b.seen, s);
    }
  }

  // ---------- the round trip ----------

  /** The loop of seri_unpack over the top-level values. */
  lemma {:induction false} ReplayRoots(h: LuaHeap, vs: seq<Value>, seen: seq<nat>, final: seq<nat>, marks: set<nat>,
                                       g: Guard, st: RState)
    requires Fixed(h, final) && ValidValues(h, vs)
    requires Walked(VisitAll(h, vs, [], seen), final, marks) && AgreesAll(h, vs, [], seen, TOP)
    requires Related(st, [], seen, final, marks, TOP)
    requires st.rest == Bytes(VisitAll(h, vs, [], seen).items, marks) && |st.rest| < TWO_31
    ensures Replayed(g, UnpackAll(g, st), st, st.stack + Images(final, vs), -1, h, VisitAll(h, vs, [], seen), seen,
                     final, marks, [])
    decreases |vs|
  {
    hide Visit, VisitPairs, UnpackOne, PushValue, Bytes, AtomBytes, ExtTargets, Agrees, Fixed, SlotsAgree, RefsKnown,
         Image;
    ReadsNothing(st, -1, h, [], seen, final, marks, TOP, []);
    NoParts(g, marks, []);
    if vs == [] {
      assert st.stack + Images(final, vs) == st.stack;
      assert st.(rest := []) == st;
    } else {
      var a := Visit(h, vs[0], [], seen);
      var b := VisitAll(h, vs[1..], [], a.seen);
      var tailA := Bytes(b.items, marks);
      TwoParts(a.items, b.items, g, marks, []);
      assert tailA + [] == tailA && st.rest + [] == st.rest;
      ReplayVisit(h, vs[0], [], seen, TOP, final, marks, g, st, tailA);
      VisitNotEmpty(h, vs[0], [], seen, marks);
      var r := UnpackOne(g, st);
      if r.Done? {
        StillRelated(st, r.st, -1, h, [], seen, a.seen, final, marks, tailA, TOP);
        ReplayRoots(h, vs[1..], a.seen, final, marks, g, r.st);
        var r' := UnpackAll(g, r.st);
        if r'.Done? {
          ReadsCompose(st, r.st, r'.st, -1, h, seen, a.seen, b.seen, final, marks, tailA, []);
          ImagesCons(final, vs);
          ConcatAssoc(st.stack, [Image(final, vs[0])], Images(final, vs[1..]));
        }
      }
    }
  }

  lemma ImagesCons(final: seq<nat>, vs: seq<Value>)
    requires vs != []
    ensures Images(final, vs) == [Image(final, vs[0])] + Images(final, vs[1..])
  {
  }

  /** Every value takes at least one byte. */
  lemma VisitNotEmpty(h: LuaHeap, v: Value, open: seq<nat>, seen: seq<nat>, marks: set<nat>)
    requires Fail !in Visit(h, v, open, seen).items
    ensures Bytes(Visit(h, v, open, seen).items, marks) != []
  {
    var w := Visit(h, v, open, seen);
    if w.items == [Fail] {
      SingleFail(w.items);
      assert false;
    }
    var last := w.items[|w.items| - 1];
    assert last.Plain? || last.Short? || last.Ext?;
    assert ItemBytes(last, marks) != [];
  }

  /** The marks of the payload are exactly the tables an extended reference leads to, and the numbering is the
      order of first visit. */
  lemma Replay(h: LuaHeap, roots: seq<Value>, g: Guard, garbage: seq<nat>)
    requires InDomain(h, roots) && |garbage| == MAX_DEPTH
    ensures var w := Pack(h, roots);
            NoDuplicates(w.seen) && Covered(h, w.seen, 0) && TablesIn(roots, Ids(w.seen))
            && Replayed(g, UnpackAll(g, Start(Payload(h, roots), garbage)), Start(Payload(h, roots), garbage),
                        Images(w.seen, roots), -1, h, w, [], w.seen, ExtTargets(w.items), [])
  {
    hide Visit, VisitAll, UnpackAll, UnpackOne, Bytes, AtomBytes, ExtTargets, Slots;
    var w := Pack(h, roots);
    var marks := ExtTargets(w.items);
    var st := Start(Payload(h, roots), garbage);
    VisitAllCovers(h, roots, [], []);
    SeenFitsPayload(h, roots, [], [], marks);
    ReplayRoots(h, roots, [], w.seen, marks, g, st);
    assert [] + Images(w.seen, roots) == Images(w.seen, roots);
  }

  /** Every first visit takes at least one byte. */
  lemma {:induction false} SeenFitsPayload(h: LuaHeap, vs: seq<Value>, open: seq<nat>, seen: seq<nat>, marks: set<nat>)
    requires Fail !in VisitAll(h, vs, open, seen).items
    ensures var w := VisitAll(h, vs, open, seen);
            |w.seen| - |seen| <= |Bytes(w.items, marks)|
    decreases Unseen(h, seen), |vs|
  {
    hide Slots, ShortRef, VisitPairs, AtomBytes, ItemBytes;
    if vs != [] {
      var v := vs[0];
      var a := Visit(h, v, open, seen);
      var b := VisitAll(h, vs[1..], open, a.seen);
      TwoParts(a.items, b.items, Intended, marks, []);
      if v.Table? && ShortRef(open, v.id).None? && v.id !in seen && v.id in h {
        VisitSlots(h, v.id, open, seen);
        UnseenShrinks(h, seen, seen + [v.id]);
        var s := VisitAll(h, Slots(h[v.id]), open + [v.id], seen + [v.id]);
        var o := [Open(|seen|, h[v.id].border)];
        TwoParts(o + s.items, [Plain(Nil)], Intended, marks, []);
        TwoParts(o, s.items, Intended, marks, []);
        VisitNotEmpty(h, v, open, seen, marks);
        BytesOne(o[0], Intended, marks);
        OpenNotEmpty(|seen|, h[v.id].border, marks);
        SeenFitsPayload(h, Slots(h[v.id]), open + [v.id], seen + [v.id], marks);
      }
      UnseenShrinks(h, seen, a.seen);
      SeenFitsPayload(h, vs[1..], open, a.seen, marks);
    }
  }

  lemma OpenNotEmpty(num: nat, size: nat, marks: set<nat>)
    ensures |ItemBytes(Open(num, size), marks)| > 0
  {
  }

  lemma VisitedReachable(h: LuaHeap, roots: seq<Value>)
    requires Fail !in Pack(h, roots).items
    ensures Reachable(h, roots, Ids(Pack(h, roots).seen))
  {
    hide Slots, Visit, VisitAll;
    VisitAllCovers(h, roots, [], []);
    forall s | Closed(h, s) && TablesIn(roots, s) ensures Ids(Pack(h, roots).seen) <= s {
      VisitWithin(h, roots, [], [], s);
    }
  }

  lemma KeysAreNumbered(h: LuaHeap, id: nat, final: seq<nat>)
    requires id in h && TablesIn(Slots(h[id]), Ids(final))
    ensures KeysNumbered(h[id].pairs, final)
  {
    var t := h[id];
    forall i | 0 <= i < |t.pairs| && t.pairs[i].0.Table? ensures t.pairs[i].0.id in final {
      EmittedExactly(t.pairs, t.border, t.pairs[i]);
      SlotTables(t, Ids(final));
      assert TablesIn([t.pairs[i].0], Ids(final));
      assert [t.pairs[i].0][0] == t.pairs[i].0;
    }
  }

  /** No table in s has a fractional key inside its array part. */
  ghost predicate NothingLost(h: LuaHeap, s: set<nat>)
  {
    forall id, p :: id in s && id in h && p in h[id].pairs ==> !Lost(p.0, h[id].border)
  }

  /** Under either guard: what it lets through comes back as the same values and the same graph, apart from entries the
      writer never wrote, and with everything exactly when there are none of those; anything else raises an error. */
  lemma GuardedRoundTrip(h: LuaHeap, roots: seq<Value>, g: Guard, garbage: seq<nat>)
    requires InDomain(h, roots) && |garbage| == MAX_DEPTH
    ensures var r := UnpackAll(g, Start(Payload(h, roots), garbage));
            var w := Pack(h, roots);
            if Passes(g, w.items) then
              && r.Done?
              && SameGraphWithoutLost(h, roots, w.seen, r.st)
              && (SameGraph(h, roots, w.seen, r.st) <==> NothingLost(h, Ids(w.seen)))
            else r.Failed?
  {
    hide Visit, VisitAll, UnpackAll, Slots, Payload, ExtTargets, Built, Lost, Image, EmittedPairs;
    var w := Pack(h, roots);
    Replay(h, roots, g, garbage);
    VisitedReachable(h, roots);
    forall j | 0 <= j < |w.seen|
      ensures var t := h[w.seen[j]];
              CopyWithout(Built(t, w.seen), t, w.seen, k => Lost(k, t.border))
              && (FullCopy(Built(t, w.seen), t, w.seen) <==> forall p :: p in t.pairs ==> !Lost(p.0, t.border))
    {
      var t := h[w.seen[j]];
      KeysAreNumbered(h, w.seen[j], w.seen);
      BuiltIsCopy(h, t, w.seen);
      BuiltIsFullCopy(h, t, w.seen);
    }
  }

  /** With the intended guard the graph comes back, and the whole of it exactly when nothing is lost. */
  lemma RoundTrip(h: LuaHeap, roots: seq<Value>, garbage: seq<nat>)
    requires InDomain(h, roots) && |garbage| == MAX_DEPTH
    ensures var r := UnpackAll(Intended, Start(Payload(h, roots), garbage));
            var final := Pack(h, roots).seen;
            && r.Done?
            && SameGraphWithoutLost(h, roots, final, r.st)
            && (SameGraph(h, roots, final, r.st) <==> NothingLost(h, Ids(final)))
  {
    hide VisitAll, UnpackAll, Payload, SameGraph, SameGraphWithoutLost, NothingLost;
    GuardedRoundTrip(h, roots, Intended, garbage);
  }

  /** The guard as written raises an error as soon as the payload holds one extended reference, and otherwise reads
      exactly what the intended guard reads. */
  lemma AsWrittenExactly(h: LuaHeap, roots: seq<Value>, garbage: seq<nat>)
    requires InDomain(h, roots) && |garbage| == MAX_DEPTH
    ensures var start := Start(Payload(h, roots), garbage);
            var r := UnpackAll(AsWritten, start);
            if ExtTargets(Pack(h, roots).items) == {} then
              r.Done? && SameGraphWithoutLost(h, roots, Pack(h, roots).seen, r.st)
            else r.Failed?
  {
    hide VisitAll, UnpackAll, Payload, SameGraph, SameGraphWithoutLost, NothingLost, ExtTargets;
    GuardedRoundTrip(h, roots, AsWritten, garbage);
  }

  /** The round trip on the graphs a caller can tell apart beforehand: every reachable table is in the heap and holds
      nothing unsupported, none is a key, and no key is a fraction that truncates into an array part. Then the graph
      comes back whole. */
  lemma PlainKeysRoundTrip(h: LuaHeap, roots: seq<Value>, s: set<nat>, garbage: seq<nat>)
    requires ValidHeap(h) && ValidValues(h, roots) && |garbage| == MAX_DEPTH
    requires Closed(h, s) && TablesIn(roots, s) && Supported(roots)
    requires forall id :: id in s ==> id in h && Supported(Slots(h[id]))
    requires PlainKeys(h, s) && |Payload(h, roots)| < TWO_31
    requires NothingLost(h, s)
    ensures var r := UnpackAll(Intended, Start(Payload(h, roots), garbage));
            r.Done? && SameGraph(h, roots, Pack(h, roots).seen, r.st)
  {
    hide UnpackAll, Payload, Slots, VisitAll, Lost, SameGraph, SameGraphWithoutLost, Supported;
    PackSucceeds(h, roots);
    PlainKeysAgree(h, roots, [], [], s);
    RoundTrip(h, roots, garbage);
    VisitedReachable(h, roots);
    forall id | id in Pack(h, roots).seen ensures id in s {
      assert id in Ids(Pack(h, roots).seen);
    }
  }
}
