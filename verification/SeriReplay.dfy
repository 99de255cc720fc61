/** The induction over the graph: reading the bytes of a walk replays the walk. */
module SeriReplay {
  import opened Bits
  import opened LuaValues
  import opened SeriFormat
  import opened SeriWalk
  import opened SeriRead
  import opened SeriSimulation

  /** The part of the run a lemma is about: no error was met, and its visits and references are accounted for. */
  ghost predicate Walked(w: Walk, final: seq<nat>, marks: set<nat>)
  {
    w.seen <= final && Fail !in w.items && ExtTargets(w.items) <= marks
  }

  /** The guard lets these items through and they were read, or it does not and the reader stopped. */
  ghost predicate Replayed(g: Guard, r: Outcome, st: RState, stack: seq<Value>, current: int, h: LuaHeap, w: Walk,
                           seen: seq<nat>, final: seq<nat>, marks: set<nat>, tail: seq<byte>)
  {
    if Passes(g, w.items) then
      r.Done? && r.st.stack == stack && Reads(st, r.st, current, h, seen, w.seen, final, marks, tail)
    else r.Failed?
  }

  lemma TwoParts(a: seq<Item>, b: seq<Item>, g: Guard, marks: set<nat>, tail: seq<byte>)
    ensures ExtTargets(a + b) == ExtTargets(a) + ExtTargets(b)
    ensures Passes(g, a + b) <==> Passes(g, a) && Passes(g, b)
    ensures Fail in a + b <==> Fail in a || Fail in b
    ensures Bytes(a + b, marks) + tail == Bytes(a, marks) + (Bytes(b, marks) + tail)
  {
    ExtTargetsConcat(a, b);
    BytesConcat(a, b, marks);
    ConcatAssoc(Bytes(a, marks), Bytes(b, marks), tail);
  }

  lemma NoParts(g: Guard, marks: set<nat>, tail: seq<byte>)
    ensures ExtTargets([]) == {} && Passes(g, []) && Bytes([], marks) + tail == tail
  {
  }

  /** Nothing has been read yet. */
  lemma ReadsNothing(st: RState, current: int, h: LuaHeap, open: seq<nat>, seen: seq<nat>, final: seq<nat>,
                     marks: set<nat>, c: Context, tail: seq<byte>)
    requires Related(st, open, seen, final, marks, c) && seen <= final
    ensures Reads(st, st.(rest := tail), current, h, seen, seen, final, marks, tail)
  {
  }

  lemma BytesOne(i: Item, g: Guard, marks: set<nat>)
    ensures Bytes([i], marks) == ItemBytes(i, marks)
    ensures !i.Ext? ==> Passes(g, [i])
    ensures ExtTargets([i]) == if i.Ext? then {i.target} else {}
  {
    assert [i][..0] == [];
    if i.Ext? {
      assert [i][0] == i;
    }
  }

  /** The bytes of a first visit: tag, array part, pairs, terminator. */
  lemma OpenPartsBytes(w: Walk, num: nat, size: nat, a: Walk, b: Walk, marks: set<nat>, tail: seq<byte>)
    requires w.items == [Open(num, size)] + a.items + b.items + [Plain(Nil)]
    ensures Bytes(w.items, marks) + tail ==
            OpenBytes(size, num in marks) + (Bytes(a.items, marks) + (Bytes(b.items, marks) + (AtomBytes(Nil) + tail)))
  {
    hide Bytes, OpenBytes, AtomBytes, ExtTargets, Passes;
    var o, n := [Open(num, size)], [Plain(Nil)];
    var p := o + a.items;
    var tailB := Bytes(n, marks) + tail;
    TwoParts(p + b.items, n, Intended, marks, tail);
    TwoParts(p, b.items, Intended, marks, tailB);
    TwoParts(o, a.items, Intended, marks, Bytes(b.items, marks) + tailB);
    BytesOne(Open(num, size), Intended, marks);
    BytesOne(Plain(Nil), Intended, marks);
  }

  lemma SomeBytes(size: nat, marked: bool)
    ensures OpenBytes(size, marked) != []
  {
  }

  lemma OpenParts(w: Walk, num: nat, size: nat, a: Walk, b: Walk, g: Guard, marks: set<nat>, tail: seq<byte>)
    requires w.items == [Open(num, size)] + a.items + b.items + [Plain(Nil)]
    ensures Bytes(w.items, marks) + tail ==
            OpenBytes(size, num in marks) + (Bytes(a.items, marks) + (Bytes(b.items, marks) + (AtomBytes(Nil) + tail)))
    ensures OpenBytes(size, num in marks) != []
    ensures ExtTargets(w.items) == ExtTargets(a.items) + ExtTargets(b.items)
    ensures Passes(g, w.items) <==> Passes(g, a.items) && Passes(g, b.items)
    ensures Fail in w.items <==> Fail in a.items || Fail in b.items
  {
    hide Bytes, OpenBytes, AtomBytes, ExtTargets, Passes;
    SomeBytes(size, num in marks);
    OpenPartsBytes(w, num, size, a, b, marks, tail);
    var o, n := [Open(num, size)], [Plain(Nil)];
    var p := o + a.items;
    TwoParts(p + b.items, n, g, marks, tail);
    TwoParts(p, b.items, g, marks, tail);
    TwoParts(o, a.items, g, marks, tail);
    BytesOne(Open(num, size), g, marks);
    BytesOne(Plain(Nil), g, marks);
  }

  /** Array part and pairs read into a fresh table make the copy of that table. */
  lemma ReadsOpen(st: RState, st0: RState, kind: nat, st2: RState, st3: RState, h: LuaHeap, id: nat, seen: seq<nat>,
                  seenA: seq<nat>, seenB: seq<nat>, final: seq<nat>, marks: set<nat>, tailA: seq<byte>, tail: seq<byte>)
    requires |st.ancestor| == MAX_DEPTH && |st.tables| == |seen| && st0 == st.(rest := st0.rest)
    requires id in h && seen + [id] <= seenA <= seenB <= final
    requires Reads(OpenTable(st0, kind), st2, |seen|, h, seen + [id], seenA, final, marks, tailA)
    requires Reads(st2.(depth := st2.depth - 1), st3, |seen|, h, seenA, seenB, final, marks, tail)
    requires st2.tables[|seen|] == StoreArray(map[], ArrayPart(h[id]), 1, final)
    requires st3.tables[|seen|] == StorePairs(st2.tables[|seen|], HashPart(h[id]), final)
    ensures Reads(st, st3, -1, h, seen, seenB, final, marks, tail)
  {
    hide StoreArray, StorePairs, ArrayPart, HashPart;
    assert final[|seen|] == (seen + [id])[|seen|] == id;
  }

  /** A table met again is read back from its short or extended reference. */
  lemma ReplayReference(h: LuaHeap, id: nat, open: seq<nat>, seen: seq<nat>, c: Context, final: seq<nat>,
                        marks: set<nat>, g: Guard, st: RState, tail: seq<byte>)
    requires Fixed(h, final) && ValidValue(h, Table(id)) && (ShortRef(open, id).Some? || id in seen)
    requires Walked(Visit(h, Table(id), open, seen), final, marks) && Agrees(h, Table(id), open, seen, c)
    requires Related(st, open, seen, final, marks, c)
    requires st.rest == Bytes(Visit(h, Table(id), open, seen).items, marks) + tail && |st.rest| < TWO_31
    ensures Replayed(g, UnpackOne(g, st), st, st.stack + [Image(final, Table(id))], -1, h,
                     Visit(h, Table(id), open, seen), seen, final, marks, tail)
  {
    if ShortRef(open, id).Some? {
      var index := ShortRef(open, id).value;
      BytesOne(Short(index), g, marks);
      ReadShort(index, open, seen, c, final, marks, g, st, tail);
    } else {
      var target := IndexOf(seen, id);
      BytesOne(Ext(target), g, marks);
      IndexOfPrefix(seen, final, id);
      ReadExt(target, g, st, marks, tail);
    }
  }

  lemma ReplayVisit(h: LuaHeap, v: Value, open: seq<nat>, seen: seq<nat>, c: Context, final: seq<nat>,
                    marks: set<nat>, g: Guard, st: RState, tail: seq<byte>)
    requires Fixed(h, final) && ValidValue(h, v)
    requires Walked(Visit(h, v, open, seen), final, marks) && Agrees(h, v, open, seen, c)
    requires Related(st, open, seen, final, marks, c)
    requires st.rest == Bytes(Visit(h, v, open, seen).items, marks) + tail && |st.rest| < TWO_31
    ensures Replayed(g, UnpackOne(g, st), st, st.stack + [Image(final, v)], -1, h, Visit(h, v, open, seen), seen, final,
                     marks, tail)
    decreases |st.rest|, 1
  {
    var w := Visit(h, v, open, seen);
    match v
    case Unsupported(_) => assert false by { SingleFail(w.items); }
    case Table(id) =>
      if ShortRef(open, id).Some? || id in seen {
        ReplayReference(h, id, open, seen, c, final, marks, g, st, tail);
      } else {
        ReplayOpen(h, id, open, seen, c, final, marks, g, st, tail);
      }
    case _ =>
      BytesOne(Plain(v), g, marks);
      ReadAtom(v, g, st, tail);
  }

  lemma OpenStep(g: Guard, st: RState, st0: RState, kind: nat, st2: RState, r: Outcome, h: LuaHeap, id: nat, w: Walk,
                 a: Walk, b: Walk, seen: seq<nat>, final: seq<nat>, marks: set<nat>, tailA: seq<byte>, tail: seq<byte>)
    requires |st.ancestor| == MAX_DEPTH && |st.tables| == |seen| && st0 == st.(rest := st0.rest)
    requires id in h && seen + [id] <= a.seen <= b.seen == w.seen && w.seen <= final && NoDuplicates(final)
    requires Reads(OpenTable(st0, kind), st2, |seen|, h, seen + [id], a.seen, final, marks, tailA)
    requires st2.stack == st.stack + [Table(|seen|)] && |seen| < |st2.tables| && st2.depth > 0
    requires r.Done? ==> |seen| < |r.st.tables|
    requires st2.tables[|seen|] == StoreArray(map[], ArrayPart(h[id]), 1, final)
    requires Passes(g, a.items) && (Passes(g, w.items) <==> Passes(g, a.items) && Passes(g, b.items))
    requires var st2' := st2.(depth := st2.depth - 1);
             Replayed(g, r, st2', st2'.stack, |seen|, h, b, a.seen, final, marks, tail)
             && (r.Done? ==> r.st.tables[|seen|] == StorePairs(st2.tables[|seen|], HashPart(h[id]), final))
    ensures Replayed(g, r, st, st.stack + [Image(final, Table(id))], -1, h, w, seen, final, marks, tail)
  {
    hide Visit, VisitAll, VisitPairs, UnpackHash, UnpackOne, PushValue, Built, Bytes, StoreArray, StorePairs;
    assert final[|seen|] == (seen + [id])[|seen|] == id;
    IndexOfPosition(final, |seen|);
    if r.Done? {
      ReadsOpen(st, st0, kind, st2, r.st, h, id, seen, a.seen, b.seen, final, marks, tailA, tail);
    }
  }

  lemma OpenAgrees(h: LuaHeap, id: nat, open: seq<nat>, seen: seq<nat>, c: Context)
    requires id in h && id !in seen && ShortRef(open, id).None? && Agrees(h, Table(id), open, seen, c)
    ensures AgreesAll(h, ArrayPart(h[id]), open + [id], seen + [id], c)
    ensures var a := VisitAll(h, ArrayPart(h[id]), open + [id], seen + [id]);
            AgreesPairs(h, HashPart(h[id]), open + [id], a.seen, c)
  {
    hide Visit, VisitPairs, Bytes, ArrayPart, HashPart, ShortRef;
  }

  lemma PartsValid(h: LuaHeap, id: nat)
    requires ValidHeap(h) && id in h
    ensures ValidValues(h, ArrayPart(h[id])) && ValidPairs(h, HashPart(h[id])) && h[id].border < TWO_31
  {
    ArrayPartValid(h, h[id]);
    HashPartValid(h, h[id].pairs, h[id].border);
  }

  /** What is known of a first visit is known of its two parts. */
  lemma OpenWalked(h: LuaHeap, id: nat, open: seq<nat>, seen: seq<nat>, w: Walk, a: Walk, b: Walk,
                   final: seq<nat>, marks: set<nat>, g: Guard, tail: seq<byte>)
    requires id in h && id !in seen && ShortRef(open, id).None?
    requires w == Visit(h, Table(id), open, seen) && Walked(w, final, marks)
    requires a == VisitAll(h, ArrayPart(h[id]), open + [id], seen + [id])
    requires b == VisitPairs(h, HashPart(h[id]), open + [id], a.seen)
    ensures Walked(a, final, marks) && Walked(b, final, marks) && seen + [id] <= a.seen <= b.seen == w.seen
    ensures Passes(g, w.items) <==> Passes(g, a.items) && Passes(g, b.items)
    ensures Bytes(w.items, marks) + tail ==
            OpenBytes(h[id].border, |seen| in marks)
            + (Bytes(a.items, marks) + (Bytes(b.items, marks) + (AtomBytes(Nil) + tail)))
    ensures OpenBytes(h[id].border, |seen| in marks) != []
  {
    hide Visit, VisitAll, VisitPairs, Bytes, OpenBytes, AtomBytes, ExtTargets, ArrayPart, HashPart, ShortRef, Passes;
    VisitOpen(h, id, open, seen);
    OpenParts(w, |seen|, h[id].border, a, b, g, marks, tail);
    PrefixTransitive(a.seen, b.seen, final);
  }

  lemma ReplayOpen(h: LuaHeap, id: nat, open: seq<nat>, seen: seq<nat>, c: Context, final: seq<nat>,
                   marks: set<nat>, g: Guard, st: RState, tail: seq<byte>)
    requires Fixed(h, final) && id in h && id !in seen && ShortRef(open, id).None?
    requires Walked(Visit(h, Table(id), open, seen), final, marks) && Agrees(h, Table(id), open, seen, c)
    requires Related(st, open, seen, final, marks, c)
    requires st.rest == Bytes(Visit(h, Table(id), open, seen).items, marks) + tail && |st.rest| < TWO_31
    ensures Replayed(g, UnpackOne(g, st), st, st.stack + [Image(final, Table(id))], -1, h,
                     Visit(h, Table(id), open, seen), seen, final, marks, tail)
    decreases |st.rest|, 0
  {
    hide Visit, VisitAll, VisitPairs, UnpackOne, PushValue, UnpackArray, UnpackHash, Built, Bytes, OpenBytes, AtomBytes,
         ExtTargets, Agrees, AgreesAll, AgreesPairs, ValidPairs, ValidHeap, ValidValues, ArrayPart, SlotsAgree,
         RefsKnown, ShortRef, HashPart, Passes, StoreArray, StorePairs, Image;
    var t, w, tid := h[id], Visit(h, Table(id), open, seen), |seen|;
    var a := VisitAll(h, ArrayPart(t), open + [id], seen + [id]);
    var b := VisitPairs(h, HashPart(t), open + [id], a.seen);
    OpenAgrees(h, id, open, seen, c);
    PartsValid(h, id);
    OpenWalked(h, id, open, seen, w, a, b, final, marks, g, tail);
    var tailA := Bytes(b.items, marks) + (AtomBytes(Nil) + tail);
    var st0 := st.(rest := Bytes(a.items, marks) + tailA);
    var kind := if tid in marks then TYPE_TABLE_MARK else TYPE_TABLE;
    var st1 := OpenTable(st0, kind);
    ReadOpenTag(t.border, tid in marks, g, st, st1, tid, st0.rest);
    OpenRelated(id, st, st0, open, seen, final, marks, c);
    ReplayArray(h, ArrayPart(t), open + [id], seen + [id], c, final, marks, g, st1, tailA, tid, 1, t.border);
    var r := UnpackArray(g, st1, tid, 1, t.border);
    if r.Failed? {
      assert UnpackOne(g, st) == Failed;
    } else {
      var st2 := r.st;
      StillRelated(st1, st2, tid, h, open + [id], seen + [id], a.seen, final, marks, tailA, c);
      var st2' := st2.(depth := st2.depth - 1);
      assert st2'.(depth := st2'.depth + 1) == st2;
      ReplayPairs(h, HashPart(t), open + [id], a.seen, c, final, marks, g, st2', tail, tid);
      assert UnpackOne(g, st) == UnpackHash(g, st2', tid);
      OpenStep(g, st, st0, kind, st2, UnpackHash(g, st2', tid), h, id, w, a, b, seen, final, marks, tailA, tail);
    }
  }

  /** One step of the loop over the array part, and the rest of the loop. */
  lemma ArrayStep(g: Guard, st: RState, st1: RState, tid: nat, i: int, size: int, v: Value, r: Outcome, h: LuaHeap,
                  a: Walk, b: Walk, seen: seq<nat>, final: seq<nat>, marks: set<nat>, tailA: seq<byte>, tail: seq<byte>)
    requires |st.ancestor| == MAX_DEPTH && tid < |seen| == |st.tables| && i <= size
    requires UnpackOne(g, st) == Done(st1) && st1.stack == st.stack + [v]
    requires seen <= a.seen <= b.seen
    requires Reads(st, st1, -1, h, seen, a.seen, final, marks, tailA)
    requires Passes(g, a.items)
    requires var st2 := Store(st1, tid, IndexKey(i), v, |st.stack|);
             r == UnpackArray(g, st2, tid, i + 1, size)
             && Replayed(g, r, st2, st.stack, tid, h, b, a.seen, final, marks, tail)
    ensures UnpackArray(g, st, tid, i, size) == r
    ensures Replayed(g, r, st, st.stack, tid, h, Walk(a.items + b.items, b.seen), seen, final, marks, tail)
  {
    hide Visit, VisitAll, VisitPairs, UnpackHash, PushValue, Built, Bytes;
    ExtTargetsConcat(a.items, b.items);
    var st2 := Store(st1, tid, IndexKey(i), v, |st.stack|);
    ReadsStore(st, st1, tid, IndexKey(i), v, |st.stack|, h, seen, a.seen, final, marks, tailA);
    if r.Done? {
      ReadsCompose(st, st2, r.st, tid, h, seen, a.seen, b.seen, final, marks, tailA, tail);
    }
  }

  lemma ReplayArray(h: LuaHeap, vs: seq<Value>, open: seq<nat>, seen: seq<nat>, c: Context, final: seq<nat>,
                    marks: set<nat>, g: Guard, st: RState, tail: seq<byte>, tid: nat, i: int, size: int)
    requires Fixed(h, final) && ValidValues(h, vs)
    requires Walked(VisitAll(h, vs, open, seen), final, marks) && AgreesAll(h, vs, open, seen, c)
    requires Related(st, open, seen, final, marks, c) && tid < |seen| && size == i + |vs| - 1
    requires st.rest == Bytes(VisitAll(h, vs, open, seen).items, marks) + tail && |st.rest| < TWO_31
    ensures var r := UnpackArray(g, st, tid, i, size);
            Replayed(g, r, st, st.stack, tid, h, VisitAll(h, vs, open, seen), seen, final, marks, tail)
            && (r.Done? ==> r.st.tables[tid] == StoreArray(st.tables[tid], vs, i, final))
    decreases |st.rest|, 2, |vs|
  {
    hide Visit, VisitPairs, UnpackOne, PushValue, UnpackHash, Built, Bytes, Related, Agrees, AgreesPairs, Fixed;
    ReadsNothing(st, tid, h, open, seen, final, marks, c, st.rest);
    if vs == [] {
      NoParts(g, marks, tail);
    } else {
      var a := Visit(h, vs[0], open, seen);
      var b := VisitAll(h, vs[1..], open, a.seen);
      TwoParts(a.items, b.items, g, marks, tail);
      var tailA := Bytes(b.items, marks) + tail;
      ReplayVisit(h, vs[0], open, seen, c, final, marks, g, st, tailA);
      var r := UnpackOne(g, st);
      if r.Done? {
        var v := Image(final, vs[0]);
        assert Passes(g, a.items);
        assert r.st.stack == st.stack + [v] && Reads(st, r.st, -1, h, seen, a.seen, final, marks, tailA);
        var st2 := Store(r.st, tid, IndexKey(i), v, |st.stack|);
        assert st2.stack == st.stack;
        ReadsStore(st, r.st, tid, IndexKey(i), v, |st.stack|, h, seen, a.seen, final, marks, tailA);
        StillRelated(st, st2, tid, h, open, seen, a.seen, final, marks, tailA, c);
        ReplayArray(h, vs[1..], open, a.seen, c, final, marks, g, st2, tail, tid, i + 1, size);
        ArrayStep(g, st, r.st, tid, i, size, v, UnpackArray(g, st2, tid, i + 1, size), h, a, b,
                  seen, final, marks, tailA, tail);
      }
    }
  }

  /** A key is read one level up, where fewer slots may be used. */
  lemma KeyRelated(st: RState, open: seq<nat>, seen: seq<nat>, final: seq<nat>, marks: set<nat>, c: Context)
    requires open != [] && Related(st.(depth := st.depth + 1), open, seen, final, marks, c)
    requires c.key.Some? ==> c.key.value <= st.depth
    ensures Related(st, open, seen, final, marks, InKey(c, |open| - 1))
  {
  }

  /** After the key its table's own slot may have been overwritten, but only if the key was a new table. */
  lemma AfterKeyRelated(st: RState, st1: RState, h: LuaHeap, open: seq<nat>, seen: seq<nat>, seen': seq<nat>,
                        final: seq<nat>, marks: set<nat>, tail: seq<byte>, c: Context)
    requires open != [] && Related(st.(depth := st.depth + 1), open, seen, final, marks, c)
    requires c.key.Some? ==> c.key.value <= st.depth
    requires Reads(st, st1, -1, h, seen, seen', final, marks, tail) && st.stack <= st1.stack
    ensures Related(st1.(depth := st1.depth + 1), open, seen', final, marks, AfterKey(c, |open| - 1, seen' != seen))
  {
  }

  /** After the value too, and with key and value gone from the stack. */
  lemma PairRelated(st: RState, st1: RState, st2: RState, st3: RState, h: LuaHeap, open: seq<nat>, s0: seq<nat>,
                    s1: seq<nat>, s2: seq<nat>, final: seq<nat>, marks: set<nat>, t1: seq<byte>, t2: seq<byte>,
                    c: Context)
    requires open != [] && Related(st.(depth := st.depth + 1), open, s0, final, marks, c)
    requires c.key.Some? ==> c.key.value <= st.depth
    requires Reads(st, st1, -1, h, s0, s1, final, marks, t1)
    requires Reads(st1.(depth := st1.depth + 1), st2, -1, h, s1, s2, final, marks, t2)
    requires |st3.tables| == |st2.tables| && st3.refs == st2.refs && st3.depth == st.depth
    requires st3.ancestor == st2.ancestor && st3.stack == st.stack
    ensures Related(st3.(depth := st3.depth + 1), open, s2, final, marks, AfterKey(c, |open| - 1, s1 != s0))
  {
  }

  lemma ReadsPair(st: RState, st1: RState, st2: RState, tid: nat, k: Value, v: Value, top: nat, h: LuaHeap,
                  s0: seq<nat>, s1: seq<nat>, s2: seq<nat>, final: seq<nat>, marks: set<nat>, t1: seq<byte>,
                  t2: seq<byte>)
    requires Reads(st, st1, -1, h, s0, s1, final, marks, t1)
    requires Reads(st1.(depth := st1.depth + 1), st2, -1, h, s1, s2, final, marks, t2)
    requires s0 <= s1 <= s2 && tid < |s0| && top <= |st2.stack|
    ensures Reads(st, Store(st2.(depth := st2.depth - 1), tid, k, v, top), tid, h, s0, s2, final, marks, t2)
    ensures st2.tables[tid] == st.tables[tid]
  {
  }

  lemma UnpackPair(g: Guard, st: RState, st1: RState, st2: RState, tid: nat, k: Value, v: Value)
    requires |st.ancestor| == MAX_DEPTH == |st1.ancestor| == |st2.ancestor| && tid < |st.tables| <= |st2.tables|
    requires UnpackOne(g, st) == Done(st1) && st1.stack == st.stack + [k]
    requires !k.Nil? && (k.Number? ==> !IsNaN(k.bits))
    requires UnpackOne(g, st1.(depth := st1.depth + 1)) == Done(st2) && st2.stack == st1.stack + [v] && st2.depth > 0
    ensures UnpackHash(g, st, tid) == UnpackHash(g, Store(st2.(depth := st2.depth - 1), tid, k, v, |st.stack|), tid)
  {
    hide UnpackOne;
  }

  lemma UnpackPairFails(g: Guard, st: RState, st1: RState, tid: nat, k: Value)
    requires |st.ancestor| == MAX_DEPTH == |st1.ancestor| && tid < |st.tables|
    requires UnpackOne(g, st) == Done(st1) && st1.stack == st.stack + [k] && !k.Nil?
    requires UnpackOne(g, st1.(depth := st1.depth + 1)).Failed?
    ensures UnpackHash(g, st, tid).Failed?
  {
    hide UnpackOne;
  }

  /** The end of the pairs. */
  lemma ReplayNoPairs(g: Guard, st: RState, tid: nat, marks: set<nat>, tail: seq<byte>)
    requires |st.ancestor| == MAX_DEPTH && tid < |st.tables|
    requires st.rest == Bytes([], marks) + (AtomBytes(Nil) + tail) && |st.rest| < TWO_31
    ensures UnpackHash(g, st, tid) == Done(st.(rest := tail))
  {
    ReadAtom(Nil, g, st, tail);
    assert Push(st.(rest := tail), Nil).stack[..|st.stack|] == st.stack;
  }

  /** One key and value, and the rest of the pairs. */
  lemma PairStep(g: Guard, st: RState, st1: RState, st2: RState, tid: nat, k: Value, v: Value, r: Outcome, h: LuaHeap,
                 a: Walk, b: Walk, w: Walk, seen: seq<nat>, final: seq<nat>, marks: set<nat>, tailA: seq<byte>,
                 tailB: seq<byte>, tail: seq<byte>)
    requires |st.ancestor| == MAX_DEPTH && tid < |seen| == |st.tables|
    requires UnpackOne(g, st) == Done(st1) && st1.stack == st.stack + [k]
    requires !k.Nil? && (k.Number? ==> !IsNaN(k.bits))
    requires Reads(st, st1, -1, h, seen, a.seen, final, marks, tailA)
    requires UnpackOne(g, st1.(depth := st1.depth + 1)) == Done(st2) && st2.stack == st1.stack + [v]
    requires Reads(st1.(depth := st1.depth + 1), st2, -1, h, a.seen, b.seen, final, marks, tailB)
    requires seen <= a.seen <= b.seen <= w.seen
    requires Passes(g, a.items) && Passes(g, b.items)
    requires var st3 := Store(st2.(depth := st2.depth - 1), tid, k, v, |st.stack|);
             r == UnpackHash(g, st3, tid)
             && Replayed(g, r, st3, st.stack, tid, h, w, b.seen, final, marks, tail)
    ensures UnpackHash(g, st, tid) == r
    ensures Replayed(g, r, st, st.stack, tid, h, Walk(a.items + b.items + w.items, w.seen), seen, final, marks, tail)
  {
    hide Visit, VisitAll, VisitPairs, UnpackHash, UnpackOne, PushValue, Built, Bytes;
    ExtTargetsConcat(a.items, b.items);
    ExtTargetsConcat(a.items + b.items, w.items);
    var st3 := Store(st2.(depth := st2.depth - 1), tid, k, v, |st.stack|);
    UnpackPair(g, st, st1, st2, tid, k, v);
    ReadsPair(st, st1, st2, tid, k, v, |st.stack|, h, seen, a.seen, b.seen, final, marks, tailA, tailB);
    if r.Done? {
      ReadsCompose(st, st3, r.st, tid, h, seen, b.seen, w.seen, final, marks, tailB, tail);
    }
  }

  /** The first key and value of the pairs. */
  lemma ReplayPair(h: LuaHeap, k: Value, v: Value, open: seq<nat>, seen: seq<nat>, c: Context, final: seq<nat>,
                   marks: set<nat>, g: Guard, st: RState, tid: nat, a: Walk, b: Walk, tailA: seq<byte>,
                   tailB: seq<byte>)
    returns (st1: RState, st2: RState)
    requires Fixed(h, final) && ValidValue(h, k) && ValidValue(h, v) && ValidKey(k) && open != [] && tid < |seen|
    requires a == Visit(h, k, open, seen) && b == Visit(h, v, open, a.seen)
    requires Walked(a, final, marks) && Walked(b, final, marks)
    requires Agrees(h, k, open, seen, InKey(c, |open| - 1))
    requires Agrees(h, v, open, a.seen, AfterKey(c, |open| - 1, a.seen != seen))
    requires Related(st.(depth := st.depth + 1), open, seen, final, marks, c)
    requires c.key.Some? ==> c.key.value <= st.depth
    requires st.rest == Bytes(a.items, marks) + tailA && tailA == Bytes(b.items, marks) + tailB && |st.rest| < TWO_31
    ensures if Passes(g, a.items) && Passes(g, b.items) then
              UnpackOne(g, st) == Done(st1) && st1.stack == st.stack + [Image(final, k)]
              && Reads(st, st1, -1, h, seen, a.seen, final, marks, tailA)
              && |st1.ancestor| == MAX_DEPTH
              && UnpackOne(g, st1.(depth := st1.depth + 1)) == Done(st2) && st2.stack == st1.stack + [Image(final, v)]
              && Reads(st1.(depth := st1.depth + 1), st2, -1, h, a.seen, b.seen, final, marks, tailB)
            else UnpackHash(g, st, tid).Failed?
    decreases |st.rest|, 2, 0
  {
    hide Visit, VisitAll, VisitPairs, UnpackOne, PushValue, Built, Bytes, AtomBytes, ExtTargets, Agrees, Fixed,
         SlotsAgree, RefsKnown;
    KeyRelated(st, open, seen, final, marks, c);
    ReplayVisit(h, k, open, seen, InKey(c, |open| - 1), final, marks, g, st, tailA);
    var r := UnpackOne(g, st);
    st1, st2 := st, st;
    if r.Done? {
      st1 := r.st;
      AfterKeyRelated(st, st1, h, open, seen, a.seen, final, marks, tailA, c);
      var st1' := st1.(depth := st1.depth + 1);
      ReplayVisit(h, v, open, a.seen, AfterKey(c, |open| - 1, a.seen != seen), final, marks, g, st1', tailB);
      var r' := UnpackOne(g, st1');
      if r'.Done? {
        st2 := r'.st;
      } else {
        UnpackPairFails(g, st, st1, tid, Image(final, k));
      }
    }
  }

  lemma ReplayPairs(h: LuaHeap, pairs: seq<(Value, Value)>, open: seq<nat>, seen: seq<nat>, c: Context, final: seq<nat>,
                    marks: set<nat>, g: Guard, st: RState, tail: seq<byte>, tid: nat)
    requires Fixed(h, final) && ValidPairs(h, pairs) && open != []
    requires Walked(VisitPairs(h, pairs, open, seen), final, marks) && AgreesPairs(h, pairs, open, seen, c)
    requires Related(st.(depth := st.depth + 1), open, seen, final, marks, c) && tid < |seen|
    requires c.key.Some? ==> c.key.value <= st.depth
    requires st.rest == Bytes(VisitPairs(h, pairs, open, seen).items, marks) + (AtomBytes(Nil) + tail)
    requires |st.rest| < TWO_31
    ensures var r := UnpackHash(g, st, tid);
            Replayed(g, r, st, st.stack, tid, h, VisitPairs(h, pairs, open, seen), seen, final, marks, tail)
            && (r.Done? ==> r.st.tables[tid] == StorePairs(st.tables[tid], pairs, final))
    decreases |st.rest|, 2, 1 + |pairs|
  {
    hide Visit, VisitAll, UnpackOne, PushValue, Built, Bytes, AtomBytes, ExtTargets, Agrees, AgreesAll, Fixed,
         SlotsAgree, RefsKnown, RawSet, UnpackHash;
    if pairs == [] {
      KeyRelated(st, open, seen, final, marks, c);
      NoParts(g, marks, tail);
      ReplayNoPairs(g, st, tid, marks, tail);
      ReadsNothing(st, tid, h, open, seen, final, marks, InKey(c, |open| - 1), tail);
    } else {
      var k, v := pairs[0].0, pairs[0].1;
      var a := Visit(h, k, open, seen);
      var b := Visit(h, v, open, a.seen);
      var w := VisitPairs(h, pairs[1..], open, b.seen);
      var tailC := AtomBytes(Nil) + tail;
      var tailB := Bytes(w.items, marks) + tailC;
      var tailA := Bytes(b.items, marks) + tailB;
      TwoParts(a.items + b.items, w.items, g, marks, tailC);
      TwoParts(a.items, b.items, g, marks, tailB);
      var st1, st2 := ReplayPair(h, k, v, open, seen, c, final, marks, g, st, tid, a, b, tailA, tailB);
      if Passes(g, a.items) && Passes(g, b.items) {
        var k', v' := Image(final, k), Image(final, v);
        var st3 := Store(st2.(depth := st2.depth - 1), tid, k', v', |st.stack|);
        ReadsPair(st, st1, st2, tid, k', v', |st.stack|, h, seen, a.seen, b.seen, final, marks, tailA, tailB);
        PairRelated(st, st1, st2, st3, h, open, seen, a.seen, b.seen, final, marks, tailA, tailB, c);
        ReplayPairs(h, pairs[1..], open, b.seen, AfterKey(c, |open| - 1, a.seen != seen), final, marks, g, st3, tail,
                    tid);
        PairStep(g, st, st1, st2, tid, k', v', UnpackHash(g, st3, tid), h, a, b, w, seen, final, marks, tailA, tailB,
                 tail);
      }
    }
  }
}
