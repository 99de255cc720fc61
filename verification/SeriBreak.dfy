/** A short reference through a slot that may not be used spoils the graph for good. */
module SeriBreak {
  import opened Bits
  import opened LuaValues
  import opened SeriFormat
  import opened SeriWalk
  import opened SeriRead
  import opened SeriFrame
  import opened SeriSimulation
  import opened SeriReplay
  import opened SeriCopy
  import opened SeriSpoil
  import opened SeriDrift
  import opened SeriPositions

  /** Both sides are as they should be before the next value. */
  ghost predicate InPlace(st: RState, open: seq<nat>, seen: seq<nat>, final: seq<nat>, marks: set<nat>, c: Context,
                          pos: seq<nat>)
  {
    Related(st, open, seen, final, marks, c) && Positions(st, open, seen, final, c, pos)
  }

  /** A reference read through a slot that may not be used has given something else. */
  ghost predicate Misread(x: Value, v: Value, open: seq<nat>, final: seq<nat>, c: Context)
  {
    v.Table? && ShortRef(open, v.id).Some?
    && !Usable(c, ShortRef(open, v.id).value)
    && NoneOf(x, open, final, Unusable(c, |open|), ShortRef(open, v.id).value)
  }

  lemma MisreadDiffers(x: Value, v: Value, open: seq<nat>, final: seq<nat>, c: Context)
    requires Misread(x, v, open, final, c)
    ensures x != Image(final, v) && |open| < MAX_DEPTH && !v.Nil?
  {
    var i := ShortRef(open, v.id).value;
    assert i in Unusable(c, |open|) && open[i] == v.id;
  }

  lemma BreakShort(h: LuaHeap, id: nat, open: seq<nat>, seen: seq<nat>, c: Context, pos: seq<nat>, final: seq<nat>,
                   marks: set<nat>, g: Guard, st: RState, tail: seq<byte>)
    requires ShortRef(open, id).Some? && !Agrees(h, Table(id), open, seen, c)
    requires InPlace(st, open, seen, final, marks, c, pos)
    requires st.rest == Bytes(Visit(h, Table(id), open, seen).items, marks) + tail
    ensures Visit(h, Table(id), open, seen).seen == seen
    ensures var r := UnpackOne(g, st);
            r.Done? ==> InStep(r.st, seen, marks, tail) && Misread(r.st.stack[|st.stack|], Table(id), open, final, c)
  {
    hide Positions, SlotsAgree, RefsKnown, NoneOf, UnpackOne;
    var i := ShortRef(open, id).value;
    BytesOne(Short(i), g, marks);
    DriftShort(i, marks, g, st, tail);
    if i < st.depth {
      MisreadSlot(st, open, seen, final, c, pos, i);
    }
  }

  lemma BreakVisit(h: LuaHeap, v: Value, open: seq<nat>, seen: seq<nat>, c: Context, pos: seq<nat>, final: seq<nat>,
                   marks: set<nat>, g: Guard, st: RState, tail: seq<byte>)
    requires Complete(h, final) && ValidValue(h, v) && !Agrees(h, v, open, seen, c)
    requires Walked(Visit(h, v, open, seen), final, marks) && InPlace(st, open, seen, final, marks, c, pos)
    requires st.rest == Bytes(Visit(h, v, open, seen).items, marks) + tail && |st.rest| < TWO_31
    ensures var r := UnpackOne(g, st);
            r.Done? ==>
              || Wrong(r.st, |seen|, h, final)
              || (InStep(r.st, seen, marks, tail) && Misread(r.st.stack[|st.stack|], v, open, final, c)
                  && Visit(h, v, open, seen).seen == seen)
    decreases |st.rest|, 1
  {
    hide Misread, Wrong, InPlace, UnpackOne, Complete;
    if ShortRef(open, v.id).Some? {
      BreakShort(h, v.id, open, seen, c, pos, final, marks, g, st, tail);
    } else {
      BreakOpen(h, v.id, open, seen, c, pos, final, marks, g, st, tail);
    }
  }

  // ---------- entries gone wrong ----------

  ghost predicate NumberKeys(m: Entries)
  {
    forall key :: key in m ==> key.Number?
  }

  ghost predicate WrongAt(m: Entries, t: TableObj, final: seq<nat>, y: nat)
  {
    && 0 < y <= t.border && !ArrayPart(t)[y - 1].Nil?
    && !(IndexKey(y) in m && m[IndexKey(y)] == Image(final, ArrayPart(t)[y - 1]))
  }

  /** The array pass has gone wrong at some index. */
  ghost predicate BadIndex(m: Entries, t: TableObj, final: seq<nat>)
  {
    NumberKeys(m) && exists y: nat :: WrongAt(m, t, final, y)
  }

  lemma StoreNumber(m: Entries, i: nat, x: Value, t: TableObj, final: seq<nat>)
    requires NumberKeys(m) && 0 < i < TWO_31
    ensures NumberKeys(RawSet(m, IndexKey(i), x))
    ensures forall y: nat :: 0 < y < TWO_31 && y != i ==>
              (WrongAt(RawSet(m, IndexKey(i), x), t, final, y) <==> WrongAt(m, t, final, y))
    ensures 0 < i <= t.border && !ArrayPart(t)[i - 1].Nil? && x != Image(final, ArrayPart(t)[i - 1]) ==>
              WrongAt(RawSet(m, IndexKey(i), x), t, final, i)
  {
    hide OfInteger, ArrayPart, Image;
    IndexKeysApart(i, i);
    forall y: nat | 0 < y < TWO_31 && y != i
      ensures WrongAt(RawSet(m, IndexKey(i), x), t, final, y) <==> WrongAt(m, t, final, y)
    {
      IndexKeysApart(i, y);
    }
  }

  lemma {:induction false} BadIndexStays(m: Entries, xs: seq<Value>, i: nat, t: TableObj, final: seq<nat>, y: nat)
    requires NumberKeys(m) && 0 < y < i && i + |xs| <= TWO_31 && WrongAt(m, t, final, y)
    ensures BadIndex(StoreValues(m, xs, i), t, final)
    decreases |xs|
  {
    hide RawSet, IndexKey, WrongAt, NumberKeys;
    if xs != [] {
      StoreNumber(m, i, xs[0], t, final);
      BadIndexStays(RawSet(m, IndexKey(i), xs[0]), xs[1..], i + 1, t, final, y);
    }
  }

  /** The entry the array pass has got wrong is one that has to be copied, and no pair stored later has its key. */
  lemma IndexEntry(h: LuaHeap, t: TableObj, y: nat)
    requires ValidPairs(h, t.pairs) && 0 < y <= t.border < TWO_31 && !ArrayPart(t)[y - 1].Nil?
    ensures (IndexKey(y), ArrayPart(t)[y - 1]) in t.pairs && !Lost(IndexKey(y), t.border)
    ensures forall q :: 0 <= q < |HashPart(t)| ==> HashPart(t)[q].0 != IndexKey(y)
  {
    hide RawGet, EmittedPairs, OfInteger, ToInteger, Lost;
    LostIsDropped(IndexKey(y), t.border);
    RawGetValid(h, t.pairs, IndexKey(y));
    ToIntegerOfIndex(y);
    forall q | 0 <= q < |HashPart(t)| ensures HashPart(t)[q].0 != IndexKey(y) {
      EmittedExactly(t.pairs, t.border, HashPart(t)[q]);
    }
  }

  /** Whatever the pairs store, the wrong index leaves the table wrong. */
  lemma BadIndexSpoils(h: LuaHeap, t: TableObj, m: Entries, ks: seq<Value>, xs: seq<Value>,
                       st: RState, open: seq<nat>, final: seq<nat>, u: set<nat>)
    requires ValidPairs(h, t.pairs) && t.border < TWO_31 && KeysNumbered(t.pairs, final) && BadIndex(m, t, final)
    requires SlotsKnown(st, open, final, u) && open != [] && |ks| == |xs| <= |HashPart(t)|
    requires forall q :: 0 <= q < |ks| ==> ValueRead(ks[q], HashPart(t)[q].0, st, open, final)
    ensures !Copies(StoreKeyed(m, ks, xs), t, final)
  {
    hide StoreKeyed, Copies, HashPart, ArrayPart, OfInteger, ValueRead, SlotsKnown, Lost, ValidPairs, KeysNumbered;
    var y: nat :| WrongAt(m, t, final, y);
    IndexEntry(h, t, y);
    HashPairs(h, t, final);
    NumbersAreNone(m, open, final, u);
    EntrySpoils(t, m, HashPart(t), ks, xs, st, open, final, u, (IndexKey(y), ArrayPart(t)[y - 1]));
  }

  lemma NumbersAreNone(m: Entries, open: seq<nat>, final: seq<nat>, u: set<nat>)
    requires NumberKeys(m)
    ensures NoneIn(m, open, final, u, |open|)
  {
  }

  lemma HashPairs(h: LuaHeap, t: TableObj, final: seq<nat>)
    requires ValidPairs(h, t.pairs) && KeysNumbered(t.pairs, final) && t.border < TWO_31
    ensures ValidPairs(h, HashPart(t))
    ensures forall q :: 0 <= q < |HashPart(t)| ==>
              HashPart(t)[q] in t.pairs && !Lost(HashPart(t)[q].0, t.border) && ValidKey(HashPart(t)[q].0)
              && (HashPart(t)[q].0.Table? ==> HashPart(t)[q].0.id in final)
  {
    hide EmittedPairs, ToInteger, OfInteger, Lost;
    HashPartValid(h, t.pairs, t.border);
    HashPartNumbered(t, final);
    forall q | 0 <= q < |HashPart(t)| ensures HashPart(t)[q] in t.pairs && !Lost(HashPart(t)[q].0, t.border) {
      EmittedExactly(t.pairs, t.border, HashPart(t)[q]);
      LostIsDropped(HashPart(t)[q].0, t.border);
    }
  }

  // ---------- the array part ----------

  lemma BreakArray(h: LuaHeap, vs: seq<Value>, open: seq<nat>, seen: seq<nat>, c: Context, pos: seq<nat>,
                   final: seq<nat>, marks: set<nat>, g: Guard, st: RState, tail: seq<byte>, tid: nat, i: nat,
                   t: TableObj)
    requires Complete(h, final) && ValidValues(h, vs) && !AgreesAll(h, vs, open, seen, c) && tid < |seen|
    requires Walked(VisitAll(h, vs, open, seen), final, marks) && InPlace(st, open, seen, final, marks, c, pos)
    requires 0 < i && t.border == i + |vs| - 1 < TWO_31 && vs == ArrayPart(t)[i - 1..] && NumberKeys(st.tables[tid])
    requires st.rest == Bytes(VisitAll(h, vs, open, seen).items, marks) + tail && |st.rest| < TWO_31
    ensures var r := UnpackArray(g, st, tid, i, t.border);
            r.Done? ==>
              || Wrong(r.st, |seen|, h, final)
              || (|open| < MAX_DEPTH && InStep(r.st, VisitAll(h, vs, open, seen).seen, marks, tail)
                  && BadIndex(r.st.tables[tid], t, final))
    decreases |st.rest|, 2, |vs|
  {
    hide Visit, UnpackOne, PushValue, UnpackHash, Bytes, Wrong, RefsKnown, InPlace, BadIndex, NumberKeys,
         ArrayPart, Misread, Complete, Agrees, KeptTables, Walked, WrongAt;
    var a := Visit(h, vs[0], open, seen);
    var b := VisitAll(h, vs[1..], open, a.seen);
    FirstElement(h, vs, open, seen, final, marks, tail);
    InPlaceFacts(st, open, seen, final, marks, c, pos);
    var tailA := Bytes(b.items, marks) + tail;
    var r := UnpackArray(g, st, tid, i, t.border);
    if r.Failed? {
      return;
    }
    var st1 := UnpackOne(g, st).st;
    var x := st1.stack[|st.stack|];
    var st2 := Store(st1, tid, IndexKey(i), x, |st.stack|);
    StoreNumber(st.tables[tid], i, x, t, final);
    KeptOne(g, st);
    assert vs[0] == ArrayPart(t)[i - 1] && vs[1..] == ArrayPart(t)[i..];
    if Agrees(h, vs[0], open, seen, c) {
      ElementAgrees(h, vs[0], open, seen, c, pos, final, marks, g, st, tailA, tid, i);
      BreakArray(h, vs[1..], open, a.seen, c, pos, final, marks, g, st2, tail, tid, i + 1, t);
      if Wrong(r.st, |a.seen|, h, final) {
        WrongFrom(r.st, |a.seen|, |seen|, h, final);
      }
      return;
    }
    BreakVisit(h, vs[0], open, seen, c, pos, final, marks, g, st, tailA);
    if Wrong(st1, |seen|, h, final) {
      AfterElement(g, st, tid, i, t.border);
      WrongStays(st1, r.st, tid, |seen|, |seen|, h, final);
    } else {
      MisreadDiffers(x, vs[0], open, final, c);
      ArrayMisread(h, vs[1..], open, a.seen, final, marks, g, st2, tail, tid, i, t);
    }
  }

  /** What is known of an array part is known of its first element and of the rest. */
  lemma FirstElement(h: LuaHeap, vs: seq<Value>, open: seq<nat>, seen: seq<nat>, final: seq<nat>, marks: set<nat>,
                     tail: seq<byte>)
    requires vs != [] && ValidValues(h, vs) && Walked(VisitAll(h, vs, open, seen), final, marks)
    ensures var a := Visit(h, vs[0], open, seen);
            var b := VisitAll(h, vs[1..], open, a.seen);
            && Walked(a, final, marks) && Walked(b, final, marks) && seen <= a.seen <= b.seen
            && b.seen == VisitAll(h, vs, open, seen).seen
            && Bytes(VisitAll(h, vs, open, seen).items, marks) + tail
               == Bytes(a.items, marks) + (Bytes(b.items, marks) + tail)
    ensures ValidValue(h, vs[0]) && ValidValues(h, vs[1..])
  {
    hide Visit, Bytes, ExtTargets;
    var a := Visit(h, vs[0], open, seen);
    var b := VisitAll(h, vs[1..], open, a.seen);
    TwoParts(a.items, b.items, Intended, marks, tail);
    PrefixTransitive(a.seen, b.seen, final);
  }

  /** The rest of the array part after a wrong element. */
  lemma ArrayMisread(h: LuaHeap, vs: seq<Value>, open: seq<nat>, seen: seq<nat>, final: seq<nat>, marks: set<nat>,
                     g: Guard, st: RState, tail: seq<byte>, tid: nat, i: nat, t: TableObj)
    requires Complete(h, final) && ValidValues(h, vs) && tid < |seen| && 0 < i && t.border == i + |vs| < TWO_31
    requires Walked(VisitAll(h, vs, open, seen), final, marks) && InStep(st, seen, marks, st.rest)
    requires st.rest == Bytes(VisitAll(h, vs, open, seen).items, marks) + tail && |st.rest| < TWO_31
    requires NumberKeys(st.tables[tid]) && WrongAt(st.tables[tid], t, final, i)
    ensures var r := UnpackArray(g, st, tid, i + 1, t.border);
            r.Done? ==>
              || Wrong(r.st, |seen|, h, final)
              || (InStep(r.st, VisitAll(h, vs, open, seen).seen, marks, tail) && BadIndex(r.st.tables[tid], t, final))
  {
    hide VisitAll, UnpackArray, Bytes, Wrong, RefsKnown, BadIndex, NumberKeys, Complete, WrongAt;
    var xs := DriftArray(h, vs, open, seen, final, marks, g, st, tail, tid, i + 1, t.border);
    var r := UnpackArray(g, st, tid, i + 1, t.border);
    if r.Done? && !Wrong(r.st, |seen|, h, final) {
      BadIndexStays(st.tables[tid], xs, i + 1, t, final, i);
    }
  }

  /** An element on which both sides agree leaves both in place. */
  lemma ElementAgrees(h: LuaHeap, v: Value, open: seq<nat>, seen: seq<nat>, c: Context, pos: seq<nat>, final: seq<nat>,
                      marks: set<nat>, g: Guard, st: RState, tail: seq<byte>, tid: nat, i: nat)
    requires Complete(h, final) && ValidValue(h, v) && Agrees(h, v, open, seen, c) && tid < |seen|
    requires Walked(Visit(h, v, open, seen), final, marks) && InPlace(st, open, seen, final, marks, c, pos)
    requires st.rest == Bytes(Visit(h, v, open, seen).items, marks) + tail && |st.rest| < TWO_31
    requires UnpackOne(g, st).Done?
    ensures var st1 := UnpackOne(g, st).st;
            var st2 := Store(st1, tid, IndexKey(i), st1.stack[|st.stack|], |st.stack|);
            && st1.stack[|st.stack|] == Image(final, v) && st2.rest == tail
            && InPlace(st2, open, Visit(h, v, open, seen).seen, final, marks, c, pos)
  {
    hide Visit, UnpackOne, PushValue, Bytes, Agrees, Fixed, Positions, SlotsAgree, RefsKnown, ExtTargets;
    ReplayVisit(h, v, open, seen, c, final, marks, g, st, tail);
    var w := Visit(h, v, open, seen);
    var st1 := UnpackOne(g, st).st;
    var st2 := Store(st1, tid, IndexKey(i), st1.stack[|st.stack|], |st.stack|);
    KeptOne(g, st);
    ReadsStore(st, st1, tid, IndexKey(i), Image(final, v), |st.stack|, h, seen, w.seen, final, marks, tail);
    StillRelated(st, st2, tid, h, open, seen, w.seen, final, marks, tail, c);
    StillPositions(st, st2, open, seen, w.seen, final, c, pos);
  }

  // ---------- the pairs ----------

  /** The state between two pairs of the innermost open table, which is on top of the stack. */
  ghost predicate BetweenPairs(st: RState, open: seq<nat>, seen: seq<nat>, final: seq<nat>, marks: set<nat>, c: Context,
                               pos: seq<nat>)
  {
    InPlace(st.(depth := st.depth + 1), open, seen, final, marks, c, pos) && OnTop(st, pos) && |open| == |pos|
    && (c.key.Some? ==> c.key.value <= st.depth)
  }

  /** A new table read as a key takes the slot of the table it is a key of. */
  lemma NewKeySlot(h: LuaHeap, id: nat, open: seq<nat>, seen: seq<nat>, final: seq<nat>, marks: set<nat>, g: Guard,
                   st: RState, tail: seq<byte>)
    requires Fixed(h, final) && id in h && id !in seen && ShortRef(open, id).None? && |st.ancestor| == MAX_DEPTH
    requires Walked(Visit(h, Table(id), open, seen), final, marks)
    requires st.rest == Bytes(Visit(h, Table(id), open, seen).items, marks) + tail && UnpackOne(g, st).Done?
    ensures st.depth < MAX_DEPTH ==> UnpackOne(g, st).st.ancestor[st.depth] >= |st.stack|
  {
    hide Visit, VisitAll, VisitPairs, UnpackTable, UnpackRef, GetAtom, Bytes, OpenBytes, AtomBytes, ExtTargets,
         ArrayPart, HashPart, ShortRef, ArraySize, ValidPairs;
    var w := Visit(h, Table(id), open, seen);
    var a := VisitAll(h, ArrayPart(h[id]), open + [id], seen + [id]);
    var b := VisitPairs(h, HashPart(h[id]), open + [id], a.seen);
    OpenWalked(h, id, open, seen, w, a, b, final, marks, g, tail);
    var rest := Bytes(a.items, marks) + (Bytes(b.items, marks) + (AtomBytes(Nil) + tail));
    var t, more := OpenTagBack(h[id].border, |seen| in marks, rest);
    FirstByte(t, more, g, st);
    KeptTable(g, st.(rest := more), t / 8, t % 8);
  }

  /** A key on which both sides agree is read right, and the value can be read next. */
  lemma KeyAgrees(h: LuaHeap, k: Value, open: seq<nat>, seen: seq<nat>, c: Context, pos: seq<nat>, final: seq<nat>,
                  marks: set<nat>, g: Guard, st: RState, tail: seq<byte>)
    requires Complete(h, final) && ValidValue(h, k) && open != [] && Agrees(h, k, open, seen, InKey(c, |open| - 1))
    requires Walked(Visit(h, k, open, seen), final, marks) && BetweenPairs(st, open, seen, final, marks, c, pos)
    requires st.rest == Bytes(Visit(h, k, open, seen).items, marks) + tail && |st.rest| < TWO_31
    requires UnpackOne(g, st).Done? && (k.Table? ==> k.id in final)
    ensures var st1 := UnpackOne(g, st).st;
            var seen' := Visit(h, k, open, seen).seen;
            && st1.stack == st.stack + [Image(final, k)] && CleanKey(Image(final, k), open, final, c)
            && Reads(st, st1, -1, h, seen, seen', final, marks, tail)
            && InPlace(st1.(depth := st1.depth + 1), open, seen', final, marks, AfterKey(c, |open| - 1, seen' != seen),
                       pos)
  {
    hide Visit, UnpackOne, PushValue, Bytes, Agrees, Positions, SlotsAgree, RefsKnown, ExtTargets, CleanKey, ValidHeap,
         Built;
    var w := Visit(h, k, open, seen);
    KeyRelated(st, open, seen, final, marks, c);
    ReplayVisit(h, k, open, seen, InKey(c, |open| - 1), final, marks, g, st, tail);
    var st1 := UnpackOne(g, st).st;
    KeptOne(g, st);
    PositionsDistinctly(st.(depth := st.depth + 1), open, seen, final, c, pos);
    KeyIsClean(h, k, open, seen, final, c);
    AfterKeyRelated(st, st1, h, open, seen, w.seen, final, marks, tail, c);
    if w.seen != seen {
      OnlyNewTables(h, k, open, seen);
      NewKeySlot(h, k.id, open, seen, final, marks, g, st, tail);
    }
    AfterKeyPositions(st, st1, Image(final, k), open, seen, w.seen, final, c, pos);
  }

  lemma PositionsDistinctly(st: RState, open: seq<nat>, seen: seq<nat>, final: seq<nat>, c: Context, pos: seq<nat>)
    requires Positions(st, open, seen, final, c, pos)
    ensures Distinctly(open, seen, final)
  {
  }

  lemma OnlyNewTables(h: LuaHeap, v: Value, open: seq<nat>, seen: seq<nat>)
    requires Visit(h, v, open, seen).seen != seen
    ensures v.Table? && ShortRef(open, v.id).None? && v.id !in seen && v.id in h
  {
    hide VisitAll, VisitPairs;
  }

  /** The state before the next pair, once key and value have been read from st1 on. */
  lemma NextBetween(st: RState, st1: RState, st2: RState, tid: nat, k: Value, x: Value, open: seq<nat>, seen: seq<nat>,
                    seen': seq<nat>, final: seq<nat>, marks: set<nat>, c: Context, pos: seq<nat>)
    requires OnTop(st, pos) && |open| == |pos| && tid < |st2.tables| && |open| > 0
    requires InPlace(st1.(depth := st1.depth + 1), open, seen, final, marks, c, pos)
    requires c.key.Some? ==> c.key.value <= st1.depth
    requires st.stack <= st1.stack <= st2.stack && Kept(st1.(depth := st1.depth + 1), st2, -1)
    requires seen <= seen' <= final && InStep(st2, seen', marks, st2.rest)
    ensures BetweenPairs(Store(st2.(depth := st2.depth - 1), tid, k, x, |st.stack|), open, seen', final, marks, c, pos)
  {
    var st3 := Store(st2.(depth := st2.depth - 1), tid, k, x, |st.stack|);
    PairPositions(st, st1, st3, open, seen, seen', final, c, pos);
    StillSlots(st1, st3, |st.stack|, open, seen, final, marks, c, pos);
  }

  /** The usable slots lead into the part of the stack that stays. */
  lemma StillSlots(st1: RState, st3: RState, top: nat, open: seq<nat>, seen: seq<nat>, final: seq<nat>, marks: set<nat>,
                   c: Context, pos: seq<nat>)
    requires InPlace(st1.(depth := st1.depth + 1), open, seen, final, marks, c, pos)
    requires |open| == |pos| > 0 && pos[|pos| - 1] == top - 1 && top <= |st1.stack| && st3.stack == st1.stack[..top]
    requires st3.depth == st1.depth && |st3.ancestor| == MAX_DEPTH
    requires forall i :: 0 <= i < MAX_DEPTH && i <= st1.depth ==> st3.ancestor[i] == st1.ancestor[i]
    ensures SlotsAgree(st3.(depth := st3.depth + 1), open, final, c)
  {
    forall i | 0 <= i < |open| && i < MAX_DEPTH && Usable(c, i)
      ensures i <= st3.depth && st3.ancestor[i] < top
              && StackAt(st3.stack, st3.ancestor[i]) == Table(Num(final, open[i]))
    {
      assert st1.ancestor[i] == pos[i];
    }
  }

  /** Table tid is being built: its original has these pairs still to come, and none of its keys so far is an open
      table whose slot keys may not use. */
  ghost predicate Building(m: Entries, tid: nat, h: LuaHeap, final: seq<nat>, pairs: seq<(Value, Value)>,
                           open: seq<nat>, c: Context)
  {
    && tid < |final| && final[tid] in h && ValidPairs(h, pairs)
    && (forall q :: 0 <= q < |pairs| ==> Owed(pairs[q], h[final[tid]], final))
    && (|open| < MAX_DEPTH ==> NoneIn(m, open, final, KeyUnusable(c, |open|), |open|))
  }

  ghost predicate Owed(p: (Value, Value), t: TableObj, final: seq<nat>)
  {
    p in t.pairs && !Lost(p.0, t.border) && (p.0.Table? ==> p.0.id in final)
  }

  /** A misread key, and whatever else is stored, leaves the table wrong. */
  lemma KeyDooms(st: RState, st': RState, tid: nat, h: LuaHeap, pairs: seq<(Value, Value)>, ks: seq<Value>,
                 xs: seq<Value>, open: seq<nat>, seen: seq<nat>, final: seq<nat>, marks: set<nat>, c: Context,
                 pos: seq<nat>)
    requires pairs != [] && tid < |st.tables| && Building(st.tables[tid], tid, h, final, pairs, open, c)
    requires BetweenPairs(st, open, seen, final, marks, c, pos)
    requires pairs[0].0.Table? && ShortRef(open, pairs[0].0.id).Some?
    requires !Usable(InKey(c, |open| - 1), ShortRef(open, pairs[0].0.id).value)
    requires KeyedStores(st, st', tid, pairs, ks, xs, open, final)
    ensures Wrong(st', tid, h, final)
  {
    hide Copies, Lost, StoreKeyed, Positions, SlotsAgree, RefsKnown, SlotsKnown, ValueRead;
    KeySlots(st, open, seen, final, marks, c, pos);
    var i := ShortRef(open, pairs[0].0.id).value;
    NoneInFewer(st.tables[tid], open, final, KeyUnusable(c, |open|), i);
    KeySpoils(h[final[tid]], st.tables[tid], pairs, ks, xs, st, open, final, KeyUnusable(c, |open|), pairs[0], i);
    WrongHere(st', tid, tid, h, final);
  }

  lemma NoneInFewer(m: Entries, open: seq<nat>, final: seq<nat>, u: set<nat>, i: nat)
    requires NoneIn(m, open, final, u, |open|) && i < |open|
    ensures NoneIn(m, open, final, u, i)
  {
  }

  /** A misread value under a right key, and whatever else is stored, leaves the table wrong. */
  lemma ValueDooms(st: RState, st': RState, tid: nat, h: LuaHeap, m: Entries, p: (Value, Value), x: Value,
                   pairs: seq<(Value, Value)>, ks: seq<Value>, xs: seq<Value>,
                   open: seq<nat>, seen: seq<nat>, final: seq<nat>, marks: set<nat>, c: Context, pos: seq<nat>)
    requires tid < |st.tables| && Building(m, tid, h, final, [p] + pairs, open, c) && |open| < MAX_DEPTH
    requires st.tables[tid] == RawSet(m, Image(final, p.0), x) && x != Image(final, p.1)
    requires CleanKey(Image(final, p.0), open, final, c)
    requires BetweenPairs(st, open, seen, final, marks, c, pos)
    requires KeyedStores(st, st', tid, pairs, ks, xs, open, final)
    ensures Wrong(st', tid, h, final)
  {
    hide Copies, Lost, StoreKeyed, Positions, SlotsAgree, RefsKnown, SlotsKnown, ValueRead, NoneOf;
    KeySlots(st, open, seen, final, marks, c, pos);
    var u := KeyUnusable(c, |open|);
    var all := [p] + pairs;
    assert all[0] == p && forall q :: 0 <= q < |pairs| ==> pairs[q] == all[q + 1];
    NoneInStored(m, Image(final, p.0), x, open, final, u, |open|);
    EntrySpoils(h[final[tid]], st.tables[tid], pairs, ks, xs, st, open, final, u, p);
    WrongHere(st', tid, tid, h, final);
  }

  lemma BuildingNext(m: Entries, tid: nat, h: LuaHeap, final: seq<nat>, pairs: seq<(Value, Value)>, open: seq<nat>,
                     c: Context, isNew: bool)
    requires pairs != [] && open != [] && Building(m, tid, h, final, pairs, open, c)
    requires CleanKey(Image(final, pairs[0].0), open, final, c)
    ensures Building(RawSet(m, Image(final, pairs[0].0), Image(final, pairs[0].1)), tid, h, final, pairs[1..], open,
                     AfterKey(c, |open| - 1, isNew))
    ensures Building(m, tid, h, final, pairs, open, AfterKey(c, |open| - 1, isNew))
    ensures CleanKey(Image(final, pairs[0].0), open, final, AfterKey(c, |open| - 1, isNew))
  {
    hide Owed, NoneOf, RawSet;
    SameKeyUnusable(c, |open|, isNew);
    if |open| < MAX_DEPTH {
      NoneInStored(m, Image(final, pairs[0].0), Image(final, pairs[0].1), open, final, KeyUnusable(c, |open|), |open|);
    }
  }

  lemma WrongFrom(st: RState, from: nat, from': nat, h: LuaHeap, final: seq<nat>)
    requires Wrong(st, from, h, final) && from' <= from
    ensures Wrong(st, from', h, final)
  {
    SameTables(st);
    WrongStays(st, st, -1, from, from', h, final);
  }

  /** The first disagreement is in the first key. */
  lemma BreakKey(h: LuaHeap, pairs: seq<(Value, Value)>, open: seq<nat>, seen: seq<nat>, c: Context, pos: seq<nat>,
                 final: seq<nat>, marks: set<nat>, g: Guard, st: RState, tail: seq<byte>, tailA: seq<byte>, tid: nat)
    requires Complete(h, final) && ValidPairs(h, pairs) && pairs != [] && open != [] && tid < |seen|
    requires !Agrees(h, pairs[0].0, open, seen, InKey(c, |open| - 1))
    requires Walked(VisitPairs(h, pairs, open, seen), final, marks)
    requires Walked(Visit(h, pairs[0].0, open, seen), final, marks)
    requires BetweenPairs(st, open, seen, final, marks, c, pos) && |st.tables| == |seen|
    requires Building(st.tables[tid], tid, h, final, pairs, open, c)
    requires st.rest == Bytes(VisitPairs(h, pairs, open, seen).items, marks) + (AtomBytes(Nil) + tail)
    requires st.rest == Bytes(Visit(h, pairs[0].0, open, seen).items, marks) + tailA && |st.rest| < TWO_31
    ensures var r := UnpackHash(g, st, tid); r.Done? ==> Wrong(r.st, tid, h, final)
    decreases |st.rest|, 2, 0
  {
    hide Visit, VisitPairs, UnpackOne, UnpackHash, Bytes, AtomBytes, Wrong, InStep, InPlace, BetweenPairs, Building,
         KeyedStores, Complete, ValidPairs, Misread, Agrees, Walked;
    var k := pairs[0].0;
    BetweenInStep(st, open, seen, final, marks, c, pos);
    Disagreement(h, k, open, seen, InKey(c, |open| - 1));
    var r := UnpackHash(g, st, tid);
    if r.Failed? {
      return;
    }
    if ShortRef(open, k.id).Some? {
      var ks, xs := DriftPairs(h, pairs, open, seen, final, marks, g, st, tail, tid);
      if Wrong(r.st, |seen|, h, final) {
        WrongFrom(r.st, |seen|, tid, h, final);
      } else {
        KeyDooms(st, r.st, tid, h, pairs, ks, xs, open, seen, final, marks, c, pos);
      }
    } else {
      KeyInPlace(st, open, seen, final, marks, c, pos);
      FirstPairValid(h, pairs);
      BreakVisit(h, k, open, seen, InKey(c, |open| - 1), pos, final, marks, g, st, tailA);
      AfterFirstKey(g, st, tid);
      NotMisread(UnpackOne(g, st).st.stack[|st.stack|], k, open, final, InKey(c, |open| - 1));
      WrongStays(UnpackOne(g, st).st, r.st, tid, |seen|, tid, h, final);
    }
  }

  lemma KeyInPlace(st: RState, open: seq<nat>, seen: seq<nat>, final: seq<nat>, marks: set<nat>, c: Context,
                   pos: seq<nat>)
    requires BetweenPairs(st, open, seen, final, marks, c, pos)
    ensures open != [] && InPlace(st, open, seen, final, marks, InKey(c, |open| - 1), pos)
  {
    hide Positions, SlotsAgree, RefsKnown;
    KeyRelated(st, open, seen, final, marks, c);
    KeyPositions(st, open, seen, final, c, pos);
  }

  lemma BetweenInStep(st: RState, open: seq<nat>, seen: seq<nat>, final: seq<nat>, marks: set<nat>, c: Context,
                      pos: seq<nat>)
    requires BetweenPairs(st, open, seen, final, marks, c, pos)
    ensures |st.ancestor| == MAX_DEPTH && |st.tables| == |seen| && InStep(st, seen, marks, st.rest)
  {
    hide Positions, SlotsAgree, RefsKnown;
  }

  lemma FirstPairValid(h: LuaHeap, pairs: seq<(Value, Value)>)
    requires ValidPairs(h, pairs) && pairs != []
    ensures ValidValue(h, pairs[0].0) && ValidValue(h, pairs[0].1) && ValidKey(pairs[0].0) && ValidPairs(h, pairs[1..])
  {
  }

  /** Only a table can be disagreed on. */
  lemma Disagreement(h: LuaHeap, v: Value, open: seq<nat>, seen: seq<nat>, c: Context)
    requires !Agrees(h, v, open, seen, c)
    ensures v.Table? && (ShortRef(open, v.id).Some? ==> !Usable(c, ShortRef(open, v.id).value))
    ensures ShortRef(open, v.id).None? ==> v.id !in seen && v.id in h
  {
    hide AgreesAll, AgreesPairs, VisitAll;
  }

  lemma NotMisread(x: Value, v: Value, open: seq<nat>, final: seq<nat>, c: Context)
    requires v.Table? && ShortRef(open, v.id).None?
    ensures !Misread(x, v, open, final, c)
  {
  }

  /** The first key has been read right, and its value comes next. */
  ghost predicate KeyDone(st: RState, st1: RState, g: Guard, tid: nat, h: LuaHeap, pairs: seq<(Value, Value)>,
                          open: seq<nat>, seen: seq<nat>, final: seq<nat>, marks: set<nat>, c: Context, pos: seq<nat>)
  {
    && pairs != [] && open != [] && |st.ancestor| == MAX_DEPTH && tid < |st.tables| <= |seen| == |st1.tables|
    && UnpackOne(g, st) == Done(st1) && st1.stack == st.stack + [Image(final, pairs[0].0)]
    && InPlace(st1.(depth := st1.depth + 1), open, seen, final, marks, c, pos) && OnTop(st, pos) && |open| == |pos|
    && (c.key.Some? ==> c.key.value <= st1.depth)
    && Building(st1.tables[tid], tid, h, final, pairs, open, c) && CleanKey(Image(final, pairs[0].0), open, final, c)
  }

  /** The turn of the loop that reads a value, up to the start of the next. */
  lemma ValueTurn(st: RState, st1: RState, g: Guard, tid: nat, h: LuaHeap, pairs: seq<(Value, Value)>, open: seq<nat>,
                  seen: seq<nat>, seen': seq<nat>, final: seq<nat>, marks: set<nat>, c: Context, pos: seq<nat>,
                  tailB: seq<byte>)
    returns (st2: RState, st3: RState)
    requires KeyDone(st, st1, g, tid, h, pairs, open, seen, final, marks, c, pos) && ValidKey(pairs[0].0)
    requires UnpackHash(g, st, tid).Done? && |st1.ancestor| == MAX_DEPTH
    ensures |st2.ancestor| == |st3.ancestor| == MAX_DEPTH && UnpackOne(g, st1.(depth := st1.depth + 1)) == Done(st2)
    ensures KeptTables(st2, UnpackHash(g, st, tid).st, tid) && |st2.stack| == |st.stack| + 2 && |st3.rest| < |st1.rest|
    ensures tid < |st1.tables| <= |st3.tables|
            && st3.tables[tid] == RawSet(st1.tables[tid], Image(final, pairs[0].0), st2.stack[|st.stack| + 1])
    ensures UnpackHash(g, st, tid) == UnpackHash(g, st3, tid)
    ensures InStep(st2, seen', marks, tailB) && seen <= seen' <= final ==>
              InStep(st3, seen', marks, tailB) && BetweenPairs(st3, open, seen', final, marks, c, pos)
  {
    hide UnpackOne, InPlace, Building, CleanKey, BetweenPairs;
    var k := Image(final, pairs[0].0);
    assert st1.stack[|st.stack|] == k && !k.Nil?;
    AfterFirstValue(g, st, tid);
    var st1' := st1.(depth := st1.depth + 1);
    KeptOne(g, st1');
    st2 := UnpackOne(g, st1').st;
    var x := st2.stack[|st.stack| + 1];
    st3 := Store(st2.(depth := st2.depth - 1), tid, k, x, |st.stack|);
    if InStep(st2, seen', marks, tailB) && seen <= seen' <= final {
      NextBetween(st, st1, st2, tid, k, x, open, seen, seen', final, marks, c, pos);
    }
  }

  /** The first disagreement is in the first value. */
  lemma BreakValue(h: LuaHeap, pairs: seq<(Value, Value)>, open: seq<nat>, seen: seq<nat>, c: Context, pos: seq<nat>,
                   final: seq<nat>, marks: set<nat>, g: Guard, st: RState, st1: RState, tail: seq<byte>,
                   tailB: seq<byte>, tid: nat)
    requires Complete(h, final) && ValidPairs(h, pairs)
    requires KeyDone(st, st1, g, tid, h, pairs, open, seen, final, marks, c, pos)
    requires !Agrees(h, pairs[0].1, open, seen, c)
    requires var b := Visit(h, pairs[0].1, open, seen);
             Walked(b, final, marks) && Walked(VisitPairs(h, pairs[1..], open, b.seen), final, marks)
             && st1.rest == Bytes(b.items, marks) + tailB && |st1.rest| < TWO_31
             && tailB == Bytes(VisitPairs(h, pairs[1..], open, b.seen).items, marks) + (AtomBytes(Nil) + tail)
    requires |st.ancestor| == MAX_DEPTH && tid < |st.tables|
    ensures var r := UnpackHash(g, st, tid); r.Done? ==> Wrong(r.st, tid, h, final)
    decreases |st1.rest|, 2, 0
  {
    hide Visit, VisitPairs, UnpackOne, UnpackHash, Bytes, AtomBytes, Wrong, RefsKnown, InPlace, BetweenPairs, Building,
         KeyedStores, Complete, ValidPairs, Misread, Agrees, Walked, CleanKey, KeptTables;
    var r := UnpackHash(g, st, tid);
    if r.Failed? {
      return;
    }
    var v := pairs[0].1;
    var b := Visit(h, v, open, seen);
    FirstPairValid(h, pairs);
    SeenUpTo(b, final, marks);
    var st2, st3 := ValueTurn(st, st1, g, tid, h, pairs, open, seen, b.seen, final, marks, c, pos, tailB);
    BreakVisit(h, v, open, seen, c, pos, final, marks, g, st1.(depth := st1.depth + 1), tailB);
    if Wrong(st2, |seen|, h, final) {
      WrongStays(st2, r.st, tid, |seen|, tid, h, final);
      return;
    }
    var x := st2.stack[|st.stack| + 1];
    MisreadDiffers(x, v, open, final, c);
    var ks, xs := DriftPairs(h, pairs[1..], open, b.seen, final, marks, g, st3, tail, tid);
    if Wrong(r.st, |b.seen|, h, final) {
      WrongFrom(r.st, |b.seen|, tid, h, final);
    } else {
      assert [pairs[0]] + pairs[1..] == pairs;
      ValueDooms(st3, r.st, tid, h, st1.tables[tid], pairs[0], x, pairs[1..], ks, xs, open, b.seen, final, marks, c,
                 pos);
    }
  }

  lemma SeenUpTo(w: Walk, final: seq<nat>, marks: set<nat>)
    requires Walked(w, final, marks)
    ensures w.seen <= final
  {
  }

  lemma ReadsInStep(st: RState, st': RState, h: LuaHeap, seen: seq<nat>, seen': seq<nat>, final: seq<nat>,
                    marks: set<nat>, tail: seq<byte>)
    requires Reads(st, st', -1, h, seen, seen', final, marks, tail)
    ensures InStep(st', seen', marks, tail)
  {
    hide Built, RefsKnown;
  }

  /** Both sides agree on the first pair: it is stored, and the rest follows. */
  lemma ValueAgrees(h: LuaHeap, pairs: seq<(Value, Value)>, open: seq<nat>, seen: seq<nat>, c: Context, pos: seq<nat>,
                    final: seq<nat>, marks: set<nat>, g: Guard, st: RState, st1: RState, tailB: seq<byte>, tid: nat)
    returns (st3: RState)
    requires Complete(h, final) && ValidPairs(h, pairs)
    requires KeyDone(st, st1, g, tid, h, pairs, open, seen, final, marks, c, pos)
             && Agrees(h, pairs[0].1, open, seen, c)
    requires Walked(Visit(h, pairs[0].1, open, seen), final, marks)
    requires st1.rest == Bytes(Visit(h, pairs[0].1, open, seen).items, marks) + tailB && |st1.rest| < TWO_31
    requires |st.ancestor| == MAX_DEPTH && tid < |st.tables| && UnpackHash(g, st, tid).Done?
    ensures |st3.ancestor| == MAX_DEPTH && tid < |st3.tables| && st3.rest == tailB && |st3.rest| < |st1.rest|
    ensures UnpackHash(g, st, tid) == UnpackHash(g, st3, tid)
    ensures BetweenPairs(st3, open, Visit(h, pairs[0].1, open, seen).seen, final, marks, c, pos)
    ensures Building(st3.tables[tid], tid, h, final, pairs[1..], open, c)
  {
    hide Visit, UnpackOne, UnpackHash, Bytes, RefsKnown, Positions, Related, BetweenPairs, Building, Reads, Passes,
         ValidPairs, Agrees, Walked, CleanKey, KeptTables, ValidHeap;
    var v := pairs[0].1;
    var b := Visit(h, v, open, seen);
    FirstPairValid(h, pairs);
    SeenUpTo(b, final, marks);
    var st2;
    st2, st3 := ValueTurn(st, st1, g, tid, h, pairs, open, seen, b.seen, final, marks, c, pos, tailB);
    var st1' := st1.(depth := st1.depth + 1);
    ReplayVisit(h, v, open, seen, c, final, marks, g, st1', tailB);
    ReadsInStep(st1', st2, h, seen, b.seen, final, marks, tailB);
    assert st2.stack[|st.stack| + 1] == Image(final, v);
    BuildingNext(st1.tables[tid], tid, h, final, pairs, open, c, false);
  }

  /** The first disagreement is somewhere in the pairs. */
  lemma BreakPairs(h: LuaHeap, pairs: seq<(Value, Value)>, open: seq<nat>, seen: seq<nat>, c: Context, pos: seq<nat>,
                   final: seq<nat>, marks: set<nat>, g: Guard, st: RState, tail: seq<byte>, tid: nat)
    requires Complete(h, final) && !AgreesPairs(h, pairs, open, seen, c)
    requires Walked(VisitPairs(h, pairs, open, seen), final, marks)
    requires BetweenPairs(st, open, seen, final, marks, c, pos)
    requires |st.ancestor| == MAX_DEPTH && tid < |st.tables|
    requires Building(st.tables[tid], tid, h, final, pairs, open, c)
    requires st.rest == Bytes(VisitPairs(h, pairs, open, seen).items, marks) + (AtomBytes(Nil) + tail)
    requires |st.rest| < TWO_31
    ensures var r := UnpackHash(g, st, tid); r.Done? ==> Wrong(r.st, tid, h, final)
    decreases |st.rest|, 2, 1
  {
    hide Visit, UnpackOne, UnpackHash, Bytes, AtomBytes, Wrong, InStep, InPlace, BetweenPairs, Building,
         Complete, ValidPairs, Agrees, Walked, KeyDone;
    assert pairs != [] && open != [];
    var k, v := pairs[0].0, pairs[0].1;
    var a := Visit(h, k, open, seen);
    var b := Visit(h, v, open, a.seen);
    var w := VisitPairs(h, pairs[1..], open, b.seen);
    var tailC := AtomBytes(Nil) + tail;
    var tailB := Bytes(w.items, marks) + tailC;
    var tailA := Bytes(b.items, marks) + tailB;
    TwoParts(a.items + b.items, w.items, g, marks, tailC);
    TwoParts(a.items, b.items, g, marks, tailB);
    PairWalked(h, pairs, open, seen, final, marks);
    BetweenInStep(st, open, seen, final, marks, c, pos);
    BuildingValid(st.tables[tid], tid, h, final, pairs, open, c);
    if !Agrees(h, k, open, seen, InKey(c, |open| - 1)) {
      BreakKey(h, pairs, open, seen, c, pos, final, marks, g, st, tail, tailA, tid);
    } else if UnpackHash(g, st, tid).Done? {
      var c' := AfterKey(c, |open| - 1, a.seen != seen);
      var st1 := KeyFinished(h, pairs, open, seen, c, pos, final, marks, g, st, tailA, tid);
      if Agrees(h, v, open, a.seen, c') {
        var st3 := ValueAgrees(h, pairs, open, a.seen, c', pos, final, marks, g, st, st1, tailB, tid);
        BreakPairs(h, pairs[1..], open, b.seen, c', pos, final, marks, g, st3, tail, tid);
      } else {
        BreakValue(h, pairs, open, a.seen, c', pos, final, marks, g, st, st1, tail, tailB, tid);
      }
    }
  }

  lemma BuildingValid(m: Entries, tid: nat, h: LuaHeap, final: seq<nat>, pairs: seq<(Value, Value)>, open: seq<nat>,
                      c: Context)
    requires Building(m, tid, h, final, pairs, open, c)
    ensures ValidPairs(h, pairs) && (pairs != [] && pairs[0].0.Table? ==> pairs[0].0.id in final)
  {
  }

  /** The first key has been read right. */
  lemma KeyFinished(h: LuaHeap, pairs: seq<(Value, Value)>, open: seq<nat>, seen: seq<nat>, c: Context, pos: seq<nat>,
                    final: seq<nat>, marks: set<nat>, g: Guard, st: RState, tailA: seq<byte>, tid: nat)
    returns (st1: RState)
    requires Complete(h, final) && pairs != [] && open != []
    requires Walked(Visit(h, pairs[0].0, open, seen), final, marks)
             && Agrees(h, pairs[0].0, open, seen, InKey(c, |open| - 1))
    requires BetweenPairs(st, open, seen, final, marks, c, pos)
    requires |st.ancestor| == MAX_DEPTH && tid < |st.tables| && UnpackHash(g, st, tid).Done?
    requires Building(st.tables[tid], tid, h, final, pairs, open, c)
    requires st.rest == Bytes(Visit(h, pairs[0].0, open, seen).items, marks) + tailA && |st.rest| < TWO_31
    ensures var a := Visit(h, pairs[0].0, open, seen);
            KeyDone(st, st1, g, tid, h, pairs, open, a.seen, final, marks, AfterKey(c, |open| - 1, a.seen != seen), pos)
    ensures st1.rest == tailA && |st1.rest| < |st.rest|
  {
    hide Visit, UnpackOne, UnpackHash, Bytes, RefsKnown, Positions, Related, Building, Built, Passes,
         ValidPairs, Agrees, Walked, CleanKey, KeptTables, ValidHeap, Complete;
    BetweenInStep(st, open, seen, final, marks, c, pos);
    BuildingValid(st.tables[tid], tid, h, final, pairs, open, c);
    FirstPairValid(h, pairs);
    AfterFirstKey(g, st, tid);
    KeyAgrees(h, pairs[0].0, open, seen, c, pos, final, marks, g, st, tailA);
    st1 := UnpackOne(g, st).st;
    BuildingNext(st.tables[tid], tid, h, final, pairs, open, c, Visit(h, pairs[0].0, open, seen).seen != seen);
  }

  // ---------- the first visit ----------

  lemma OpenDisagrees(h: LuaHeap, id: nat, open: seq<nat>, seen: seq<nat>, c: Context)
    requires id in h && id !in seen && ShortRef(open, id).None? && !Agrees(h, Table(id), open, seen, c)
    requires AgreesAll(h, ArrayPart(h[id]), open + [id], seen + [id], c)
    ensures var a := VisitAll(h, ArrayPart(h[id]), open + [id], seen + [id]);
            !AgreesPairs(h, HashPart(h[id]), open + [id], a.seen, c)
  {
    hide Visit, VisitPairs, Bytes, ArrayPart, HashPart, ShortRef;
  }

  lemma OpenInPlace(id: nat, st: RState, st0: RState, open: seq<nat>, seen: seq<nat>, final: seq<nat>, marks: set<nat>,
                    c: Context, pos: seq<nat>)
    requires InPlace(st, open, seen, final, marks, c, pos) && st0 == st.(rest := st0.rest)
    requires NoDuplicates(final) && id !in seen && seen + [id] <= final
    ensures InPlace(OpenTable(st0, if |seen| in marks then TYPE_TABLE_MARK else TYPE_TABLE), open + [id], seen + [id],
                    final, marks, c, pos + [|st.stack|])
  {
    hide Positions, SlotsAgree, RefsKnown;
    OpenRelated(id, st, st0, open, seen, final, marks, c);
    OpenPositions(id, st, st0, if |seen| in marks then TYPE_TABLE_MARK else TYPE_TABLE, open, seen, final, c, pos);
  }

  /** After the array part, right or wrong, the pairs come next. */
  lemma PairsNext(st1: RState, st2: RState, tid: nat, open: seq<nat>, seen: seq<nat>, seen': seq<nat>, final: seq<nat>,
                  marks: set<nat>, c: Context, pos: seq<nat>, tail: seq<byte>)
    requires InPlace(st1, open, seen, final, marks, c, pos) && OnTop(st1, pos) && |open| == |pos|
    requires c.key.Some? ==> c.key.value < st1.depth
    requires Kept(st1, st2, tid) && st2.stack == st1.stack && InStep(st2, seen', marks, tail) && seen <= seen' <= final
    requires st2.depth > 0
    ensures BetweenPairs(st2.(depth := st2.depth - 1), open, seen', final, marks, c, pos)
  {
    StillPositions(st1, st2, open, seen, seen', final, c, pos);
  }

  lemma {:induction false} StoreArrayNumbers(m: Entries, vs: seq<Value>, i: nat, final: seq<nat>)
    requires NumberKeys(m) && 0 < i && i + |vs| <= TWO_31
    ensures NumberKeys(StoreArray(m, vs, i, final))
    decreases |vs|
  {
    hide RawSet, IndexKey, NumberKeys;
    if vs != [] {
      NumberStored(m, i, Image(final, vs[0]));
      StoreArrayNumbers(RawSet(m, IndexKey(i), Image(final, vs[0])), vs[1..], i + 1, final);
    }
  }

  lemma NumberStored(m: Entries, i: nat, x: Value)
    requires NumberKeys(m)
    ensures NumberKeys(RawSet(m, IndexKey(i), x))
  {
    hide OfInteger;
  }

  lemma BuildingPairs(m: Entries, h: LuaHeap, id: nat, tid: nat, final: seq<nat>, open: seq<nat>, c: Context)
    requires Complete(h, final) && tid < |final| && final[tid] == id && NumberKeys(m)
    ensures id in h && Building(m, tid, h, final, HashPart(h[id]), open, c)
  {
    assert final[tid] in final;
    HashPairs(h, h[id], final);
    NumbersAreNone(m, open, final, KeyUnusable(c, |open|));
  }

  /** The array part agrees, and the disagreement is in the pairs. */
  lemma BreakInPairs(h: LuaHeap, id: nat, open: seq<nat>, seen: seq<nat>, c: Context, pos: seq<nat>, final: seq<nat>,
                     marks: set<nat>, g: Guard, st1: RState, tail: seq<byte>, tailA: seq<byte>, tid: nat)
    requires Complete(h, final) && id in h && tid < |final| && final[tid] == id && tid < |seen| == |st1.tables|
    requires AgreesAll(h, ArrayPart(h[id]), open, seen, c)
    requires !AgreesPairs(h, HashPart(h[id]), open, VisitAll(h, ArrayPart(h[id]), open, seen).seen, c)
    requires var a := VisitAll(h, ArrayPart(h[id]), open, seen);
             var b := VisitPairs(h, HashPart(h[id]), open, a.seen);
             Walked(a, final, marks) && Walked(b, final, marks)
             && tailA == Bytes(b.items, marks) + (AtomBytes(Nil) + tail)
             && st1.rest == Bytes(a.items, marks) + tailA && |st1.rest| < TWO_31
    requires InPlace(st1, open, seen, final, marks, c, pos) && OnTop(st1, pos) && |open| == |pos|
    requires c.key.Some? ==> c.key.value < st1.depth
    requires |st1.ancestor| == MAX_DEPTH && st1.depth > 0 && st1.tables[tid] == map[]
    ensures var r := UnpackArray(g, st1, tid, 1, h[id].border);
            r.Done? ==> var r' := UnpackHash(g, r.st.(depth := r.st.depth - 1), tid);
            r'.Done? ==> Wrong(r'.st, tid, h, final)
    decreases |st1.rest|, 3
  {
    hide Visit, VisitAll, VisitPairs, UnpackArray, UnpackHash, Bytes, AtomBytes, Wrong, RefsKnown, Positions, Related,
         BetweenPairs, Building, Passes, Agrees, AgreesAll, AgreesPairs, ArrayPart, HashPart, ValidPairs, ValidHeap,
         StoreArray, Built, NumberKeys;
    var a := VisitAll(h, ArrayPart(h[id]), open, seen);
    PartsValid(h, id);
    ArrayReplayed(h, id, open, seen, c, pos, final, marks, g, st1, tailA, tid);
    var r := UnpackArray(g, st1, tid, 1, h[id].border);
    if r.Done? {
      KeptArray(g, st1, tid, 1, h[id].border);
      SeenUpTo(a, final, marks);
      PairsNext(st1, r.st, tid, open, seen, a.seen, final, marks, c, pos, tailA);
      StoreArrayNumbers(map[], ArrayPart(h[id]), 1, final) by { NoNumbers(); }
      BuildingPairs(r.st.tables[tid], h, id, tid, final, open, c);
      BreakPairs(h, HashPart(h[id]), open, a.seen, c, pos, final, marks, g, r.st.(depth := r.st.depth - 1), tail, tid);
    }
  }

  lemma NoNumbers()
    ensures NumberKeys(map[])
  {
  }

  lemma ArrayReplayed(h: LuaHeap, id: nat, open: seq<nat>, seen: seq<nat>, c: Context, pos: seq<nat>, final: seq<nat>,
                      marks: set<nat>, g: Guard, st1: RState, tailA: seq<byte>, tid: nat)
    requires Fixed(h, final) && id in h && tid < |seen| == |st1.tables| && |st1.ancestor| == MAX_DEPTH
    requires AgreesAll(h, ArrayPart(h[id]), open, seen, c)
    requires Walked(VisitAll(h, ArrayPart(h[id]), open, seen), final, marks)
    requires InPlace(st1, open, seen, final, marks, c, pos)
    requires st1.rest == Bytes(VisitAll(h, ArrayPart(h[id]), open, seen).items, marks) + tailA && |st1.rest| < TWO_31
    ensures var r := UnpackArray(g, st1, tid, 1, h[id].border);
            r.Done? ==> InStep(r.st, VisitAll(h, ArrayPart(h[id]), open, seen).seen, marks, tailA)
                        && r.st.tables[tid] == StoreArray(st1.tables[tid], ArrayPart(h[id]), 1, final)
  {
    hide Visit, VisitAll, UnpackArray, Bytes, RefsKnown, Positions, Related, Agrees, AgreesAll, ArrayPart, StoreArray,
         Built, ValidPairs, ValidHeap;
    PartsValid(h, id);
    ReplayArray(h, ArrayPart(h[id]), open, seen, c, final, marks, g, st1, tailA, tid, 1, h[id].border);
  }

  /** The disagreement is in the array part. */
  lemma BreakInArray(h: LuaHeap, id: nat, open: seq<nat>, seen: seq<nat>, c: Context, pos: seq<nat>, final: seq<nat>,
                     marks: set<nat>, g: Guard, st1: RState, tail: seq<byte>, tailA: seq<byte>, tid: nat)
    requires Complete(h, final) && id in h && tid < |final| && final[tid] == id && tid < |seen| == |st1.tables|
    requires !AgreesAll(h, ArrayPart(h[id]), open, seen, c)
    requires var a := VisitAll(h, ArrayPart(h[id]), open, seen);
             var b := VisitPairs(h, HashPart(h[id]), open, a.seen);
             Walked(a, final, marks) && Walked(b, final, marks) && seen <= a.seen
             && tailA == Bytes(b.items, marks) + (AtomBytes(Nil) + tail)
             && st1.rest == Bytes(a.items, marks) + tailA && |st1.rest| < TWO_31
    requires InPlace(st1, open, seen, final, marks, c, pos) && OnTop(st1, pos) && |open| == |pos|
    requires c.key.Some? ==> c.key.value < st1.depth
    requires |st1.ancestor| == MAX_DEPTH && st1.depth > 0 && st1.tables[tid] == map[]
    ensures var r := UnpackArray(g, st1, tid, 1, h[id].border);
            r.Done? ==> var r' := UnpackHash(g, r.st.(depth := r.st.depth - 1), tid);
            r'.Done? ==> Wrong(r'.st, tid, h, final)
    decreases |st1.rest|, 3
  {
    hide Visit, VisitAll, VisitPairs, UnpackArray, UnpackHash, Bytes, AtomBytes, Wrong, InPlace, RefsKnown,
         BetweenPairs, Passes, AgreesAll, ArrayPart, HashPart, ValidPairs, ValidHeap, BadIndex,
         StoreArray, Built, NumberKeys, KeyedStores, Copies, KeptTables;
    var a := VisitAll(h, ArrayPart(h[id]), open, seen);
    PartsValid(h, id);
    NoNumbers();
    WholeArray(h[id]);
    BreakArray(h, ArrayPart(h[id]), open, seen, c, pos, final, marks, g, st1, tailA, tid, 1, h[id]);
    var r := UnpackArray(g, st1, tid, 1, h[id].border);
    if r.Failed? {
      return;
    }
    KeptArray(g, st1, tid, 1, h[id].border);
    var st2 := r.st.(depth := r.st.depth - 1);
    var r' := UnpackHash(g, st2, tid);
    if r'.Failed? {
      return;
    }
    HashKeepsTables(g, st2, tid);
    if Wrong(r.st, |seen|, h, final) {
      WrongSame(r.st, st2, |seen|, h, final);
      WrongStays(st2, r'.st, tid, |seen|, tid, h, final);
      return;
    }
    SeenUpTo(a, final, marks);
    PairsNext(st1, r.st, tid, open, seen, a.seen, final, marks, c, pos, tailA);
    var ks, xs := DriftPairs(h, HashPart(h[id]), open, a.seen, final, marks, g, st2, tail, tid);
    if Wrong(r'.st, |a.seen|, h, final) {
      WrongFrom(r'.st, |a.seen|, tid, h, final);
    } else {
      IndexDooms(h, id, tid, st2, r'.st, ks, xs, open, a.seen, final, marks, c, pos);
    }
  }

  lemma WholeArray(t: TableObj)
    ensures ArrayPart(t)[0..] == ArrayPart(t) && |ArrayPart(t)| == t.border
  {
  }

  lemma IndexDooms(h: LuaHeap, id: nat, tid: nat, st: RState, st': RState, ks: seq<Value>, xs: seq<Value>,
                   open: seq<nat>, seen: seq<nat>, final: seq<nat>, marks: set<nat>, c: Context, pos: seq<nat>)
    requires Complete(h, final) && id in h && tid < |final| && final[tid] == id && |open| < MAX_DEPTH
    requires BetweenPairs(st, open, seen, final, marks, c, pos) && tid < |st.tables|
    requires BadIndex(st.tables[tid], h[id], final)
    requires KeyedStores(st, st', tid, HashPart(h[id]), ks, xs, open, final)
    ensures Wrong(st', tid, h, final)
  {
    hide Copies, StoreKeyed, Positions, SlotsAgree, RefsKnown, SlotsKnown, ValueRead, BadIndex, HashPart;
    assert final[tid] in final;
    KeySlots(st, open, seen, final, marks, c, pos);
    BadIndexSpoils(h, h[id], st.tables[tid], ks, xs, st, open, final, KeyUnusable(c, |open|));
    WrongHere(st', tid, tid, h, final);
  }

  lemma BreakOpen(h: LuaHeap, id: nat, open: seq<nat>, seen: seq<nat>, c: Context, pos: seq<nat>, final: seq<nat>,
                  marks: set<nat>, g: Guard, st: RState, tail: seq<byte>)
    requires Complete(h, final) && id in h && id !in seen && ShortRef(open, id).None?
    requires !Agrees(h, Table(id), open, seen, c)
    requires Walked(Visit(h, Table(id), open, seen), final, marks) && InPlace(st, open, seen, final, marks, c, pos)
    requires st.rest == Bytes(Visit(h, Table(id), open, seen).items, marks) + tail && |st.rest| < TWO_31
    ensures var r := UnpackOne(g, st); r.Done? ==> Wrong(r.st, |seen|, h, final)
    decreases |st.rest|, 0
  {
    hide Visit, VisitAll, VisitPairs, UnpackOne, UnpackArray, UnpackHash, Bytes, OpenBytes, AtomBytes, Wrong,
         ExtTargets, ValidPairs, ValidHeap, ArrayPart, RefsKnown, ShortRef, HashPart, Agrees, AgreesAll, AgreesPairs,
         InPlace, Num, NoDuplicates;
    var t, w, tid := h[id], Visit(h, Table(id), open, seen), |seen|;
    var a := VisitAll(h, ArrayPart(t), open + [id], seen + [id]);
    var b := VisitPairs(h, HashPart(t), open + [id], a.seen);
    InPlaceFacts(st, open, seen, final, marks, c, pos);
    PartsValid(h, id);
    OpenWalked(h, id, open, seen, w, a, b, final, marks, g, tail);
    PrefixTransitive(seen + [id], w.seen, final);
    var tailA := Bytes(b.items, marks) + (AtomBytes(Nil) + tail);
    var st0 := st.(rest := Bytes(a.items, marks) + tailA);
    var kind := if tid in marks then TYPE_TABLE_MARK else TYPE_TABLE;
    var st1 := OpenTable(st0, kind);
    ReadOpenTag(t.border, tid in marks, g, st, st1, tid, st0.rest);
    OpenInPlace(id, st, st0, open, seen, final, marks, c, pos);
    assert final[tid] == (seen + [id])[tid] == id;
    if AgreesAll(h, ArrayPart(t), open + [id], seen + [id], c) {
      OpenDisagrees(h, id, open, seen, c);
      BreakInPairs(h, id, open + [id], seen + [id], c, pos + [|st.stack|], final, marks, g, st1, tail, tailA, tid);
    } else {
      BreakInArray(h, id, open + [id], seen + [id], c, pos + [|st.stack|], final, marks, g, st1, tail, tailA, tid);
    }
  }

  lemma InPlaceFacts(st: RState, open: seq<nat>, seen: seq<nat>, final: seq<nat>, marks: set<nat>, c: Context,
                     pos: seq<nat>)
    requires InPlace(st, open, seen, final, marks, c, pos)
    ensures |st.ancestor| == MAX_DEPTH && |st.tables| == |seen| && |pos| == |open|
    ensures c.key.Some? ==> c.key.value <= st.depth
  {
  }
}
