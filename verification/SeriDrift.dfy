/** Reading on when the ancestor stacks no longer agree: either some finished table is wrong for good, or the reader
    is still in step with the bytes. */
module SeriDrift {
  import opened Bits
  import opened LuaValues
  import opened SeriFormat
  import opened SeriWalk
  import opened SeriRead
  import opened SeriFrame
  import opened SeriSimulation
  import opened SeriReplay
  import opened SeriCopy
  import opened SeriSpoil

  /** Some table created since there were `from` of them is no copy of its original. */
  ghost predicate Wrong(st: RState, from: nat, h: LuaHeap, final: seq<nat>)
  {
    exists j :: from <= j < |st.tables| && j < |final| && final[j] in h && !Copies(st.tables[j], h[final[j]], final)
  }

  lemma WrongHere(st: RState, j: nat, from: nat, h: LuaHeap, final: seq<nat>)
    requires from <= j < |st.tables| && j < |final| && final[j] in h && !Copies(st.tables[j], h[final[j]], final)
    ensures Wrong(st, from, h, final)
  {
  }

  /** Nothing read later repairs it. */
  lemma WrongStays(st: RState, st': RState, current: int, from: nat, from': nat, h: LuaHeap, final: seq<nat>)
    requires Wrong(st, from, h, final) && KeptTables(st, st', current) && current < from && from' <= from
    ensures Wrong(st', from', h, final)
  {
    hide Copies;
    var j :| from <= j < |st.tables| && j < |final| && final[j] in h && !Copies(st.tables[j], h[final[j]], final);
    assert st'.tables[j] == st.tables[j];
  }

  /** In step with the bytes: the tables counted right, the marked ones registered, and `tail` left to read. */
  ghost predicate InStep(st: RState, seen: seq<nat>, marks: set<nat>, tail: seq<byte>)
  {
    |st.ancestor| == MAX_DEPTH && |st.tables| == |seen| && RefsKnown(st.refs, |seen|, marks) && st.rest == tail
  }

  ghost predicate Drifted(r: Outcome, st: RState, v: Value, open: seq<nat>, w: Walk, from: nat, h: LuaHeap,
                          final: seq<nat>, marks: set<nat>, tail: seq<byte>)
    requires |st.ancestor| == MAX_DEPTH && (r.Done? ==> |r.st.stack| == |st.stack| + 1)
  {
    r.Done? ==>
      || Wrong(r.st, from, h, final)
      || (InStep(r.st, w.seen, marks, tail) && ValueRead(r.st.stack[|st.stack|], v, st, open, final))
  }

  // ---------- references ----------

  lemma DriftShort(index: nat, marks: set<nat>, g: Guard, st: RState, tail: seq<byte>)
    requires |st.ancestor| == MAX_DEPTH && index < EXTEND_NUMBER
    requires st.rest == ItemBytes(Short(index), marks) + tail
    ensures UnpackOne(g, st) == if index >= st.depth then Failed
                                else Done(Push(st.(rest := tail), StackAt(st.stack, st.ancestor[index])))
  {
    hide UnpackOne, UnpackTable, GetAtom, GetExtendInteger;
    FirstByte(Tag(TYPE_REF, index), tail, g, st);
  }

  lemma DriftReference(h: LuaHeap, id: nat, open: seq<nat>, seen: seq<nat>, final: seq<nat>, marks: set<nat>,
                       g: Guard, st: RState, tail: seq<byte>)
    requires Fixed(h, final) && (ShortRef(open, id).Some? || id in seen)
    requires Walked(Visit(h, Table(id), open, seen), final, marks) && InStep(st, seen, marks, st.rest)
    requires st.rest == Bytes(Visit(h, Table(id), open, seen).items, marks) + tail && |st.rest| < TWO_31
    ensures Drifted(UnpackOne(g, st), st, Table(id), open, Visit(h, Table(id), open, seen), |seen|, h, final, marks,
                    tail)
  {
    if ShortRef(open, id).Some? {
      var index := ShortRef(open, id).value;
      BytesOne(Short(index), g, marks);
      DriftShort(index, marks, g, st, tail);
    } else {
      var target := IndexOf(seen, id);
      BytesOne(Ext(target), g, marks);
      IndexOfPrefix(seen, final, id);
      ReadExt(target, g, st, marks, tail);
    }
  }

  // ---------- tables ----------

  /** What is fixed: the heap and a final numbering that covers every table key. */
  ghost predicate Complete(h: LuaHeap, final: seq<nat>)
  {
    Fixed(h, final) && forall id :: id in final ==> id in h && KeysNumbered(h[id].pairs, final)
  }

  /** The pass over the pairs ended early: the table is wrong. */
  lemma EndedEarly(st3: RState, h: LuaHeap, id: nat, seen: seq<nat>, final: seq<nat>,
                   vs: seq<Value>, ks: seq<Value>, xs: seq<Value>)
    requires Complete(h, final) && seen + [id] <= final
    requires id in h && |vs| == h[id].border && forall q :: 0 <= q < |vs| && ArrayPart(h[id])[q].Nil? ==> vs[q].Nil?
    requires |ks| == |xs| < |HashPart(h[id])|
    requires |seen| < |st3.tables| && st3.tables[|seen|] == StoreKeyed(StoreValues(map[], vs, 1), ks, xs)
    ensures Wrong(st3, |seen|, h, final)
  {
    hide StoreKeyed, StoreValues, HashPart, ArrayPart, Copies;
    assert final[|seen|] == (seen + [id])[|seen|] == id;
    TooFewStores(h, h[id], final, vs, ks, xs);
    WrongHere(st3, |seen|, |seen|, h, final);
  }

  lemma SameSlots(x: Value, v: Value, st: RState, st': RState, open: seq<nat>, final: seq<nat>)
    requires |st.ancestor| == |st'.ancestor| == MAX_DEPTH && st'.stack == st.stack && st'.depth == st.depth
    requires forall i :: 0 <= i < MAX_DEPTH && i < st.depth ==> st'.ancestor[i] == st.ancestor[i]
    requires ValueRead(x, v, st', open, final)
    ensures ValueRead(x, v, st, open, final)
  {
  }

  lemma DriftVisit(h: LuaHeap, v: Value, open: seq<nat>, seen: seq<nat>, final: seq<nat>, marks: set<nat>,
                   g: Guard, st: RState, tail: seq<byte>)
    requires Complete(h, final) && ValidValue(h, v)
    requires Walked(Visit(h, v, open, seen), final, marks) && InStep(st, seen, marks, st.rest)
    requires st.rest == Bytes(Visit(h, v, open, seen).items, marks) + tail && |st.rest| < TWO_31
    ensures Drifted(UnpackOne(g, st), st, v, open, Visit(h, v, open, seen), |seen|, h, final, marks, tail)
    decreases |st.rest|, 1
  {
    var w := Visit(h, v, open, seen);
    match v
    case Unsupported(_) => assert false by { SingleFail(w.items); }
    case Table(id) =>
      if ShortRef(open, id).Some? || id in seen {
        DriftReference(h, id, open, seen, final, marks, g, st, tail);
      } else {
        DriftOpen(h, id, open, seen, final, marks, g, st, tail);
      }
    case _ =>
      BytesOne(Plain(v), g, marks);
      ReadAtom(v, g, st, tail);
  }

  lemma DriftOpen(h: LuaHeap, id: nat, open: seq<nat>, seen: seq<nat>, final: seq<nat>, marks: set<nat>,
                  g: Guard, st: RState, tail: seq<byte>)
    requires Complete(h, final) && id in h && id !in seen && ShortRef(open, id).None?
    requires Walked(Visit(h, Table(id), open, seen), final, marks) && InStep(st, seen, marks, st.rest)
    requires st.rest == Bytes(Visit(h, Table(id), open, seen).items, marks) + tail && |st.rest| < TWO_31
    ensures Drifted(UnpackOne(g, st), st, Table(id), open, Visit(h, Table(id), open, seen), |seen|, h, final, marks,
                    tail)
    decreases |st.rest|, 0
  {
    hide Visit, VisitAll, VisitPairs, UnpackOne, PushValue, UnpackArray, UnpackHash, Bytes, OpenBytes, AtomBytes, Wrong,
         ExtTargets, ValidPairs, ValidHeap, ValidValues, ArrayPart, RefsKnown, ShortRef, HashPart, StoreValues,
         StoreKeyed, Kept, KeptTables, Fixed, Num;
    var t, w, tid := h[id], Visit(h, Table(id), open, seen), |seen|;
    var a := VisitAll(h, ArrayPart(t), open + [id], seen + [id]);
    var b := VisitPairs(h, HashPart(t), open + [id], a.seen);
    CompletePart(h, id, final);
    OpenWalked(h, id, open, seen, w, a, b, final, marks, g, tail);
    PrefixTransitive(seen + [id], w.seen, final);
    var tailA := Bytes(b.items, marks) + (AtomBytes(Nil) + tail);
    var st0 := st.(rest := Bytes(a.items, marks) + tailA);
    var kind := if tid in marks then TYPE_TABLE_MARK else TYPE_TABLE;
    var st1 := OpenTable(st0, kind);
    ReadOpenTag(t.border, tid in marks, g, st, st1, tid, st0.rest);
    OpenInStep(st, st0, seen, id, marks);
    var vs := DriftArray(h, ArrayPart(t), open + [id], seen + [id], final, marks, g, st1, tailA, tid, 1, t.border);
    var r := UnpackArray(g, st1, tid, 1, t.border);
    if r.Done? {
      var st2 := r.st.(depth := r.st.depth - 1);
      var r' := UnpackHash(g, st2, tid);
      assert UnpackOne(g, st) == r';
      if r'.Done? {
        HashKeepsTables(g, st2, tid);
        if Wrong(r.st, |seen| + 1, h, final) {
          WrongSame(r.st, st2, |seen| + 1, h, final);
          WrongStays(st2, r'.st, tid, |seen| + 1, |seen|, h, final);
        } else {
          var ks, xs := DriftPairs(h, HashPart(t), open + [id], a.seen, final, marks, g, st2, tail, tid);
          SeenGrows(seen, id, a.seen);
          if Wrong(r'.st, |a.seen|, h, final) {
            WrongStays(r'.st, r'.st, -1, |a.seen|, |seen|, h, final) by { SameTables(r'.st); }
          } else if |ks| < |HashPart(t)| {
            EndedEarly(r'.st, h, id, seen, final, vs, ks, xs);
          } else {
            NumOfNext(h, seen, id, final);
          }
        }
      }
    }
  }

  lemma CompletePart(h: LuaHeap, id: nat, final: seq<nat>)
    requires Complete(h, final) && id in h
    ensures ValidValues(h, ArrayPart(h[id])) && ValidPairs(h, HashPart(h[id])) && h[id].border < TWO_31
  {
    PartsValid(h, id);
  }

  lemma SeenGrows(seen: seq<nat>, id: nat, seen': seq<nat>)
    requires seen + [id] <= seen'
    ensures |seen| < |seen'|
  {
  }

  lemma WrongSame(st: RState, st': RState, from: nat, h: LuaHeap, final: seq<nat>)
    requires Wrong(st, from, h, final) && st'.tables == st.tables
    ensures Wrong(st', from, h, final)
  {
    hide Copies;
  }

  lemma SameTables(st: RState)
    ensures KeptTables(st, st, -1)
  {
  }

  lemma HashKeepsTables(g: Guard, st: RState, tid: nat)
    requires |st.ancestor| == MAX_DEPTH && tid < |st.tables| && UnpackHash(g, st, tid).Done?
    ensures KeptTables(st, UnpackHash(g, st, tid).st, tid)
  {
    hide UnpackHash;
    KeptHash(g, st, tid);
  }

  lemma OpenInStep(st: RState, st0: RState, seen: seq<nat>, id: nat, marks: set<nat>)
    requires InStep(st, seen, marks, st.rest) && st0 == st.(rest := st0.rest)
    ensures var st1 := OpenTable(st0, if |seen| in marks then TYPE_TABLE_MARK else TYPE_TABLE);
            InStep(st1, seen + [id], marks, st1.rest)
  {
  }

  lemma NumOfNext(h: LuaHeap, seen: seq<nat>, id: nat, final: seq<nat>)
    requires Fixed(h, final) && seen + [id] <= final
    ensures Image(final, Table(id)) == Table(|seen|)
  {
    assert final[|seen|] == (seen + [id])[|seen|] == id;
    IndexOfPosition(final, |seen|);
  }

  lemma DriftArray(h: LuaHeap, vs: seq<Value>, open: seq<nat>, seen: seq<nat>, final: seq<nat>, marks: set<nat>,
                   g: Guard, st: RState, tail: seq<byte>, tid: nat, i: int, size: int)
    returns (xs: seq<Value>)
    requires Complete(h, final) && ValidValues(h, vs) && tid < |seen| && size == i + |vs| - 1
    requires Walked(VisitAll(h, vs, open, seen), final, marks) && InStep(st, seen, marks, st.rest)
    requires st.rest == Bytes(VisitAll(h, vs, open, seen).items, marks) + tail && |st.rest| < TWO_31
    ensures var r := UnpackArray(g, st, tid, i, size);
            r.Done? ==>
              || Wrong(r.st, |seen|, h, final)
              || (InStep(r.st, VisitAll(h, vs, open, seen).seen, marks, tail)
                  && |xs| == |vs| && (forall q :: 0 <= q < |vs| && vs[q].Nil? ==> xs[q].Nil?)
                  && r.st.tables[tid] == StoreValues(st.tables[tid], xs, i))
    decreases |st.rest|, 2, |vs|
  {
    hide Visit, UnpackOne, PushValue, UnpackHash, Bytes, Complete, Wrong, RefsKnown;
    xs := [];
    if vs == [] {
      NoParts(g, marks, tail);
    } else {
      var a := Visit(h, vs[0], open, seen);
      var b := VisitAll(h, vs[1..], open, a.seen);
      TwoParts(a.items, b.items, g, marks, tail);
      var tailA := Bytes(b.items, marks) + tail;
      DriftVisit(h, vs[0], open, seen, final, marks, g, st, tailA);
      KeptOne(g, st);
      var r := UnpackOne(g, st);
      var r' := UnpackArray(g, st, tid, i, size);
      if r.Done? && r'.Done? {
        if Wrong(r.st, |seen|, h, final) {
          AfterElement(g, st, tid, i, size);
          WrongStays(r.st, r'.st, tid, |seen|, |seen|, h, final);
        } else {
          var x := r.st.stack[|st.stack|];
          var st2 := Store(r.st, tid, IndexKey(i), x, |st.stack|);
          xs := DriftArray(h, vs[1..], open, a.seen, final, marks, g, st2, tail, tid, i + 1, size);
          if Wrong(r'.st, |a.seen|, h, final) {
            SameTables(r'.st);
            WrongStays(r'.st, r'.st, -1, |a.seen|, |seen|, h, final);
          }
          xs := [x] + xs;
        }
      }
    }
  }

  lemma DriftPairs(h: LuaHeap, pairs: seq<(Value, Value)>, open: seq<nat>, seen: seq<nat>, final: seq<nat>,
                   marks: set<nat>, g: Guard, st: RState, tail: seq<byte>, tid: nat)
    returns (ks: seq<Value>, xs: seq<Value>)
    requires Complete(h, final) && ValidPairs(h, pairs) && tid < |seen|
    requires Walked(VisitPairs(h, pairs, open, seen), final, marks) && InStep(st, seen, marks, st.rest)
    requires st.rest == Bytes(VisitPairs(h, pairs, open, seen).items, marks) + (AtomBytes(Nil) + tail)
    requires |st.rest| < TWO_31
    ensures var r := UnpackHash(g, st, tid);
            r.Done? ==>
              || Wrong(r.st, |seen|, h, final)
              || (KeyedStores(st, r.st, tid, pairs, ks, xs, open, final)
                  && if |ks| == |pairs| then InStep(r.st, VisitPairs(h, pairs, open, seen).seen, marks, tail)
                     else ValueRead(Nil, pairs[|ks|].0, st, open, final))
    decreases |st.rest|, 2, 1 + |pairs|
  {
    hide Visit, UnpackOne, PushValue, Bytes, AtomBytes, Complete, Wrong, RefsKnown, ValueRead, KeyedStores, UnpackHash,
         NextTurn;
    ks, xs := [], [];
    if pairs == [] {
      NoParts(g, marks, tail);
      ReplayNoPairs(g, st, tid, marks, tail);
      NoKeyedStores(st, UnpackHash(g, st, tid).st, tid, pairs, open, final);
      return;
    }
    var k, v := pairs[0].0, pairs[0].1;
    var a := Visit(h, k, open, seen);
    var b := Visit(h, v, open, a.seen);
    var w := VisitPairs(h, pairs[1..], open, b.seen);
    var tailC := AtomBytes(Nil) + tail;
    var tailB := Bytes(w.items, marks) + tailC;
    var tailA := Bytes(b.items, marks) + tailB;
    TwoParts(a.items + b.items, w.items, g, marks, tailC);
    TwoParts(a.items, b.items, g, marks, tailB);
    PairWalked(h, pairs, open, seen, final, marks);
    var r := UnpackHash(g, st, tid);
    var k', x, st3 := DriftPair(h, k, v, open, seen, a, b, final, marks, g, st, tid, tailA, tailB);
    if r.Failed? || Wrong(r.st, |seen|, h, final) {
      return;
    }
    if k'.Nil? {
      NoKeyedStores(st, r.st, tid, pairs, open, final);
      return;
    }
    ks, xs := DriftPairs(h, pairs[1..], open, b.seen, final, marks, g, st3, tail, tid);
    if Wrong(r.st, |b.seen|, h, final) {
      SameTables(r.st);
      WrongStays(r.st, r.st, -1, |b.seen|, |seen|, h, final);
      return;
    }
    NextKeyedStore(st, st3, r.st, tid, pairs, k', x, ks, xs, open, final);
    ks, xs := [k'] + ks, [x] + xs;
  }

  /** The first key and value: a nil key ends the pass, any other is stored. */
  lemma DriftPair(h: LuaHeap, k: Value, v: Value, open: seq<nat>, seen: seq<nat>, a: Walk, b: Walk, final: seq<nat>,
                  marks: set<nat>, g: Guard, st: RState, tid: nat, tailA: seq<byte>, tailB: seq<byte>)
    returns (k': Value, x: Value, st3: RState)
    requires Complete(h, final) && ValidValue(h, k) && ValidValue(h, v) && tid < |seen|
    requires a == Visit(h, k, open, seen) && b == Visit(h, v, open, a.seen) && seen <= a.seen <= b.seen
    requires Walked(a, final, marks) && Walked(b, final, marks) && InStep(st, seen, marks, st.rest)
    requires st.rest == Bytes(a.items, marks) + tailA && tailA == Bytes(b.items, marks) + tailB && |st.rest| < TWO_31
    ensures |st3.ancestor| == MAX_DEPTH
    ensures var r := UnpackHash(g, st, tid);
            r.Done? ==>
              || Wrong(r.st, |seen|, h, final)
              || (ValueRead(k', k, st, open, final)
                  && if k'.Nil? then tid < |st.tables| <= |r.st.tables| && r.st.tables[tid] == st.tables[tid]
                     else InStep(st3, b.seen, marks, tailB) && |st3.rest| < |st.rest|
                          && NextTurn(st, st3, tid, k', x) && r == UnpackHash(g, st3, tid))
    decreases |st.rest|, 2, 0
  {
    hide Visit, UnpackOne, PushValue, Bytes, AtomBytes, Complete, Wrong, RefsKnown, ValueRead;
    k', x, st3 := Nil, Nil, st;
    var r := UnpackHash(g, st, tid);
    if r.Failed? {
      return;
    }
    DriftVisit(h, k, open, seen, final, marks, g, st, tailA);
    AfterFirstKey(g, st, tid);
    KeptOne(g, st);
    var st1 := UnpackOne(g, st).st;
    if Wrong(st1, |seen|, h, final) {
      WrongStays(st1, r.st, tid, |seen|, |seen|, h, final);
      return;
    }
    k' := st1.stack[|st.stack|];
    if k'.Nil? {
      return;
    }
    var st1' := st1.(depth := st1.depth + 1);
    DriftVisit(h, v, open, a.seen, final, marks, g, st1', tailB);
    AfterFirstValue(g, st, tid);
    KeptOne(g, st1');
    var st2 := UnpackOne(g, st1').st;
    if Wrong(st2, |a.seen|, h, final) {
      WrongStays(st2, r.st, tid, |a.seen|, |seen|, h, final);
      return;
    }
    x := st2.stack[|st.stack| + 1];
    st3 := Store(st2.(depth := st2.depth - 1), tid, k', x, |st.stack|);
    TurnMade(st, st1, st2, tid, k', x);
  }

  /** From the start of one turn of the pairs loop to the start of the next. */
  ghost predicate NextTurn(st: RState, st3: RState, tid: nat, k: Value, x: Value)
  {
    && tid < |st.tables| <= |st3.tables| && |st.ancestor| == |st3.ancestor| == MAX_DEPTH
    && st3.tables[tid] == RawSet(st.tables[tid], k, x) && st3.stack == st.stack && st3.depth == st.depth
    && forall i :: 0 <= i < MAX_DEPTH && i < st.depth ==> st3.ancestor[i] == st.ancestor[i]
  }

  lemma TurnMade(st: RState, st1: RState, st2: RState, tid: nat, k: Value, x: Value)
    requires Kept(st, st1, -1) && Kept(st1.(depth := st1.depth + 1), st2, -1) && tid < |st.tables|
    requires st.stack <= st1.stack <= st2.stack
    ensures NextTurn(st, Store(st2.(depth := st2.depth - 1), tid, k, x, |st.stack|), tid, k, x)
  {
    hide RawSet;
  }

  lemma PairWalked(h: LuaHeap, pairs: seq<(Value, Value)>, open: seq<nat>, seen: seq<nat>, final: seq<nat>,
                   marks: set<nat>)
    requires pairs != [] && Walked(VisitPairs(h, pairs, open, seen), final, marks)
    ensures var a := Visit(h, pairs[0].0, open, seen);
            var b := Visit(h, pairs[0].1, open, a.seen);
            var w := VisitPairs(h, pairs[1..], open, b.seen);
            && Walked(a, final, marks) && Walked(b, final, marks) && Walked(w, final, marks)
            && seen <= a.seen <= b.seen <= w.seen
            && VisitPairs(h, pairs, open, seen) == Walk(a.items + b.items + w.items, w.seen)
  {
    hide Visit;
    var a := Visit(h, pairs[0].0, open, seen);
    var b := Visit(h, pairs[0].1, open, a.seen);
    var w := VisitPairs(h, pairs[1..], open, b.seen);
    ExtTargetsConcat(a.items + b.items, w.items);
    ExtTargetsConcat(a.items, b.items);
    PrefixTransitive(b.seen, w.seen, final);
    PrefixTransitive(a.seen, b.seen, final);
  }

  lemma NextKeyedStore(st: RState, st3: RState, st': RState, tid: nat, pairs: seq<(Value, Value)>, k: Value, x: Value,
                       ks: seq<Value>, xs: seq<Value>, open: seq<nat>, final: seq<nat>)
    requires pairs != [] && |st.ancestor| == MAX_DEPTH
    requires ValueRead(k, pairs[0].0, st, open, final) && NextTurn(st, st3, tid, k, x)
    requires KeyedStores(st3, st', tid, pairs[1..], ks, xs, open, final)
    ensures KeyedStores(st, st', tid, pairs, [k] + ks, [x] + xs, open, final) && |ks| < |pairs|
    ensures |ks| < |pairs| - 1 && ValueRead(Nil, pairs[1..][|ks|].0, st3, open, final) ==>
              ValueRead(Nil, pairs[|ks| + 1].0, st, open, final)
  {
    hide ValueRead, RawSet;
    var ks', xs' := [k] + ks, [x] + xs;
    assert ks'[1..] == ks && xs'[1..] == xs;
    forall q | 0 <= q < |ks'| ensures ValueRead(ks'[q], pairs[q].0, st, open, final) {
      if q > 0 {
        assert ks'[q] == ks[q - 1] && pairs[q] == pairs[1..][q - 1];
        SameSlots(ks[q - 1], pairs[1..][q - 1].0, st, st3, open, final);
      }
    }
    if |ks| < |pairs| - 1 && ValueRead(Nil, pairs[1..][|ks|].0, st3, open, final) {
      SameSlots(Nil, pairs[1..][|ks|].0, st, st3, open, final);
    }
  }

  /** The pairs read from st on were stored in order, each key as its slot gave it. */
  ghost predicate KeyedStores(st: RState, st': RState, tid: nat, pairs: seq<(Value, Value)>, ks: seq<Value>,
                              xs: seq<Value>, open: seq<nat>, final: seq<nat>)
  {
    && |st.ancestor| == MAX_DEPTH && |ks| == |xs| <= |pairs| && tid < |st.tables| <= |st'.tables|
    && st'.tables[tid] == StoreKeyed(st.tables[tid], ks, xs)
    && forall q :: 0 <= q < |ks| ==> ValueRead(ks[q], pairs[q].0, st, open, final)
  }

  lemma NoKeyedStores(st: RState, st': RState, tid: nat, pairs: seq<(Value, Value)>, open: seq<nat>, final: seq<nat>)
    requires |st.ancestor| == MAX_DEPTH && tid < |st.tables| <= |st'.tables| && st'.tables[tid] == st.tables[tid]
    ensures KeyedStores(st, st', tid, pairs, [], [], open, final)
  {
  }
}
