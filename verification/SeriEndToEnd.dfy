/** seri_pack followed by seri_unpack, and inputs on which the pair does not give the graph back. */
module SeriEndToEnd {
  import opened Bits
  import opened LuaValues
  import opened SeriFormat
  import opened SeriWalk
  import opened SeriRead
  import opened SeriSimulation
  import opened SeriFacts
  import opened SeriCopy
  import opened SeriRoundTrip
  import opened SeriExactly
  import opened SeriPaths
  import opened SeriReplay
  import W = SeriWriter
  import B = SeriReader

  /** seri_unpack: the length in front tells how much to read. */
  method SeriUnpack(g: Guard, bytes: seq<byte>, garbage: seq<nat>) returns (r: Outcome)
    requires |garbage| == MAX_DEPTH
    requires |bytes| >= 4 && 0 <= Signed(UnLE(bytes[..4]), 4) <= |bytes| - 4
    ensures r == UnpackAll(g, Start(bytes[4..4 + Signed(UnLE(bytes[..4]), 4)], garbage))
  {
    var n := Signed(UnLE(bytes[..4]), 4);
    var b := new B.ReadBlock(g, bytes[4..4 + n], garbage);
    var ok := b.UnpackAll();
    r := if ok then Done(RState([], b.tables, b.refs, b.depth, b.ancestor[..], b.stack)) else Failed;
  }

  /** With the guard as written the reader rebuilds the graph exactly when the graph is a forest with back links that
      are not too deep and no short reference is misread; on any other graph without misread references it raises an
      error. */
  lemma AsWrittenReadsForests(h: LuaHeap, roots: seq<Value>, garbage: seq<nat>)
    requires Encodable(h, roots) && |garbage| == MAX_DEPTH
    ensures var r := UnpackAll(AsWritten, Start(Payload(h, roots), garbage));
            && (r.Done? && SameGraphWithoutLost(h, roots, Pack(h, roots).seen, r.st)
                <==> OnlyBackLinks(h, roots) && AgreesAll(h, roots, [], [], TOP))
            && (AgreesAll(h, roots, [], [], TOP) && !OnlyBackLinks(h, roots) ==> r.Failed?)
  {
    hide UnpackAll, Payload, VisitAll, ExtTargets, OnlyBackLinks, SameGraphWithoutLost, SameGraph, AgreesAll;
    RoundTripExactly(h, roots, AsWritten, garbage);
    NoExtExactly(h, roots);
    if AgreesAll(h, roots, [], [], TOP) {
      AsWrittenExactly(h, roots, garbage);
    }
  }

  /** The bytes the writer makes, read by the reader: the graph comes back exactly when no short reference is misread
      and, under the guard as written, the graph is a forest with back links; if only that fails, an error is raised. */
  method PackThenUnpack(g: Guard, h: LuaHeap, roots: seq<Value>, garbage: seq<nat>) returns (r: Outcome)
    requires Encodable(h, roots) && |garbage| == MAX_DEPTH
    ensures r.Done? && SameGraphWithoutLost(h, roots, Pack(h, roots).seen, r.st)
            <==> (g == Intended || OnlyBackLinks(h, roots)) && AgreesAll(h, roots, [], [], TOP)
    ensures AgreesAll(h, roots, [], [], TOP) && g == AsWritten && !OnlyBackLinks(h, roots) ==> r.Failed?
  {
    hide UnpackAll, Payload, VisitAll, OnlyBackLinks, SameGraphWithoutLost, SameGraph, AgreesAll, LE, UnLE, ExtTargets;
    var out := W.SeriPack(h, roots);
    var bytes := out.value;
    ghost var p := Payload(h, roots);
    HeaderBack(p);
    r := SeriUnpack(g, bytes, garbage);
    RoundTripExactly(h, roots, g, garbage);
    AsWrittenReadsForests(h, roots, garbage);
  }

  lemma HeaderBack(p: seq<byte>)
    requires |p| < TWO_31
    ensures var bytes := LE(|p|, 4) + p;
            |bytes| == 4 + |p| && Signed(UnLE(bytes[..4]), 4) == |p| && bytes[4..4 + |p|] == p
  {
    assert Pow256(4) == TWO_32;
    UnLEofLE(|p|, 4);
    TakeBack(LE(|p|, 4), p);
  }

  // ---------- where the pair fails ----------

  const EMPTY := TableObj(0, [])

  lemma EmptyVisit(h: LuaHeap, id: nat, open: seq<nat>, seen: seq<nat>)
    requires id in h && h[id] == EMPTY && id !in seen && ShortRef(open, id).None?
    ensures Slots(h[id]) == []
    ensures Visit(h, Table(id), open, seen) == Walk([Open(|seen|, 0), Plain(Nil)], seen + [id])
  {
    assert ArrayPart(h[id]) == [] && HashPart(h[id]) == [];
    assert [Open(|seen|, 0)] + [] + [] + [Plain(Nil)] == [Open(|seen|, 0), Plain(Nil)];
  }

  /** One table twice among the arguments: the second is an extended reference, and the guard as written refuses it. */
  lemma SharedTableRefused(garbage: seq<nat>)
    requires |garbage| == MAX_DEPTH
    ensures var h: LuaHeap := map[0 := EMPTY];
            var roots := [Table(0), Table(0)];
            InDomain(h, roots) && UnpackAll(AsWritten, Start(Payload(h, roots), garbage)).Failed?
  {
    hide UnpackAll, IntegerBytes, VisitAll, Payload, ExtTargets, SameGraphWithoutLost, AgreesAll, Bytes;
    var h: LuaHeap := map[0 := EMPTY];
    var roots := [Table(0), Table(0)];
    SharedAgrees(h, roots);
    var w := SharedWalk(h, roots);
    AsWrittenExactly(h, roots, garbage);
  }

  lemma SharedAgrees(h: LuaHeap, roots: seq<Value>)
    requires h == map[0 := EMPTY] && roots == [Table(0), Table(0)]
    ensures AgreesAll(h, roots, [], [], TOP)
  {
    EmptyVisit(h, 0, [], []);
    PlainKeysAgree(h, roots, [], [], {0});
  }

  lemma SharedWalk(h: LuaHeap, roots: seq<Value>) returns (w: Walk)
    requires h == map[0 := EMPTY] && roots == [Table(0), Table(0)]
    ensures w == Pack(h, roots) == Walk([Open(0, 0), Plain(Nil)] + [Ext(0)], [0])
    ensures ExtTargets(w.items) == {0} && |Payload(h, roots)| == 5 && Fail !in w.items
  {
    hide ArrayPart, HashPart, Bytes, ExtTargets, VisitPairs;
    EmptyVisit(h, 0, [], []);
    OneValue(h, Table(0), [], [0]);
    assert roots[1..] == [Table(0)] && roots[0] == Table(0);
    assert Visit(h, Table(0), [], [0]) == Walk([Ext(0)], [0]) by {
      assert IndexOf([0], 0) == 0;
    }
    var none: seq<nat> := [];
    assert none + [0] == [0];
    w := Pack(h, roots);
    SharedBytes({0});
  }

  lemma OneValue(h: LuaHeap, v: Value, open: seq<nat>, seen: seq<nat>)
    ensures VisitAll(h, [v], open, seen) == Visit(h, v, open, seen)
  {
    assert [v][1..] == [];
    assert Visit(h, v, open, seen).items + [] == Visit(h, v, open, seen).items;
  }

  lemma SharedBytes(marks: set<nat>)
    requires 0 in marks
    ensures var items := [Open(0, 0), Plain(Nil)] + [Ext(0)];
            ExtTargets(items) == {0} && |Bytes(items, marks)| == 5
  {
    var a, b, c := [Open(0, 0)], [Plain(Nil)], [Ext(0)];
    assert [Open(0, 0), Plain(Nil)] == a + b;
    TwoParts(a + b, c, Intended, marks, []);
    TwoParts(a, b, Intended, marks, []);
    BytesOne(a[0], Intended, marks);
    BytesOne(b[0], Intended, marks);
    BytesOne(c[0], Intended, marks);
  }

  /** A table keyed by another table, holding itself there: the reader has put the key in the slot of its owner, so
      the value comes back as the key. */
  lemma TableKeyMisread(garbage: seq<nat>)
    requires |garbage| == MAX_DEPTH
    ensures var h: LuaHeap := map[0 := TableObj(0, [(Table(1), Table(0))]), 1 := EMPTY];
            var r := UnpackAll(Intended, Start(Payload(h, [Table(0)]), garbage));
            Payload(h, [Table(0)]) == [5, 5, 0, 7, 0]
            && r.Done? && r.st.tables == [map[Table(1) := Table(1)], map[]]
            && Encodable(h, [Table(0)]) && !AgreesAll(h, [Table(0)], [], [], TOP)
  {
    hide UnpackAll, Payload, VisitAll, AgreesAll, SameGraph, ExtTargets;
    var h: LuaHeap := map[0 := TableObj(0, [(Table(1), Table(0))]), 1 := EMPTY];
    KeyedPayload(h);
    KeyedRead(garbage);
    if AgreesAll(h, [Table(0)], [], [], TOP) {
      RoundTrip(h, [Table(0)], garbage);
      KeyedNoCopy(h, Pack(h, [Table(0)]).seen, UnpackAll(Intended, Start(Payload(h, [Table(0)]), garbage)).st);
    }
  }

  /** Under no numbering are these tables the two packed. */
  lemma KeyedNoCopy(h: LuaHeap, final: seq<nat>, st: RState)
    requires h == map[0 := TableObj(0, [(Table(1), Table(0))]), 1 := EMPTY]
    requires st.tables == [map[Table(1) := Table(1)], map[]]
    ensures !SameGraphWithoutLost(h, [Table(0)], final, st)
  {
    hide Lost, Reachable, Num;
    if SameGraphWithoutLost(h, [Table(0)], final, st) {
      assert Table(1) in st.tables[0];
      assert final[0] in h && final[1] in h;
      assert CopyWithout(st.tables[0], h[final[0]], final, k => Lost(k, h[final[0]].border));
      assert final[0] == 0 && final[1] == 1;
      NumbersOfBoth(final);
      assert false;
    }
  }

  lemma NumbersOfBoth(final: seq<nat>)
    requires |final| == 2 && final[0] == 0 && final[1] == 1
    ensures Num(final, 0) == 0 && Num(final, 1) == 1
  {
  }

  lemma KeyedPayload(h: LuaHeap)
    requires h == map[0 := TableObj(0, [(Table(1), Table(0))]), 1 := EMPTY]
    ensures Payload(h, [Table(0)]) == [5, 5, 0, 7, 0] && Fail !in Pack(h, [Table(0)]).items
  {
    hide EmittedPairs, RawGet;
    KeyedParts(h);
    var b := KeyedPair(h);
    var none: seq<nat> := [];
    assert none + [0] == [0];
    OneValue(h, Table(0), [], []);
    var w := Visit(h, Table(0), [], []);
    assert w.items == [Open(0, 0)] + [] + b.items + [Plain(Nil)];
    KeyedItems(w.items, b.items);
  }

  lemma KeyedParts(h: LuaHeap)
    requires h == map[0 := TableObj(0, [(Table(1), Table(0))]), 1 := EMPTY]
    ensures ArrayPart(h[0]) == [] && HashPart(h[0]) == [(Table(1), Table(0))]
  {
    assert h[0].pairs[1..] == [];
  }

  lemma OnePair(h: LuaHeap, k: Value, v: Value, open: seq<nat>, seen: seq<nat>)
    ensures var a := Visit(h, k, open, seen);
            var b := Visit(h, v, open, a.seen);
            VisitPairs(h, [(k, v)], open, seen) == Walk(a.items + b.items, b.seen)
  {
    hide Visit, VisitAll;
    var pairs := [(k, v)];
    assert pairs[1..] == [];
    var a := Visit(h, k, open, seen);
    var b := Visit(h, v, open, a.seen);
    assert VisitPairs(h, pairs[1..], open, b.seen) == Walk([], b.seen);
    assert a.items + b.items + [] == a.items + b.items;
  }

  lemma KeyedPair(h: LuaHeap) returns (b: Walk)
    requires h == map[0 := TableObj(0, [(Table(1), Table(0))]), 1 := EMPTY]
    ensures b == VisitPairs(h, [(Table(1), Table(0))], [0], [0])
    ensures b == Walk([Open(1, 0), Plain(Nil), Short(0)], [0, 1])
  {
    hide Visit, VisitAll, VisitPairs, ShortRef, Slots;
    assert ShortRef([0], 1) == None by {
      NoShort();
    }
    EmptyVisit(h, 1, [0], [0]);
    assert [0] + [1] == [0, 1];
    KeyedShort(h);
    OnePair(h, Table(1), Table(0), [0], [0]);
    b := VisitPairs(h, [(Table(1), Table(0))], [0], [0]);
    assert [Open(1, 0), Plain(Nil)] + [Short(0)] == [Open(1, 0), Plain(Nil), Short(0)];
  }

  lemma NoShort()
    ensures ShortRef([0], 1) == None
  {
  }

  lemma KeyedShort(h: LuaHeap)
    ensures Visit(h, Table(0), [0], [0, 1]) == Walk([Short(0)], [0, 1])
  {
    assert ShortRef([0], 0) == Some(0);
  }

  lemma KeyedItems(items: seq<Item>, pair: seq<Item>)
    requires pair == [Open(1, 0), Plain(Nil), Short(0)] && items == [Open(0, 0)] + [] + pair + [Plain(Nil)]
    ensures ExtTargets(items) == {} && Bytes(items, {}) == [5, 5, 0, 7, 0] && Fail !in items
  {
    var i1 := [Open(0, 0)];
    var i2 := i1 + [Open(1, 0)];
    var i3 := i2 + [Plain(Nil)];
    var i4 := i3 + [Short(0)];
    assert items == i4 + [Plain(Nil)];
    BytesOne(Open(0, 0), Intended, {});
    BytesSnoc(i1, Open(1, 0), {});
    BytesSnoc(i2, Plain(Nil), {});
    BytesSnoc(i3, Short(0), {});
    BytesSnoc(i4, Plain(Nil), {});
  }

  /** Reading the key: an empty table, at the depth of its owner. */
  lemma KeyRead(st: RState, st': RState, more: seq<byte>)
    requires |st.ancestor| == MAX_DEPTH && st.depth == 0 && st.rest == [5, 0] + more
    requires st' == st.(rest := more, tables := st.tables + [map[]], ancestor := st.ancestor[0 := |st.stack|],
                        stack := st.stack + [Table(|st.tables|)])
    ensures UnpackOne(Intended, st) == Done(st')
  {
    var tid := |st.tables|;
    assert [5, 0] + more == [5] + ([0] + more);
    ReadTag(st, 5, [0] + more);
    var st1 := OpenTable(st.(rest := [0] + more), TYPE_TABLE);
    assert UnpackArray(Intended, st1, tid, 1, 0) == Done(st1);
    var st2 := st1.(depth := 0);
    ReadTag(st2, 0, more);
    assert Push(st2.(rest := more), Nil).stack[..|st2.stack|] == st2.stack;
    assert UnpackHash(Intended, st2, tid) == Done(st2.(rest := more));
  }

  lemma KeyedRead(garbage: seq<nat>)
    requires |garbage| == MAX_DEPTH
    ensures var r := UnpackAll(Intended, Start([5, 5, 0, 7, 0], garbage));
            r.Done? && r.st.tables == [map[Table(1) := Table(1)], map[]]
  {
    hide GetAtom, UnpackTable;
    var g0, g1 := garbage[0 := 0], garbage[0 := 1];
    var s0 := Start([5, 5, 0, 7, 0], garbage);
    var s1 := RState([5, 0, 7, 0], [map[]], None, 1, g0, [Table(0)]);
    var s3 := RState([7, 0], [map[], map[]], None, 0, g1, [Table(0), Table(1)]);
    var s4 := RState([0], [map[], map[]], None, 1, g1, [Table(0), Table(1), Table(1)]);
    var s5 := RState([0], [map[Table(1) := Table(1)], map[]], None, 0, g1, [Table(0)]);
    var s6 := s5.(rest := []);
    KeyRead(s1.(depth := 0), s3, [7, 0]);
    ReadTag(s3.(depth := 1), 7, [0]);
    assert UnpackOne(Intended, s3.(depth := 1)) == Done(s4);
    assert UnpackHash(Intended, s5, 0) == Done(s6) by {
      assert AtomBytes(Nil) + [] == [0];
      ReadAtom(Nil, Intended, s5, []);
      assert Push(s6, Nil).stack[..1] == s6.stack;
    }
    assert Store(s4.(depth := 0), 0, Table(1), Table(1), 1) == s5;
    assert UnpackHash(Intended, s1.(depth := 0), 0) == Done(s6);
    OuterRead(s0, s1, s6);
  }

  lemma OuterRead(s0: RState, s1: RState, s6: RState)
    requires |s0.ancestor| == MAX_DEPTH && |s1.ancestor| == MAX_DEPTH && s0.rest == [5, 5, 0, 7, 0] && s0.tables == []
    requires s1 == OpenTable(s0.(rest := [5, 0, 7, 0]), TYPE_TABLE) && s1.depth == 1
    requires UnpackHash(Intended, s1.(depth := 0), 0) == Done(s6) && s6.rest == [] && |s6.ancestor| == MAX_DEPTH
    ensures UnpackAll(Intended, s0) == Done(s6)
  {
    ReadTag(s0, 5, [5, 0, 7, 0]);
    assert UnpackArray(Intended, s1, 0, 1, 0) == Done(s1);
    assert UnpackOne(Intended, s0) == Done(s6);
  }

  lemma ReadTag(st: RState, t: byte, more: seq<byte>)
    requires |st.ancestor| == MAX_DEPTH && st.rest == [t] + more
    ensures UnpackOne(Intended, st) == PushValue(Intended, st.(rest := more), t % 8, t / 8)
  {
    FirstByte(t, more, Intended, st);
  }

  // ---------- a key that is dropped ----------

  /** 1.5 as a double. */
  const ONE_AND_A_HALF: Word := 0x3FF8_0000_0000_0000

  const HALVED := TableObj(1, [(IndexKey(1), Boolean(true)), (Number(ONE_AND_A_HALF), Boolean(false))])

  lemma {:induction false} HalveBetween(n: nat, k: nat, times: nat)
    requires times <= k && Pow2(k) <= n < 2 * Pow2(k)
    ensures Pow2(k - times) <= Halve(n, times) < 2 * Pow2(k - times)
  {
    if times > 0 {
      HalveBetween(n, k, times - 1);
      assert Pow2(k - times + 1) == 2 * Pow2(k - times);
    }
  }

  lemma {:induction false} ShiftUpOfPow2(j: nat)
    requires j <= 52
    ensures Pow2(j) <= TWO_52 && ShiftUp(Pow2(j), j) == (TWO_52, 52)
    decreases 52 - j
  {
    if j == 52 {
      Pow2Of52();
    } else {
      ShiftUpOfPow2(j + 1);
    }
  }

  lemma OneAndAHalf()
    ensures ToInteger(ONE_AND_A_HALF) == 1 && OfInteger(1) != ONE_AND_A_HALF
  {
    hide Halve;
    Pow2Of52();
    HalveBetween(TWO_52 + Mantissa(ONE_AND_A_HALF), 52, 52);
    ShiftUpOfPow2(0);
  }

  lemma HalvedParts()
    ensures ArrayPart(HALVED) == [Boolean(true)] && HashPart(HALVED) == []
    ensures Lost(Number(ONE_AND_A_HALF), 1) && !Lost(IndexKey(1), 1)
    ensures ValidKey(IndexKey(1)) && ValidKey(Number(ONE_AND_A_HALF)) && IndexKey(1) != Number(ONE_AND_A_HALF)
  {
    hide ToInteger, OfInteger, Lost;
    ToIntegerOfIndex(1);
    LostIsDropped(Number(ONE_AND_A_HALF), 1);
    LostIsDropped(IndexKey(1), 1);
    OneAndAHalf();
    assert HALVED.pairs[1..][1..] == [];
    assert EmittedPairs(HALVED.pairs[1..][1..], 1) == [];
    assert EmittedPairs(HALVED.pairs[1..], 1) == [];
  }

  lemma HalvedWalk(h: LuaHeap) returns (w: Walk)
    requires h == map[0 := HALVED]
    ensures w == Pack(h, [Table(0)]) == Walk([Open(0, 1), Plain(Boolean(true)), Plain(Nil)], [0])
    ensures ExtTargets(w.items) == {} && |Payload(h, [Table(0)])| == 3
  {
    hide ArrayPart, HashPart, Bytes, VisitAll, Visit, VisitPairs;
    HalvedParts();
    var none: seq<nat> := [];
    assert none + [0] == [0];
    OneValue(h, Boolean(true), [0], [0]);
    TrueVisit(h);
    VisitOpen(h, 0, [], []);
    OneValue(h, Table(0), [], []);
    w := Pack(h, [Table(0)]);
    assert [Open(0, 1)] + [Plain(Boolean(true))] + [] + [Plain(Nil)] == [Open(0, 1), Plain(Boolean(true)), Plain(Nil)];
    HalvedBytes(w.items);
  }

  lemma TrueVisit(h: LuaHeap)
    ensures Visit(h, Boolean(true), [0], [0]) == Walk([Plain(Boolean(true))], [0])
    ensures VisitPairs(h, [], [0], [0]) == Walk([], [0])
  {
  }

  lemma HalvedBytes(items: seq<Item>)
    requires items == [Open(0, 1), Plain(Boolean(true)), Plain(Nil)]
    ensures ExtTargets(items) == {} && |Bytes(items, {})| == 3
  {
    hide Bytes;
    var o := [Open(0, 1)];
    assert items == o + [Plain(Boolean(true))] + [Plain(Nil)];
    BytesOne(Open(0, 1), Intended, {});
    BytesSnoc(o, Plain(Boolean(true)), {});
    BytesSnoc(o + [Plain(Boolean(true))], Plain(Nil), {});
  }

  lemma HalvedInDomain(h: LuaHeap)
    requires h == map[0 := HALVED]
    ensures InDomain(h, [Table(0)]) && Pack(h, [Table(0)]).seen == [0]
  {
    hide Payload, Bytes, ExtTargets, VisitAll, ArrayPart, HashPart, OfInteger, ToInteger;
    HalvedParts();
    var w := HalvedWalk(h);
    assert Slots(h[0]) == [Boolean(true)];
    PlainKeysAgree(h, [Table(0)], [], [], {0});
  }

  /** A table with the entries 1 and 1.5: the array part covers the first, and the second is taken to be covered too. */
  lemma FractionDropped(garbage: seq<nat>)
    requires |garbage| == MAX_DEPTH
    ensures var h: LuaHeap := map[0 := HALVED];
            var roots := [Table(0)];
            var r := UnpackAll(Intended, Start(Payload(h, roots), garbage));
            && InDomain(h, roots) && r.Done? && !SameGraph(h, roots, Pack(h, roots).seen, r.st)
            && |r.st.tables| == 1 && r.st.tables[0].Keys == {IndexKey(1)}
  {
    hide UnpackAll, VisitAll, Payload, Lost, SameGraph, OfInteger;
    var h: LuaHeap := map[0 := HALVED];
    HalvedParts();
    HalvedInDomain(h);
    RoundTrip(h, [Table(0)], garbage);
    assert HALVED.pairs[0] in HALVED.pairs && HALVED.pairs[1] in HALVED.pairs && 0 in Ids([0]);
  }
}
