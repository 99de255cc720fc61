/** Whole messages in plain numbers: what seri_pack returns for them, and what seri_unpack makes of it. */
module SeriSamples {
  import opened Bits
  import opened LuaValues
  import opened SeriFormat
  import opened SeriWalk
  import opened SeriRead
  import opened SeriSimulation
  import opened SeriReplay
  import opened SeriFacts
  import opened SeriRoundTrip
  import opened SeriCodes
  import opened SeriEndToEnd
  import W = SeriWriter

  // ---------- one value that is not a table ----------

  predicate Sendable(v: Value)
  {
    !v.Table? && !v.Unsupported? && (v.Str? ==> |v.chars| < 0x7FFF_FFF0)
  }

  lemma AtomPayload(h: LuaHeap, v: Value)
    requires Sendable(v)
    ensures Payload(h, [v]) == AtomCode(v) && Fail !in Pack(h, [v]).items
  {
    hide AtomCode;
    OneValue(h, v, [], []);
    var w := Pack(h, [v]);
    assert w.items == [Plain(v)];
    BytesOne(Plain(v), Intended, {});
    ItemOnWire(Plain(v), {});
  }

  lemma AtomCodeSize(v: Value)
    requires Sendable(v)
    ensures 0 < |AtomCode(v)| < 0x8000_0000
  {
  }

  /** The four bytes in front hold the length of what follows. */
  method PackAtom(h: LuaHeap, v: Value) returns (bytes: Option<seq<byte>>)
    requires Sendable(v)
    ensures bytes == Some(Four(|AtomCode(v)|) + AtomCode(v))
  {
    hide Payload, Pack, AtomCode, Four;
    bytes := W.SeriPack(h, [v]);
    AtomPayload(h, v);
    LittleEndian4(|AtomCode(v)|);
  }

  lemma HeaderOf(p: seq<byte>)
    requires |p| < 0x8000_0000
    ensures var bytes := Four(|p|) + p;
            |bytes| == 4 + |p| && Signed(UnLE(bytes[..4]), 4) == |p| && bytes[4..4 + |p|] == p
  {
    hide Four, UnLE, LE;
    HeaderBack(p);
    LittleEndian4(|p|);
  }

  /** One tag and what follows it, as a message: read as the table of codes says, if it says anything and there is
      nothing left over. */
  method UnpackAtom(g: Guard, t: byte, more: seq<byte>, garbage: seq<nat>) returns (r: Outcome)
    requires |garbage| == MAX_DEPTH && t % 8 < 5 && |more| < 0x7FFF_FFFF
    ensures match AtomTaken(t, more)
            case None => r == Failed
            case Some((v, n)) => n == |more| ==> r.Done? && r.st.stack == [v] && r.st.tables == []
  {
    hide UnLE, Signed, Four, UnpackOne, AtomTaken;
    HeaderOf([t] + more);
    r := SeriUnpack(g, Four(|[t] + more|) + ([t] + more), garbage);
    AtomIsTaken(t, more, g, Start([t] + more, garbage));
  }

  /** What is packed is what is unpacked, for values that are not tables. */
  method SendAtom(h: LuaHeap, v: Value, g: Guard, garbage: seq<nat>) returns (r: Outcome)
    requires Sendable(v) && |garbage| == MAX_DEPTH
    ensures r.Done? && r.st.stack == [v] && r.st.tables == []
  {
    hide UnLE, Signed, Four, UnpackOne, AtomCode;
    var bytes := PackAtom(h, v);
    AtomCodeSize(v);
    HeaderOf(AtomCode(v));
    r := SeriUnpack(g, bytes.value, garbage);
    AtomOnWire(v);
    assert AtomBytes(v) + [] == AtomBytes(v);
    ReadAtom(v, g, Start(AtomBytes(v), garbage), []);
  }

  /** The codes of numbers and strings at their boundaries. */
  lemma StringBoundaries(s: seq<byte>)
    ensures AtomCode(Number(0x0807_0605_0403_0201)) == [65, 1, 2, 3, 4, 5, 6, 7, 8]
    ensures |s| == 0 ==> AtomCode(Str(s)) == [3]
    ensures |s| == 31 ==> AtomCode(Str(s)) == [251] + s
    ensures |s| == 32 ==> AtomCode(Str(s)) == [20, 32, 0] + s
    ensures |s| == 0xFFFF ==> AtomCode(Str(s)) == [20, 255, 255] + s
    ensures |s| == 0x1_0000 ==> AtomCode(Str(s)) == [36, 0, 0, 1, 0] + s
  {
    assert [20] + Two(32) == [20, 32, 0] && [20] + Two(0xFFFF) == [20, 255, 255];
    assert [36] + Four(0x1_0000) == [36, 0, 0, 1, 0];
  }

  /** The codes of sizes and object numbers at their boundaries. */
  lemma SizeBoundaries()
    ensures TableCode(30, false) == [245] && TableCode(31, false) == [253, 9, 31] && TableCode(30, true) == [246]
    ensures IntegerCode(255) == [9, 255] && IntegerCode(256) == [17, 0, 1] && IntegerCode(0xFFFF) == [17, 255, 255]
    ensures IntegerCode(0x1_0000) == [33, 0, 0, 1, 0] && IntegerCode(0x7FFF_FFFF) == [33, 255, 255, 255, 127]
  {
  }

  /** The integers of eight bytes begin where four bytes no longer hold the sign. */
  lemma IntegerBoundaries()
    ensures IntegerCode(-1) == [33, 255, 255, 255, 255] && IntegerCode(-0x8000_0000) == [33, 0, 0, 0, 128]
    ensures IntegerCode(0x8000_0000) == [49, 0, 0, 0, 128, 0, 0, 0, 0]
    ensures IntegerCode(-0x8000_0001) == [49, 255, 255, 255, 127, 255, 255, 255, 255]
  {
    assert [33] + Four(0xFFFF_FFFF) == [33, 255, 255, 255, 255] && [33] + Four(0x8000_0000) == [33, 0, 0, 0, 128];
    assert [49] + Eight(0x8000_0000) == [49, 0, 0, 0, 128, 0, 0, 0, 0];
    assert [49] + Eight(0xFFFF_FFFF_7FFF_FFFF) == [49, 255, 255, 255, 127, 255, 255, 255, 255];
    hide Four, Eight;
  }

  // ---------- arrays ----------

  /** The entries of an array of n times true. */
  function Trues(n: nat): seq<(Value, Value)>
  {
    seq(n, i => (IndexKey(i + 1), Boolean(true)))
  }

  function Sixteens(n: nat): seq<byte> { seq(n, i => 16) }

  lemma TruesValid(h: LuaHeap, n: nat)
    requires n < TWO_31
    ensures ValidPairs(h, Trues(n))
  {
    hide OfInteger, ToInteger, IsNaN;
    forall i | 0 <= i < n ensures ToInteger(OfInteger(i + 1)) == i + 1 && ValidKey(Trues(n)[i].0) {
      ToIntegerOfIndex(i + 1);
    }
  }

  lemma TruesArray(h: LuaHeap, n: nat)
    requires n < TWO_31
    ensures ArrayPart(TableObj(n, Trues(n))) == seq(n, i => Boolean(true))
  {
    hide OfInteger, RawGet;
    TruesValid(h, n);
    forall i | 0 <= i < n ensures ArrayPart(TableObj(n, Trues(n)))[i] == Boolean(true) {
      RawGetValid(h, Trues(n), IndexKey(i + 1));
      assert Trues(n)[i].0 == IndexKey(i + 1);
    }
  }

  lemma {:induction false} AllSkipped(pairs: seq<(Value, Value)>, border: nat)
    requires forall i :: 0 <= i < |pairs| ==> Skipped(pairs[i].0, border)
    ensures EmittedPairs(pairs, border) == []
  {
    hide Skipped;
    if pairs != [] {
      AllSkipped(pairs[1..], border);
    }
  }

  lemma TruesHash(n: nat)
    requires n < TWO_31
    ensures HashPart(TableObj(n, Trues(n))) == []
  {
    hide OfInteger, ToInteger;
    forall i | 0 <= i < n ensures Skipped(Trues(n)[i].0, n) {
      ToIntegerOfIndex(i + 1);
    }
    AllSkipped(Trues(n), n);
  }

  lemma {:induction false} TruesVisited(h: LuaHeap, n: nat, open: seq<nat>, seen: seq<nat>, marks: set<nat>)
    ensures var w := VisitAll(h, seq(n, i => Boolean(true)), open, seen);
            && w.seen == seen && Fail !in w.items && ExtTargets(w.items) == {}
            && Bytes(w.items, marks) == Sixteens(n)
  {
    hide Bytes, ExtTargets, AtomBytes;
    var vs: seq<Value> := seq(n, i => Boolean(true));
    if n == 0 {
      NoParts(Intended, marks, []);
    } else {
      assert vs[1..] == seq(n - 1, i => Boolean(true));
      TruesVisited(h, n - 1, open, seen, marks);
      var w := VisitAll(h, vs[1..], open, seen);
      BytesConcat([Plain(Boolean(true))], w.items, marks);
      ExtTargetsConcat([Plain(Boolean(true))], w.items);
      BytesOne(Plain(Boolean(true)), Intended, marks);
      AtomOnWire(Boolean(true));
      OneMoreTrue(n);
    }
  }

  lemma OneMoreTrue(n: nat)
    requires n > 0
    ensures [16] + Sixteens(n - 1) == Sixteens(n)
  {
  }

  lemma TruesPayload(h: LuaHeap, n: nat)
    requires n < 0x4000_0000 && h == map[0 := TableObj(n, Trues(n))]
    ensures Payload(h, [Table(0)]) == TableCode(n, false) + Sixteens(n) + [0]
    ensures Fail !in Pack(h, [Table(0)]).items
  {
    hide Trues, ArrayPart, HashPart, Bytes, ExtTargets, VisitAll, VisitPairs, TableCode;
    TruesArray(h, n);
    TruesHash(n);
    TruesVisited(h, n, [0], [0], {});
    OneValue(h, Table(0), [], []);
    TruesItems(h, n);
    var a := VisitAll(h, seq(n, i => Boolean(true)), [0], [0]);
    var w := Pack(h, [Table(0)]);
    var o := [Open(0, n)];
    BytesConcat(o + a.items, [Plain(Nil)], {});
    BytesConcat(o, a.items, {});
    ExtTargetsConcat(o + a.items, [Plain(Nil)]);
    ExtTargetsConcat(o, a.items);
    BytesOne(Open(0, n), Intended, {});
    BytesOne(Plain(Nil), Intended, {});
    ItemOnWire(Open(0, n), {});
    ItemOnWire(Plain(Nil), {});
  }

  lemma TruesItems(h: LuaHeap, n: nat)
    requires 0 in h && HashPart(h[0]) == [] && h[0].border == n
    ensures Visit(h, Table(0), [], []).items
            == [Open(0, n)] + VisitAll(h, ArrayPart(h[0]), [0], [0]).items + [Plain(Nil)]
  {
    hide ArrayPart, HashPart, VisitAll;
    VisitOpen(h, 0, [], []);
    var none: seq<nat> := [];
    assert none + [0] == [0];
    var a := VisitAll(h, ArrayPart(h[0]), [0], [0]);
    assert [Open(0, n)] + a.items + [] == [Open(0, n)] + a.items;
  }

  /** An array of n times true: the size in the tag up to 30 and behind it from 31 on, the elements, the end. */
  method PackTrues(n: nat) returns (bytes: Option<seq<byte>>)
    requires n < 0x4000_0000
    ensures bytes == Some(Four(|TableCode(n, false)| + n + 1) + TableCode(n, false) + Sixteens(n) + [0])
  {
    hide Payload, Pack, TableCode, Four, Trues;
    var h: LuaHeap := map[0 := TableObj(n, Trues(n))];
    bytes := W.SeriPack(h, [Table(0)]);
    TruesPayload(h, n);
    ghost var code, elements := TableCode(n, false), Sixteens(n);
    ghost var p := code + elements + [0];
    LittleEndian4(|p|);
    ConcatAssoc(Four(|p|), code, elements);
    ConcatAssoc(Four(|p|), code + elements, [0]);
  }

  // ---------- references ----------

  /** One table passed twice: its tag is marked, and the second is reference number 1. */
  method PackShared() returns (bytes: Option<seq<byte>>)
    ensures bytes == Some([5, 0, 0, 0, 6, 0, 255, 9, 1])
  {
    hide Payload, VisitAll, ExtTargets;
    var h: LuaHeap := map[0 := EMPTY];
    bytes := W.SeriPack(h, [Table(0), Table(0)]);
    ghost var w := SharedWalk(h, [Table(0), Table(0)]);
    SharedPayload(h);
    assert LE(5, 4) + [6, 0, 255, 9, 1] == [5, 0, 0, 0, 6, 0, 255, 9, 1];
  }

  lemma SharedPayload(h: LuaHeap)
    requires h == map[0 := EMPTY]
    ensures Payload(h, [Table(0), Table(0)]) == [6, 0, 255, 9, 1]
    ensures LE(5, 4) == [5, 0, 0, 0]
  {
    hide Bytes, ExtTargets, VisitAll;
    LittleEndian4(5);
    var w := SharedWalk(h, [Table(0), Table(0)]);
    var a, b, c := [Open(0, 0)], [Plain(Nil)], [Ext(0)];
    assert w.items == a + b + c;
    BytesConcat(a + b, c, {0});
    BytesConcat(a, b, {0});
    BytesOne(a[0], Intended, {0});
    BytesOne(b[0], Intended, {0});
    BytesOne(c[0], Intended, {0});
    ItemOnWire(a[0], {0});
    ItemOnWire(b[0], {0});
    ItemOnWire(c[0], {0});
  }

  /** What is read of a packed graph: the tables with the entries the two passes store, in order of first visit. */
  lemma ReadBack(h: LuaHeap, roots: seq<Value>, g: Guard, garbage: seq<nat>)
    requires InDomain(h, roots) && |garbage| == MAX_DEPTH
    ensures var r := UnpackAll(g, Start(Payload(h, roots), garbage));
            var w := Pack(h, roots);
            if Passes(g, w.items) then
              r.Done? && r.st.stack == Images(w.seen, roots) && |r.st.tables| == |w.seen|
              && forall j :: 0 <= j < |w.seen| ==> w.seen[j] in h && r.st.tables[j] == Built(h[w.seen[j]], w.seen)
            else r.Failed?
  {
    hide VisitAll, UnpackAll, Payload, ExtTargets, Built, Slots, Images;
    Replay(h, roots, g, garbage);
  }

  lemma SharedRead(g: Guard, garbage: seq<nat>)
    requires |garbage| == MAX_DEPTH
    ensures var r := UnpackAll(g, Start([6, 0, 255, 9, 1], garbage));
            if g == Intended then r.Done? && r.st.stack == [Table(0), Table(0)] && r.st.tables == [map[]] else r.Failed?
  {
    hide VisitAll, UnpackAll, Payload, ExtTargets, AgreesAll, Bytes;
    var h: LuaHeap := map[0 := EMPTY];
    var roots := [Table(0), Table(0)];
    SharedAgrees(h, roots);
    SharedPayload(h);
    var w := SharedWalk(h, roots);
    assert w.seen == [0];
    ReadBack(h, roots, g, garbage);
    assert Built(EMPTY, [0]) == map[];
    assert Images([0], roots) == roots;
  }

  method UnpackShared(g: Guard, garbage: seq<nat>) returns (r: Outcome)
    requires |garbage| == MAX_DEPTH
    ensures if g == Intended then r.Done? && r.st.stack == [Table(0), Table(0)] && r.st.tables == [map[]] else r.Failed?
  {
    hide UnpackAll, UnLE, Signed;
    ghost var p: seq<byte> := [6, 0, 255, 9, 1];
    HeaderOf(p);
    assert Four(5) + p == [5, 0, 0, 0, 6, 0, 255, 9, 1];
    r := SeriUnpack(g, [5, 0, 0, 0, 6, 0, 255, 9, 1], garbage);
    SharedRead(g, garbage);
  }

  // ---------- tables within tables ----------

  const X: Value := Str([120])

  /** A table that holds a second one and, under "x", false; the second holds the first and itself. */
  const OUTER := TableObj(1, [(IndexKey(1), Table(1)), (X, Boolean(false))])
  const INNER := TableObj(2, [(IndexKey(1), Table(0)), (IndexKey(2), Table(1))])

  function Nested(): LuaHeap { map[0 := OUTER, 1 := INNER] }

  lemma TwoKeys()
    ensures IndexKey(1) != IndexKey(2) && ValidKey(IndexKey(1)) && ValidKey(IndexKey(2))
    ensures Skipped(IndexKey(1), 1) && Skipped(IndexKey(1), 2) && Skipped(IndexKey(2), 2)
  {
    hide ToInteger, OfInteger;
    ToIntegerOfIndex(1);
    ToIntegerOfIndex(2);
  }

  lemma OuterParts()
    ensures ArrayPart(OUTER) == [Table(1)] && HashPart(OUTER) == [(X, Boolean(false))]
  {
    hide ToInteger, OfInteger;
    TwoKeys();
    var pairs := OUTER.pairs;
    assert pairs[1..] == [(X, Boolean(false))] && pairs[1..][1..] == [];
    assert EmittedPairs(pairs[1..][1..], 1) == [];
    assert EmittedPairs(pairs[1..], 1) == [(X, Boolean(false))];
  }

  lemma InnerParts()
    ensures ArrayPart(INNER) == [Table(0), Table(1)] && HashPart(INNER) == []
  {
    hide ToInteger, OfInteger;
    TwoKeys();
    var pairs := INNER.pairs;
    assert pairs[1..] == [(IndexKey(2), Table(1))] && pairs[1..][1..] == [];
    assert EmittedPairs(pairs[1..][1..], 2) == [];
    assert EmittedPairs(pairs[1..], 2) == [];
  }

  lemma InnerWalk(h: LuaHeap)
    requires h == Nested()
    ensures Visit(h, Table(1), [0], [0]) == Walk([Open(1, 2), Short(0), Short(1), Plain(Nil)], [0, 1])
  {
    hide ArrayPart, HashPart, VisitPairs, Visit, ShortRef;
    InnerParts();
    assert ShortRef([0], 1) == None by { NoShort(); }
    VisitOpen(h, 1, [0], [0]);
    assert [0] + [1] == [0, 1];
    OneValue(h, Table(1), [0, 1], [0, 1]);
    BothShort(h);
    var vs := [Table(0), Table(1)];
    assert vs[1..] == [Table(1)];
    assert VisitAll(h, vs, [0, 1], [0, 1]).items == [Short(0), Short(1)];
    assert [Open(1, 2)] + [Short(0), Short(1)] + [] + [Plain(Nil)] == [Open(1, 2), Short(0), Short(1), Plain(Nil)];
    assert VisitPairs(h, [], [0, 1], [0, 1]) == Walk([], [0, 1]) by { NoPairs(h, [0, 1], [0, 1]); }
  }

  lemma NoPairs(h: LuaHeap, open: seq<nat>, seen: seq<nat>)
    ensures VisitPairs(h, [], open, seen) == Walk([], seen)
  {
  }

  lemma BothShort(h: LuaHeap)
    ensures Visit(h, Table(0), [0, 1], [0, 1]) == Walk([Short(0)], [0, 1])
    ensures Visit(h, Table(1), [0, 1], [0, 1]) == Walk([Short(1)], [0, 1])
  {
    assert [0, 1][..1] == [0];
    assert FindAncestor([0, 1], 1) == Some(1);
    assert FindAncestor([0], 0) == Some(0);
  }

  lemma NestedWalk(h: LuaHeap)
    requires h == Nested()
    ensures Pack(h, [Table(0)]).seen == [0, 1]
    ensures Pack(h, [Table(0)]).items
            == [Open(0, 1)] + [Open(1, 2), Short(0), Short(1), Plain(Nil)]
               + [Plain(X), Plain(Boolean(false))] + [Plain(Nil)]
  {
    hide ArrayPart, HashPart, VisitAll, VisitPairs, Visit;
    OuterParts();
    VisitOpen(h, 0, [], []);
    var none: seq<nat> := [];
    assert none + [0] == [0];
    InnerWalk(h);
    OneValue(h, Table(1), [0], [0]);
    OneValue(h, Table(0), [], []);
    OnePair(h, X, Boolean(false), [0], [0, 1]);
    PlainVisits(h);
    assert [Plain(X)] + [Plain(Boolean(false))] == [Plain(X), Plain(Boolean(false))];
  }

  lemma PlainVisits(h: LuaHeap)
    ensures Visit(h, X, [0], [0, 1]) == Walk([Plain(X)], [0, 1])
    ensures Visit(h, Boolean(false), [0], [0, 1]) == Walk([Plain(Boolean(false))], [0, 1])
  {
  }

  lemma NestedPayload(h: LuaHeap)
    requires h == Nested()
    ensures Payload(h, [Table(0)]) == [13, 21, 7, 15, 0, 11, 120, 8, 0]
    ensures Fail !in Pack(h, [Table(0)]).items && ExtTargets(Pack(h, [Table(0)]).items) == {}
  {
    hide Pack, Bytes;
    NestedWalk(h);
    var w := Pack(h, [Table(0)]);
    var i1 := [Open(0, 1)];
    var i3 := i1 + [Open(1, 2)] + [Short(0)];
    var i5 := i3 + [Short(1)] + [Plain(Nil)];
    var i7 := i5 + [Plain(X)] + [Plain(Boolean(false))];
    assert w.items == i7 + [Plain(Nil)];
    assert ExtTargets(w.items) == {};
    NestedBytes(i1, i3, i5, i7);
    hide ExtTargets;
  }

  lemma NestedBytes(i1: seq<Item>, i3: seq<Item>, i5: seq<Item>, i7: seq<Item>)
    requires i1 == [Open(0, 1)] && i3 == i1 + [Open(1, 2)] + [Short(0)] && i5 == i3 + [Short(1)] + [Plain(Nil)]
    requires i7 == i5 + [Plain(X)] + [Plain(Boolean(false))]
    ensures Bytes(i7 + [Plain(Nil)], {}) == [13, 21, 7, 15, 0, 11, 120, 8, 0]
  {
    hide Bytes, ItemBytes;
    BytesOne(Open(0, 1), Intended, {});
    BytesSnoc(i1, Open(1, 2), {});
    BytesSnoc(i1 + [Open(1, 2)], Short(0), {});
    BytesSnoc(i3, Short(1), {});
    BytesSnoc(i3 + [Short(1)], Plain(Nil), {});
    BytesSnoc(i5, Plain(X), {});
    BytesSnoc(i5 + [Plain(X)], Plain(Boolean(false)), {});
    BytesSnoc(i7, Plain(Nil), {});
    NestedCodes();
  }

  lemma NestedCodes()
    ensures ItemBytes(Open(0, 1), {}) == [13] && ItemBytes(Open(1, 2), {}) == [21]
    ensures ItemBytes(Short(0), {}) == [7] && ItemBytes(Short(1), {}) == [15]
    ensures ItemBytes(Plain(Nil), {}) == [0] && ItemBytes(Plain(Boolean(false)), {}) == [8]
    ensures ItemBytes(Plain(X), {}) == [11, 120]
  {
    hide ItemBytes;
    ItemOnWire(Open(0, 1), {});
    ItemOnWire(Open(1, 2), {});
    ItemOnWire(Short(0), {});
    ItemOnWire(Short(1), {});
    ItemOnWire(Plain(Nil), {});
    ItemOnWire(Plain(Boolean(false)), {});
    ItemOnWire(Plain(X), {});
  }

  /** Array part before pairs, key before value, references by depth from the outside. */
  method PackNested() returns (bytes: Option<seq<byte>>)
    ensures bytes == Some([9, 0, 0, 0, 13, 21, 7, 15, 0, 11, 120, 8, 0])
  {
    hide Payload, Pack, ExtTargets;
    bytes := W.SeriPack(Nested(), [Table(0)]);
    NestedPayload(Nested());
    LittleEndian4(9);
    assert LE(9, 4) + [13, 21, 7, 15, 0, 11, 120, 8, 0] == [9, 0, 0, 0, 13, 21, 7, 15, 0, 11, 120, 8, 0];
  }

  lemma NestedInDomain(h: LuaHeap)
    requires h == Nested()
    ensures InDomain(h, [Table(0)])
  {
    hide Payload, Pack, AgreesAll, ExtTargets, ArrayPart, HashPart, OfInteger, ToInteger;
    NestedPayload(h);
    OuterParts();
    InnerParts();
    TwoKeys();
    NestedClosed(h);
    PlainKeysAgree(h, [Table(0)], [], [], {0, 1});
  }

  lemma NestedClosed(h: LuaHeap)
    requires h == Nested()
    ensures Closed(h, {0, 1}) && PlainKeys(h, {0, 1}) && TablesIn([Table(0)], {0, 1})
  {
    hide ArrayPart, HashPart;
    OuterParts();
    InnerParts();
    assert Slots(OUTER) == [Table(1), X, Boolean(false)];
    assert Slots(INNER) == [Table(0), Table(1)];
  }

  lemma NestedRead(g: Guard, garbage: seq<nat>)
    requires |garbage| == MAX_DEPTH
    ensures var r := UnpackAll(g, Start([13, 21, 7, 15, 0, 11, 120, 8, 0], garbage));
            && r.Done? && r.st.stack == [Table(0)]
            && r.st.tables == [map[IndexKey(1) := Table(1), X := Boolean(false)],
                               map[IndexKey(1) := Table(0), IndexKey(2) := Table(1)]]
  {
    hide Pack, UnpackAll, Payload, ExtTargets, Built, InDomain, OfInteger, Images;
    var h := Nested();
    NestedInDomain(h);
    NestedPayload(h);
    NestedWalk(h);
    ReadBack(h, [Table(0)], g, garbage);
    NestedBuilt();
    NestedImage();
  }

  lemma NestedImage()
    ensures Images([0, 1], [Table(0)]) == [Table(0)]
  {
  }

  lemma NestedBuilt()
    ensures Built(OUTER, [0, 1]) == map[IndexKey(1) := Table(1), X := Boolean(false)]
    ensures Built(INNER, [0, 1]) == map[IndexKey(1) := Table(0), IndexKey(2) := Table(1)]
  {
    hide ArrayPart, HashPart, OfInteger, ToInteger;
    OuterParts();
    InnerParts();
    TwoKeys();
    assert Image([0, 1], Table(1)) == Table(1);
    assert [Table(0), Table(1)][1..] == [Table(1)] && [Table(1)][1..] == [];
    var pairs: seq<(Value, Value)> := [(X, Boolean(false))];
    assert pairs[1..] == [];
    var m := RawSet(map[], IndexKey(1), Table(1));
    assert StoreArray(map[], [Table(1)], 1, [0, 1]) == m;
    assert StorePairs(m, pairs, [0, 1]) == StorePairs(RawSet(m, X, Boolean(false)), pairs[1..], [0, 1]);
  }

  method UnpackNested(g: Guard, garbage: seq<nat>) returns (r: Outcome)
    requires |garbage| == MAX_DEPTH
    ensures r.Done? && r.st.stack == [Table(0)]
    ensures r.st.tables == [map[IndexKey(1) := Table(1), X := Boolean(false)],
                            map[IndexKey(1) := Table(0), IndexKey(2) := Table(1)]]
  {
    hide UnpackAll, UnLE, Signed, OfInteger;
    ghost var p: seq<byte> := [13, 21, 7, 15, 0, 11, 120, 8, 0];
    HeaderOf(p);
    assert Four(9) + p == [9, 0, 0, 0, 13, 21, 7, 15, 0, 11, 120, 8, 0];
    r := SeriUnpack(g, [9, 0, 0, 0, 13, 21, 7, 15, 0, 11, 120, 8, 0], garbage);
    NestedRead(g, garbage);
  }

  // ---------- one pair ----------

  /** The key a table keeps: minus zero is zero. */
  function KeptKey(k: Value): Value { if k == Number(0x8000_0000_0000_0000) then Number(0) else k }

  predicate NotANumber(k: Value)
  {
    k.Number? && k.bits / 0x10_0000_0000_0000 % 0x800 == 0x7FF && k.bits % 0x10_0000_0000_0000 != 0
  }

  /** A table of one pair, whoever wrote it: a key that is not a number is refused, and a nil value leaves no entry. */
  lemma PairRead(k: Value, v: Value, g: Guard, st: RState)
    requires Sendable(k) && Sendable(v) && !k.Nil? && |st.ancestor| == MAX_DEPTH && st.depth == 0
    requires st.rest == [5] + (AtomCode(k) + (AtomCode(v) + [0])) && |st.rest| < 0x8000_0000
    ensures var r := UnpackOne(g, st);
            if NotANumber(k) then r == Failed
            else r.Done? && r.st.rest == [] && r.st.stack == st.stack + [Table(|st.tables|)]
                 && r.st.tables == st.tables + [if v.Nil? then map[] else map[KeptKey(k) := v]]
  {
    hide UnpackOne, AtomCode, UnpackHash, IsNaN;
    var more := AtomCode(k) + (AtomCode(v) + [0]);
    TableIsTaken(5, more, g, st);
    assert more[0..] == more;
    var st1 := OpenTable(st.(rest := more), 5);
    assert UnpackArray(g, st1, |st.tables|, 1, 0) == Done(st1);
    var st2 := st1.(depth := st1.depth - 1);
    OnePairRead(k, v, g, st2, |st.tables|);
    assert IsNaN(if k.Number? then k.bits else 0) == NotANumber(k) by { NotANumberIsNaN(k); }
    assert st1.tables[|st.tables| := map[]] == st1.tables;
  }

  lemma NotANumberIsNaN(k: Value)
    ensures IsNaN(if k.Number? then k.bits else 0) == NotANumber(k)
  {
  }

  lemma OnePairRead(k: Value, v: Value, g: Guard, st: RState, tid: nat)
    requires Sendable(k) && Sendable(v) && !k.Nil? && |st.ancestor| == MAX_DEPTH && tid < |st.tables|
    requires st.rest == AtomCode(k) + (AtomCode(v) + [0]) && |st.rest| < 0x8000_0000 && st.tables[tid] == map[]
    ensures var r := UnpackHash(g, st, tid);
            if k.Number? && IsNaN(k.bits) then r == Failed
            else r.Done? && r.st.rest == [] && r.st.stack == st.stack
                 && r.st.tables == st.tables[tid := if v.Nil? then map[] else map[KeptKey(k) := v]]
  {
    hide UnpackOne, AtomCode, IsNaN, RawSet, AtomBytes;
    var top := |st.stack|;
    AtomOnWire(k);
    AtomOnWire(v);
    ReadAtom(k, g, st, AtomCode(v) + [0]);
    var st1 := Push(st.(rest := AtomCode(v) + [0]), k);
    var st1' := st1.(depth := st1.depth + 1);
    ReadAtom(v, g, st1', [0]);
    var st2 := Push(st1'.(rest := [0]), v);
    assert st1.stack[top] == k && st2.stack[top + 1] == v;
    if !(k.Number? && IsNaN(k.bits)) {
      var st3 := Store(st2.(depth := st2.depth - 1), tid, k, v, top);
      assert st3.stack == st.stack;
      assert UnpackHash(g, st, tid) == UnpackHash(g, st3, tid);
      AtomOnWire(Nil);
      NilEnds(g, st3, tid);
      OneStored(k, v);
    }
  }

  lemma NilEnds(g: Guard, st: RState, tid: nat)
    requires |st.ancestor| == MAX_DEPTH && tid < |st.tables| && st.rest == [0]
    ensures UnpackHash(g, st, tid) == Done(st.(rest := []))
  {
    hide UnpackOne;
    assert AtomBytes(Nil) + [] == [0] by { AtomOnWire(Nil); }
    ReadAtom(Nil, g, st, []);
    assert Push(st.(rest := []), Nil).stack[..|st.stack|] == st.stack;
  }

  lemma OneStored(k: Value, v: Value)
    ensures RawSet(map[], k, v) == if v.Nil? then map[] else map[KeptKey(k) := v]
  {
  }
}
