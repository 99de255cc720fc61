/** The round trip gives the graph back exactly when every short reference uses a slot both sides agree on. */
module SeriExactly {
  import opened Bits
  import opened LuaValues
  import opened SeriFormat
  import opened SeriWalk
  import opened SeriRead
  import opened SeriFrame
  import opened SeriSimulation
  import opened SeriReplay
  import opened SeriFacts
  import opened SeriCopy
  import opened SeriSpoil
  import opened SeriDrift
  import opened SeriPositions
  import opened SeriBreak
  import opened SeriRoundTrip

  lemma {:induction false} KeptAll(g: Guard, st: RState)
    requires |st.ancestor| == MAX_DEPTH
    ensures var r := UnpackAll(g, st); r.Done? ==> KeptTables(st, r.st, -1)
    decreases |st.rest|
  {
    hide UnpackOne;
    if st.rest != [] {
      var r := UnpackOne(g, st);
      if r.Done? {
        KeptOne(g, st);
        KeptAll(g, r.st);
      }
    }
  }

  /** What is known of the arguments is known of the first and of the rest. */
  lemma FirstRoot(h: LuaHeap, vs: seq<Value>, seen: seq<nat>, final: seq<nat>, marks: set<nat>)
    requires vs != [] && ValidValues(h, vs) && Walked(VisitAll(h, vs, [], seen), final, marks)
    ensures var a := Visit(h, vs[0], [], seen);
            var b := VisitAll(h, vs[1..], [], a.seen);
            && Walked(a, final, marks) && Walked(b, final, marks) && seen <= a.seen <= final
            && Bytes(VisitAll(h, vs, [], seen).items, marks) == Bytes(a.items, marks) + Bytes(b.items, marks)
            && Bytes(a.items, marks) != []
    ensures ValidValue(h, vs[0]) && ValidValues(h, vs[1..])
  {
    hide Visit, VisitAll, Bytes, ExtTargets;
    FirstElement(h, vs, [], seen, final, marks, []);
    VisitNotEmpty(h, vs[0], [], seen, marks);
    NothingMore(Bytes(VisitAll(h, vs, [], seen).items, marks));
    NothingMore(Bytes(VisitAll(h, vs[1..], [], Visit(h, vs[0], [], seen).seen).items, marks));
  }

  lemma NothingMore(b: seq<byte>)
    ensures b + [] == b
  {
  }

  /** An argument on which both sides agree leaves both in place. */
  lemma RootAgrees(h: LuaHeap, v: Value, seen: seq<nat>, final: seq<nat>, marks: set<nat>, g: Guard, st: RState,
                   tail: seq<byte>)
    requires Complete(h, final) && ValidValue(h, v) && Agrees(h, v, [], seen, TOP)
    requires Walked(Visit(h, v, [], seen), final, marks) && InPlace(st, [], seen, final, marks, TOP, [])
    requires st.rest == Bytes(Visit(h, v, [], seen).items, marks) + tail && |st.rest| < TWO_31
    ensures var r := UnpackOne(g, st);
            r.Done? ==> r.st.rest == tail && InPlace(r.st, [], Visit(h, v, [], seen).seen, final, marks, TOP, [])
  {
    hide Visit, UnpackOne, Bytes, Agrees, Positions, SlotsAgree, RefsKnown, ExtTargets;
    ReplayVisit(h, v, [], seen, TOP, final, marks, g, st, tail);
    var r := UnpackOne(g, st);
    if r.Done? {
      var seen' := Visit(h, v, [], seen).seen;
      StillRelated(st, r.st, -1, h, [], seen, seen', final, marks, tail, TOP);
      PositionsDistinctly(st, [], seen, final, TOP, []);
      RootPositions(st, r.st, seen, seen', final);
    }
  }

  lemma RootPositions(st: RState, st': RState, seen: seq<nat>, seen': seq<nat>, final: seq<nat>)
    requires Positions(st, [], seen, final, TOP, []) && seen' <= final
    requires st'.depth == st.depth && |st'.ancestor| == MAX_DEPTH
    ensures Positions(st', [], seen', final, TOP, [])
  {
  }

  /** The loop of seri_unpack over the top-level values, when some slot is not the same on both sides. */
  lemma {:induction false} BreakRoots(h: LuaHeap, vs: seq<Value>, seen: seq<nat>, final: seq<nat>, marks: set<nat>,
                                      g: Guard, st: RState)
    requires Complete(h, final) && ValidValues(h, vs) && !AgreesAll(h, vs, [], seen, TOP)
    requires Walked(VisitAll(h, vs, [], seen), final, marks) && InPlace(st, [], seen, final, marks, TOP, [])
    requires st.rest == Bytes(VisitAll(h, vs, [], seen).items, marks) && |st.rest| < TWO_31
    ensures var r := UnpackAll(g, st); r.Done? ==> Wrong(r.st, |seen|, h, final)
    decreases |vs|
  {
    hide Visit, VisitAll, UnpackOne, Bytes, Agrees, Complete, Wrong, Positions, SlotsAgree, RefsKnown, Walked,
         KeptTables;
    var a := Visit(h, vs[0], [], seen);
    var tail := Bytes(VisitAll(h, vs[1..], [], a.seen).items, marks);
    FirstRoot(h, vs, seen, final, marks);
    var r := UnpackOne(g, st);
    if r.Done? {
      var r' := UnpackAll(g, r.st);
      KeptAll(g, r.st);
      if Agrees(h, vs[0], [], seen, TOP) {
        RootAgrees(h, vs[0], seen, final, marks, g, st, tail);
        BreakRoots(h, vs[1..], a.seen, final, marks, g, r.st);
        if r'.Done? {
          WrongFrom(r'.st, |a.seen|, |seen|, h, final);
        }
      } else {
        BreakVisit(h, vs[0], [], seen, TOP, [], final, marks, g, st, tail);
        if r'.Done? {
          WrongStays(r.st, r'.st, -1, |seen|, |seen|, h, final);
        }
      }
    }
  }

  /** A short reference through any other slot is never made good: the reader stops, or some table it leaves behind
      is no copy of its original. */
  lemma BreakAll(h: LuaHeap, roots: seq<Value>, g: Guard, garbage: seq<nat>)
    requires Encodable(h, roots) && !AgreesAll(h, roots, [], [], TOP) && |garbage| == MAX_DEPTH
    ensures var r := UnpackAll(g, Start(Payload(h, roots), garbage));
            r.Done? ==> Wrong(r.st, 0, h, Pack(h, roots).seen)
  {
    hide Visit, VisitAll, UnpackAll, UnpackOne, Bytes, AtomBytes, ExtTargets, Slots, Agrees, AgreesAll, Positions;
    var w := Pack(h, roots);
    var st := Start(Payload(h, roots), garbage);
    VisitAllCovers(h, roots, [], []);
    SeenFitsPayload(h, roots, [], [], ExtTargets(w.items));
    forall id | id in w.seen ensures id in h && KeysNumbered(h[id].pairs, w.seen) {
      KeysAreNumbered(h, id, w.seen);
    }
    NoPositions(st, w.seen);
    BreakRoots(h, roots, [], w.seen, ExtTargets(w.items), g, st);
  }

  lemma WrongIsNoCopy(h: LuaHeap, roots: seq<Value>, final: seq<nat>, st: RState)
    requires Wrong(st, 0, h, final)
    ensures !SameGraphWithoutLost(h, roots, final, st) && !SameGraph(h, roots, final, st)
  {
    hide Lost;
  }

  /** Packing and unpacking gives the graph back exactly when the guard lets every reference through and every short
      reference uses a slot that is the same on both sides; and all of it exactly when, besides, nothing is lost. */
  lemma RoundTripExactly(h: LuaHeap, roots: seq<Value>, g: Guard, garbage: seq<nat>)
    requires Encodable(h, roots) && |garbage| == MAX_DEPTH
    ensures var r := UnpackAll(g, Start(Payload(h, roots), garbage));
            var w := Pack(h, roots);
            && (r.Done? && SameGraphWithoutLost(h, roots, w.seen, r.st)
                <==> Passes(g, w.items) && AgreesAll(h, roots, [], [], TOP))
            && (r.Done? && SameGraph(h, roots, w.seen, r.st)
                <==> Passes(g, w.items) && AgreesAll(h, roots, [], [], TOP) && NothingLost(h, Ids(w.seen)))
  {
    hide Visit, VisitAll, UnpackAll, Payload, ExtTargets, AgreesAll, SameGraphWithoutLost, SameGraph, Wrong,
         NothingLost;
    var r := UnpackAll(g, Start(Payload(h, roots), garbage));
    if AgreesAll(h, roots, [], [], TOP) {
      GuardedRoundTrip(h, roots, g, garbage);
    } else {
      BreakAll(h, roots, g, garbage);
      if r.Done? {
        WrongIsNoCopy(h, roots, Pack(h, roots).seen, r.st);
      }
    }
  }
}
