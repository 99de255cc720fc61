/** What reading leaves alone, on every byte string. */
module SeriFrame {
  import opened Bits
  import opened LuaValues
  import opened SeriFormat
  import opened SeriRead

  /** Of the tables there were only `current` has changed; the ancestor slots below the depth are as before, and the
      others are as before or lead above the old top of the stack. */
  ghost predicate Kept(st: RState, st': RState, current: int)
  {
    && |st.ancestor| == |st'.ancestor| == MAX_DEPTH && |st.tables| <= |st'.tables| && st'.depth == st.depth
    && (forall j :: 0 <= j < |st.tables| && j != current ==> st'.tables[j] == st.tables[j])
    && (forall i :: 0 <= i < MAX_DEPTH ==>
          st'.ancestor[i] == st.ancestor[i] || (i >= st.depth && st'.ancestor[i] >= |st.stack|))
  }

  lemma KeptAcross(a: RState, b: RState, c: RState, current: int)
    requires Kept(a, b, current) && Kept(b, c, current) && |a.stack| <= |b.stack|
    ensures Kept(a, c, current)
  {
  }

  lemma {:induction false} KeptOne(g: Guard, st: RState)
    requires |st.ancestor| == MAX_DEPTH
    ensures var r := UnpackOne(g, st); r.Done? ==> Kept(st, r.st, -1)
    decreases |st.rest|, 0
  {
    if st.rest != [] {
      var st0 := st.(rest := st.rest[1..]);
      var kind, cookie := st.rest[0] % 8, st.rest[0] / 8;
      if kind == TYPE_TABLE || kind == TYPE_TABLE_MARK {
        KeptTable(g, st0, cookie, kind);
      }
    }
  }

  lemma {:induction false} KeptTable(g: Guard, st: RState, cookie: nat, kind: nat)
    requires |st.ancestor| == MAX_DEPTH
    ensures var r := UnpackTable(g, st, cookie, kind);
            r.Done? ==> Kept(st, r.st, -1) && (st.depth < MAX_DEPTH ==> r.st.ancestor[st.depth] >= |st.stack|)
    decreases |st.rest|, 3
  {
    hide UnpackArray, UnpackHash, UnpackOne, ArraySize, Kept;
    var size := ArraySize(cookie, st.rest);
    if size.Got? {
      var tid := |st.tables|;
      var st1 := OpenTable(st.(rest := size.rest), kind);
      KeptArray(g, st1, tid, 1, size.value);
      var r := UnpackArray(g, st1, tid, 1, size.value);
      if r.Done? {
        var st2 := r.st.(depth := r.st.depth - 1);
        KeptHash(g, st2, tid);
        if UnpackHash(g, st2, tid).Done? {
          KeptOpen(st, st1, r.st, UnpackHash(g, st2, tid).st, size.rest, kind);
        }
      }
    }
  }

  lemma KeptOpen(st: RState, st1: RState, st2: RState, st3: RState, rest: seq<byte>, kind: nat)
    requires |st.ancestor| == MAX_DEPTH && st1 == OpenTable(st.(rest := rest), kind)
    requires Kept(st1, st2, |st.tables|) && st2.depth > 0 && st2.stack == st1.stack
    requires Kept(st2.(depth := st2.depth - 1), st3, |st.tables|)
    ensures Kept(st, st3, -1) && (st.depth < MAX_DEPTH ==> st3.ancestor[st.depth] >= |st.stack|)
  {
  }

  lemma {:induction false} KeptArray(g: Guard, st: RState, tid: nat, i: int, size: int)
    requires |st.ancestor| == MAX_DEPTH && tid < |st.tables|
    ensures var r := UnpackArray(g, st, tid, i, size); r.Done? ==> Kept(st, r.st, tid)
    decreases |st.rest|, 1
  {
    if i <= size {
      KeptOne(g, st);
      match UnpackOne(g, st)
      case Failed =>
      case Done(st1) =>
        var st2 := Store(st1, tid, IndexKey(i), st1.stack[|st.stack|], |st.stack|);
        KeptArray(g, st2, tid, i + 1, size);
    }
  }

  /** A key, then a value one level deeper, then the store. */
  lemma KeptPair(st: RState, st1: RState, st2: RState, tid: nat, k: Value, v: Value, top: nat)
    requires Kept(st, st1, -1) && Kept(st1.(depth := st1.depth + 1), st2, -1) && tid < |st.tables|
    requires |st.stack| <= |st1.stack| && top <= |st2.stack|
    ensures Kept(st, Store(st2.(depth := st2.depth - 1), tid, k, v, top), tid)
  {
  }

  /** One turn of the loop over the pairs. */
  lemma HashTurn(g: Guard, st: RState, tid: nat) returns (st': RState)
    requires |st.ancestor| == MAX_DEPTH && tid < |st.tables| && UnpackHash(g, st, tid).Done?
    ensures st'.stack == st.stack && Kept(st, st', tid) && |st'.rest| < |st.rest|
    ensures UnpackHash(g, st, tid) == Done(st') || UnpackHash(g, st, tid) == UnpackHash(g, st', tid)
    decreases |st.rest|, 1
  {
    hide Kept, UnpackOne;
    var top := |st.stack|;
    KeptOne(g, st);
    var st1 := UnpackOne(g, st).st;
    var k := st1.stack[top];
    if k.Nil? {
      st' := st1.(stack := st1.stack[..top]);
      KeptCut(st, st1, top, tid);
    } else {
      KeptOne(g, st1.(depth := st1.depth + 1));
      var st2 := UnpackOne(g, st1.(depth := st1.depth + 1)).st;
      st' := Store(st2.(depth := st2.depth - 1), tid, k, st2.stack[top + 1], top);
      KeptPair(st, st1, st2, tid, k, st2.stack[top + 1], top);
    }
  }

  lemma KeptCut(st: RState, st1: RState, top: nat, tid: nat)
    requires Kept(st, st1, -1) && top <= |st1.stack|
    ensures Kept(st, st1.(stack := st1.stack[..top]), tid)
  {
  }

  lemma {:induction false} KeptHash(g: Guard, st: RState, tid: nat)
    requires |st.ancestor| == MAX_DEPTH && tid < |st.tables|
    ensures var r := UnpackHash(g, st, tid); r.Done? ==> Kept(st, r.st, tid)
    decreases |st.rest|, 2
  {
    hide UnpackHash, UnpackOne;
    var r := UnpackHash(g, st, tid);
    if r.Done? {
      var st' := HashTurn(g, st, tid);
      if r != Done(st') {
        KeptLengths(st, st', tid);
        KeptHash(g, st', tid);
        KeptAcross(st, st', r.st, tid);
      }
    }
  }

  lemma KeptLengths(st: RState, st': RState, current: int)
    requires Kept(st, st', current)
    ensures |st'.ancestor| == MAX_DEPTH && |st.tables| <= |st'.tables|
  {
  }

  /** Of the tables there were only `current` has changed. */
  ghost predicate KeptTables(st: RState, st': RState, current: int)
  {
    |st.tables| <= |st'.tables| && forall j :: 0 <= j < |st.tables| && j != current ==> st'.tables[j] == st.tables[j]
  }

  /** What follows the first element of an array part. */
  lemma AfterElement(g: Guard, st: RState, tid: nat, i: int, size: int)
    requires |st.ancestor| == MAX_DEPTH && tid < |st.tables| && i <= size
    requires UnpackOne(g, st).Done? && UnpackArray(g, st, tid, i, size).Done?
    ensures KeptTables(UnpackOne(g, st).st, UnpackArray(g, st, tid, i, size).st, tid)
  {
    hide UnpackOne;
    var st1 := UnpackOne(g, st).st;
    KeptArray(g, Store(st1, tid, IndexKey(i), st1.stack[|st.stack|], |st.stack|), tid, i + 1, size);
  }

  /** What follows the first key of the pairs. */
  lemma AfterFirstKey(g: Guard, st: RState, tid: nat)
    requires |st.ancestor| == MAX_DEPTH && tid < |st.tables| && UnpackHash(g, st, tid).Done?
    ensures UnpackOne(g, st).Done? && KeptTables(UnpackOne(g, st).st, UnpackHash(g, st, tid).st, tid)
  {
    hide UnpackOne;
    var st1 := UnpackOne(g, st).st;
    if !st1.stack[|st.stack|].Nil? {
      KeptOne(g, st1.(depth := st1.depth + 1));
      AfterFirstValue(g, st, tid);
    }
  }

  /** What follows the first value of the pairs. */
  lemma AfterFirstValue(g: Guard, st: RState, tid: nat)
    requires |st.ancestor| == MAX_DEPTH && tid < |st.tables| && UnpackHash(g, st, tid).Done?
    requires UnpackOne(g, st).Done? && !UnpackOne(g, st).st.stack[|st.stack|].Nil?
    ensures var st1 := UnpackOne(g, st).st;
            var r := UnpackOne(g, st1.(depth := st1.depth + 1));
            r.Done? && KeptTables(r.st, UnpackHash(g, st, tid).st, tid)
  {
    hide UnpackOne;
    var st1 := UnpackOne(g, st).st;
    var st2 := UnpackOne(g, st1.(depth := st1.depth + 1)).st;
    KeptHash(g, Store(st2.(depth := st2.depth - 1), tid, st1.stack[|st.stack|], st2.stack[|st.stack| + 1], |st.stack|),
             tid);
  }
}
