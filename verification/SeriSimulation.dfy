/** The reader follows the writer: on the bytes of a walk it rebuilds, table by table, what was walked. */
module SeriSimulation {
  import opened Bits
  import opened LuaValues
  import opened SeriFormat
  import opened SeriWalk
  import opened SeriRead

  ghost predicate NoDuplicates(s: seq<nat>)
  {
    forall i, j :: 0 <= i < j < |s| ==> s[i] != s[j]
  }

  // ---------- what the reader should build ----------

  /** The object number of a table in the final numbering. */
  function Num(final: seq<nat>, id: nat): nat
  {
    if id in final then IndexOf(final, id) else 0
  }

  /** The reader's copy of a value: tables are renamed to their object numbers. */
  function Image(final: seq<nat>, v: Value): Value
  {
    if v.Table? then Table(Num(final, v.id)) else v
  }

  function Images(final: seq<nat>, vs: seq<Value>): seq<Value>
  {
    seq(|vs|, i requires 0 <= i < |vs| => Image(final, vs[i]))
  }

  function StoreArray(m: Entries, vs: seq<Value>, i: int, final: seq<nat>): Entries
    decreases |vs|
  {
    if vs == [] then m else StoreArray(RawSet(m, IndexKey(i), Image(final, vs[0])), vs[1..], i + 1, final)
  }

  function StorePairs(m: Entries, pairs: seq<(Value, Value)>, final: seq<nat>): Entries
    decreases |pairs|
  {
    if pairs == [] then m
    else StorePairs(RawSet(m, Image(final, pairs[0].0), Image(final, pairs[0].1)), pairs[1..], final)
  }

  /** The stores made for one table: its array part, then its remaining pairs. */
  function Built(t: TableObj, final: seq<nat>): Entries
  {
    StorePairs(StoreArray(map[], ArrayPart(t), 1, final), HashPart(t), final)
  }

  // ---------- where the two ancestor stacks agree ----------

  /** The writer visits a table's keys one level deeper than the reader does. `key` is the writer's depth of the
      table whose key is being written, if any, and `bad` the depths whose slot a finished table key has overwritten
      in the reader. */
  datatype Context = Context(key: Option<nat>, bad: set<nat>)

  const TOP := Context(None, {})

  predicate Usable(c: Context, i: nat) { i !in c.bad && (c.key.Some? ==> i < c.key.value) }

  function InKey(c: Context, depth: nat): Context
  {
    c.(key := Some(if c.key.Some? && c.key.value < depth then c.key.value else depth))
  }

  function AfterKey(c: Context, depth: nat, isNew: bool): Context
  {
    if isNew then c.(bad := c.bad + {depth}) else c
  }

  /** Every short reference uses a slot in which both stacks hold the same table. */
  ghost predicate Agrees(h: LuaHeap, v: Value, open: seq<nat>, seen: seq<nat>, c: Context)
    decreases Unseen(h, seen), 0
  {
    v.Table? ==>
      if ShortRef(open, v.id).Some? then Usable(c, ShortRef(open, v.id).value)
      else v.id !in seen && v.id in h ==>
        (UnseenShrinks(h, seen, seen + [v.id]);
         var a := VisitAll(h, ArrayPart(h[v.id]), open + [v.id], seen + [v.id]);
         UnseenShrinks(h, seen + [v.id], a.seen);
         && AgreesAll(h, ArrayPart(h[v.id]), open + [v.id], seen + [v.id], c)
         && AgreesPairs(h, HashPart(h[v.id]), open + [v.id], a.seen, c))
  }

  ghost predicate AgreesAll(h: LuaHeap, vs: seq<Value>, open: seq<nat>, seen: seq<nat>, c: Context)
    decreases Unseen(h, seen), |vs|
  {
    vs == [] ||
    (var a := Visit(h, vs[0], open, seen);
     UnseenShrinks(h, seen, a.seen);
     && Agrees(h, vs[0], open, seen, c)
     && AgreesAll(h, vs[1..], open, a.seen, c))
  }

  ghost predicate AgreesPairs(h: LuaHeap, pairs: seq<(Value, Value)>, open: seq<nat>, seen: seq<nat>, c: Context)
    decreases Unseen(h, seen), |pairs|
  {
    open == [] || pairs == [] ||
    (var a := Visit(h, pairs[0].0, open, seen);
     UnseenShrinks(h, seen, a.seen);
     var b := Visit(h, pairs[0].1, open, a.seen);
     UnseenShrinks(h, a.seen, b.seen);
     var c' := AfterKey(c, |open| - 1, a.seen != seen);
     && Agrees(h, pairs[0].0, open, seen, InKey(c, |open| - 1))
     && Agrees(h, pairs[0].1, open, a.seen, c')
     && AgreesPairs(h, pairs[1..], open, b.seen, c'))
  }

  // ---------- the relation between the two sides ----------

  /** Every marked table created so far is registered under its object number plus one. */
  ghost predicate RefsKnown(refs: Option<map<int, nat>>, n: nat, marks: set<nat>)
  {
    forall j :: 0 <= j < n && j in marks ==> refs.Some? && j + 1 in refs.value && refs.value[j + 1] == j
  }

  ghost predicate SlotsAgree(st: RState, open: seq<nat>, final: seq<nat>, c: Context)
    requires |st.ancestor| == MAX_DEPTH
  {
    forall i :: 0 <= i < |open| && i < MAX_DEPTH && Usable(c, i) ==>
      i < st.depth && StackAt(st.stack, st.ancestor[i]) == Table(Num(final, open[i]))
      && st.ancestor[i] < |st.stack|
  }

  ghost predicate Related(st: RState, open: seq<nat>, seen: seq<nat>, final: seq<nat>, marks: set<nat>, c: Context)
  {
    && |st.ancestor| == MAX_DEPTH
    && |st.tables| == |seen|
    && RefsKnown(st.refs, |seen|, marks)
    && (if c.key.Some? then c.key.value <= st.depth && c.key.value < |open| else st.depth == |open|)
    && SlotsAgree(st, open, final, c)
  }

  /** From st the reader has consumed exactly the bytes before `tail` and built the tables visited since `seen`;
      of the older tables only `current` has changed, and no slot in use was touched. */
  ghost predicate Reads(st: RState, st': RState, current: int, h: LuaHeap, seen: seq<nat>, seen': seq<nat>,
                        final: seq<nat>, marks: set<nat>, tail: seq<byte>)
  {
    && st'.rest == tail
    && |st.tables| == |seen| <= |seen'| == |st'.tables| <= |final|
    && (forall j :: 0 <= j < |seen| && j != current ==> st'.tables[j] == st.tables[j])
    && (forall j :: |seen| <= j < |seen'| ==> final[j] in h && st'.tables[j] == Built(h[final[j]], final))
    && RefsKnown(st'.refs, |seen'|, marks)
    && st'.depth == st.depth
    && |st'.ancestor| == |st.ancestor| == MAX_DEPTH
    && (forall i :: 0 <= i < MAX_DEPTH && i < st.depth ==> st'.ancestor[i] == st.ancestor[i])
    && (seen' == seen ==> st'.ancestor == st.ancestor)
  }

  /** The guard lets the items through: the intended one always, the one as written without extended references. */
  ghost predicate Passes(g: Guard, items: seq<Item>) { g == Intended || ExtTargets(items) == {} }

  /** What is fixed during a run: the heap, the final numbering, the marks. */
  ghost predicate Fixed(h: LuaHeap, final: seq<nat>)
  {
    ValidHeap(h) && NoDuplicates(final) && |final| < TWO_31
  }

  lemma IndexOfPosition(s: seq<nat>, j: nat)
    requires NoDuplicates(s) && j < |s|
    ensures IndexOf(s, s[j]) == j
  {
  }

  lemma {:induction false} IndexOfPrefix(s: seq<nat>, final: seq<nat>, id: nat)
    requires NoDuplicates(final) && s <= final && id in s
    ensures id in final && IndexOf(s, id) == IndexOf(final, id) == Num(final, id)
  {
    IndexOfPosition(final, IndexOf(s, id));
  }

  // ---------- the simulation, one lemma per form ----------

  lemma FirstByte(t: byte, more: seq<byte>, g: Guard, st: RState)
    requires |st.ancestor| == MAX_DEPTH && st.rest == [t] + more
    ensures UnpackOne(g, st) == PushValue(g, st.(rest := more), t % 8, t / 8)
  {
    assert st.rest[1..] == more;
  }

  lemma ReadAtom(v: Value, g: Guard, st: RState, tail: seq<byte>)
    requires !v.Table? && !v.Unsupported?
    requires |st.ancestor| == MAX_DEPTH
    requires st.rest == AtomBytes(v) + tail && |st.rest| < TWO_31
    ensures UnpackOne(g, st) == Done(Push(st.(rest := tail), v))
  {
    GetAtomOfBytes(v, tail);
    var b := AtomBytes(v);
    assert st.rest[0] == b[0] && st.rest[1..] == b[1..] + tail;
  }

  /** A usable short reference leads to the same table on both sides. */
  lemma ReadShort(index: nat, open: seq<nat>, seen: seq<nat>, c: Context, final: seq<nat>, marks: set<nat>,
                  g: Guard, st: RState, tail: seq<byte>)
    requires Related(st, open, seen, final, marks, c)
    requires index < |open| < MAX_DEPTH && Usable(c, index)
    requires st.rest == ItemBytes(Short(index), marks) + tail
    ensures UnpackOne(g, st) == Done(Push(st.(rest := tail), Table(Num(final, open[index]))))
  {
    hide UnpackOne, UnpackTable, GetAtom, GetExtendInteger, Num, RefsKnown;
    FirstByte(Tag(TYPE_REF, index), tail, g, st);
  }

  /** An extended reference leads to the table registered under its number, or trips the guard as written. */
  lemma ReadExt(target: nat, g: Guard, st: RState, marks: set<nat>, tail: seq<byte>)
    requires |st.ancestor| == MAX_DEPTH
    requires RefsKnown(st.refs, |st.tables|, marks)
    requires target < |st.tables| && target in marks && target + 1 < TWO_31
    requires st.rest == ItemBytes(Ext(target), marks) + tail
    ensures UnpackOne(g, st) == if g == Intended then Done(Push(st.(rest := tail), Table(target))) else Failed
  {
    var b := IntegerBytes(target + 1);
    var t := Tag(TYPE_REF, EXTEND_NUMBER);
    hide UnpackOne, UnpackTable, GetAtom, GetExtendInteger, IntegerBytes;
    ConcatAssoc([t], b, tail);
    FirstByte(t, b + tail, g, st);
    GetExtendIntegerOfBytes(target + 1, tail);
  }

  /** The tag of a first visit gives back its kind and its size, in the cookie or after it. */
  lemma OpenTagBack(size: nat, marked: bool, tail: seq<byte>) returns (t: byte, more: seq<byte>)
    requires size < TWO_31
    ensures OpenBytes(size, marked) + tail == [t] + more
    ensures t % 8 == (if marked then TYPE_TABLE_MARK else TYPE_TABLE) && ArraySize(t / 8, more) == Got(size, tail)
  {
    var kind := if marked then TYPE_TABLE_MARK else TYPE_TABLE;
    if size >= EXTEND_NUMBER {
      t, more := Tag(kind, EXTEND_NUMBER), IntegerBytes(size) + tail;
      ConcatAssoc([t], IntegerBytes(size), tail);
      GetExtendIntegerOfBytes(size, tail);
    } else {
      t, more := Tag(kind, size), tail;
    }
  }

  lemma ReadOpenTag(size: nat, marked: bool, g: Guard, st: RState, st1: RState, tid: nat, tail: seq<byte>)
    requires |st.ancestor| == MAX_DEPTH && size < TWO_31 && tid == |st.tables|
    requires st.rest == OpenBytes(size, marked) + tail
    requires st1 == OpenTable(st.(rest := tail), if marked then TYPE_TABLE_MARK else TYPE_TABLE)
    ensures UnpackOne(g, st) == match UnpackArray(g, st1, tid, 1, size)
                                case Failed => Failed
                                case Done(st2) => UnpackHash(g, st2.(depth := st2.depth - 1), tid)
  {
    hide UnpackOne, UnpackArray, UnpackHash, UnpackRef, GetAtom, OpenBytes;
    var kind := if marked then TYPE_TABLE_MARK else TYPE_TABLE;
    var t, more := OpenTagBack(size, marked, tail);
    FirstByte(t, more, g, st);
    var st0 := st.(rest := more);
    assert UnpackOne(g, st) == UnpackTable(g, st0, t / 8, kind);
    assert OpenTable(st0.(rest := tail), kind) == st1;
  }

  // ---------- putting the forms together ----------

  /** What has been read keeps the two sides related. */
  lemma StillRelated(st: RState, st': RState, current: int, h: LuaHeap, open: seq<nat>, seen: seq<nat>, seen': seq<nat>,
                     final: seq<nat>, marks: set<nat>, tail: seq<byte>, c: Context)
    requires Related(st, open, seen, final, marks, c)
    requires Reads(st, st', current, h, seen, seen', final, marks, tail) && st.stack <= st'.stack
    ensures Related(st', open, seen', final, marks, c)
  {
  }

  lemma ReadsCompose(a: RState, b: RState, c: RState, current: int, h: LuaHeap, s0: seq<nat>, s1: seq<nat>,
                     s2: seq<nat>, final: seq<nat>, marks: set<nat>, t1: seq<byte>, t2: seq<byte>)
    requires Reads(a, b, current, h, s0, s1, final, marks, t1) && Reads(b, c, current, h, s1, s2, final, marks, t2)
    requires s0 <= s1 <= s2 && current < |s0|
    ensures Reads(a, c, current, h, s0, s2, final, marks, t2)
  {
  }

  /** Storing into the current table changes nothing Reads speaks of. */
  lemma ReadsStore(st: RState, st': RState, tid: nat, k: Value, v: Value, top: nat, h: LuaHeap, seen: seq<nat>,
                   seen': seq<nat>, final: seq<nat>, marks: set<nat>, tail: seq<byte>)
    requires Reads(st, st', -1, h, seen, seen', final, marks, tail)
    requires tid < |seen| && top <= |st'.stack|
    ensures Reads(st, Store(st', tid, k, v, top), tid, h, seen, seen', final, marks, tail)
  {
  }

  lemma OpenRelated(id: nat, st: RState, st0: RState, open: seq<nat>, seen: seq<nat>, final: seq<nat>, marks: set<nat>,
                    c: Context)
    requires NoDuplicates(final) && seen + [id] <= final
    requires Related(st, open, seen, final, marks, c) && st0 == st.(rest := st0.rest)
    ensures Related(OpenTable(st0, if |seen| in marks then TYPE_TABLE_MARK else TYPE_TABLE), open + [id], seen + [id],
                    final, marks, c)
  {
    assert final[|seen|] == id;
    IndexOfPosition(final, |seen|);
  }

  /** The hash pass visits exactly the pairs the array pass has not covered. */
  lemma {:induction false} EmittedExactly(pairs: seq<(Value, Value)>, border: nat, p: (Value, Value))
    ensures p in EmittedPairs(pairs, border) <==> p in pairs && !Skipped(p.0, border)
  {
    if pairs != [] {
      EmittedExactly(pairs[1..], border, p);
      assert pairs == [pairs[0]] + pairs[1..];
    }
  }

  lemma {:induction false} HashPartValid(h: LuaHeap, pairs: seq<(Value, Value)>, border: nat)
    requires ValidPairs(h, pairs)
    ensures ValidPairs(h, EmittedPairs(pairs, border))
  {
    if pairs != [] {
      HashPartValid(h, pairs[1..], border);
      var e := EmittedPairs(pairs[1..], border);
      forall i | 0 <= i < |e| ensures e[i].0 != pairs[0].0 {
        EmittedExactly(pairs[1..], border, e[i]);
      }
    }
  }

  lemma ArrayPartValid(h: LuaHeap, t: TableObj)
    requires ValidPairs(h, t.pairs)
    ensures ValidValues(h, ArrayPart(t))
  {
    hide RawGet, OfInteger, ToInteger, EmittedPairs, ValidPairs;
    forall i | 0 <= i < t.border ensures ValidValue(h, ArrayPart(t)[i]) {
      RawGetValid(h, t.pairs, IndexKey(i + 1));
    }
  }
}
