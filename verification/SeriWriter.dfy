/** The writer of src/lua-seri.c, step by step, and that it writes the payload of the walk. */
module SeriWriter {
  import opened Bits
  import opened LuaValues
  import opened SeriFormat
  import opened SeriWalk
  import opened SeriSimulation
  import opened SeriBlocks
  import opened SeriRefs
  import opened SeriMarks

  class WriteBlock {
    const chain: BlockChain
    const refs: RefIndex
    var depth: int
    const ancestor: array<nat>
    /** The tables being written, the items written, and where the tag of each object is. */
    ghost var open: seq<nat>
    ghost var items: seq<Item>
    ghost var tagPos: seq<nat>

    ghost predicate Apart()
      reads this, chain
    {
      && this !in chain.Repr && refs !in chain.Repr && refs.r !in chain.Repr && ancestor !in chain.Repr
      && ancestor as object != refs.r && ancestor.Length == MAX_DEPTH
    }

    /** Every object's tag is where its address says. */
    ghost predicate TagsFound()
      reads this, chain, refs
    {
      && |tagPos| == |refs.seen| == |refs.tags|
      && forall i :: 0 <= i < |tagPos| ==> TagAt(items, i, tagPos[i]) && chain.Points(refs.tags[i], tagPos[i])
    }

    ghost predicate StackHeld()
      reads this, ancestor
    {
      depth == |open| && forall i :: 0 <= i < |open| && i < ancestor.Length ==> ancestor[i] == open[i]
    }

    ghost predicate Valid()
      reads this, chain, chain.Repr, refs, refs.r, ancestor
    {
      Consistent({})
    }

    /** The chain holds the items written, with the marks of their extended references and of those pending. */
    ghost predicate Consistent(pending: set<nat>)
      reads this, chain, chain.Repr, refs, refs.r, ancestor
    {
      && Apart() && chain.Valid() && refs.Valid() && StackHeld() && TagsFound()
      && chain.contents == Bytes(items, refs.marked)
      && refs.marked == ExtTargets(items) + pending
      && OpensOnce(items, |refs.seen|)
      && forall n :: n in refs.marked ==> n < |refs.seen|
    }

    constructor ()
      ensures Valid() && fresh(chain) && fresh(chain.Repr) && fresh(refs) && fresh(refs.r) && fresh(ancestor)
      ensures items == [] && open == [] && refs.seen == []
    {
      chain := new BlockChain();
      refs := new RefIndex();
      depth := 0;
      ancestor := new nat[MAX_DEPTH];
      open, items, tagPos := [], [], [];
    }

    // ---------- bytes ----------

    /** wb_integer */
    method WbInteger(v: int)
      requires chain.Valid()
      modifies chain.Repr
      ensures chain.Valid() && fresh(chain.Repr - old(chain.Repr)) && old(chain.Repr) <= chain.Repr
      ensures chain.contents == old(chain.contents) + IntegerBytes(v) && old(chain.blocks) <= chain.blocks
    {
      if v == 0 {
        PushTag(TYPE_NUMBER, NUMBER_ZERO, []);
      } else if v != ToInt32(v) {
        Int32Range(v);
        PushTag(TYPE_NUMBER, NUMBER_QWORD, LE(Unsigned(v, 8), 8));
      } else {
        Int32Range(v);
        if v < 0 {
          PushTag(TYPE_NUMBER, NUMBER_DWORD, LE(Unsigned(v, 4), 4));
        } else if v < 0x100 {
          PushTag(TYPE_NUMBER, NUMBER_BYTE, LE(v, 1));
        } else if v < 0x10000 {
          PushTag(TYPE_NUMBER, NUMBER_WORD, LE(v, 2));
        } else {
          PushTag(TYPE_NUMBER, NUMBER_DWORD, LE(v, 4));
        }
      }
    }

    lemma Int32Range(v: int)
      ensures v == ToInt32(v) <==> -TWO_31 <= v < TWO_31
    {
      assert Pow256(4) == TWO_32;
    }

    /** A tag byte and what follows it, pushed one after the other. */
    method PushTag(kind: nat, cookie: nat, more: seq<byte>)
      requires chain.Valid() && kind < 8 && cookie < MAX_COOKIE
      modifies chain.Repr
      ensures chain.Valid() && fresh(chain.Repr - old(chain.Repr)) && old(chain.Repr) <= chain.Repr
      ensures chain.contents == old(chain.contents) + ([Tag(kind, cookie)] + more) && old(chain.blocks) <= chain.blocks
    {
      ghost var c, b := chain.contents, chain.blocks;
      chain.Push([Tag(kind, cookie)]);
      ghost var b' := chain.blocks;
      if more != [] {
        chain.Push(more);
        PrefixTransitive(b, b', chain.blocks);
      }
      ConcatAssoc(c, [Tag(kind, cookie)], more);
      assert [Tag(kind, cookie)] + [] == [Tag(kind, cookie)];
    }

    /** wb_string */
    method WbString(s: seq<byte>)
      requires chain.Valid()
      modifies chain.Repr
      ensures chain.Valid() && fresh(chain.Repr - old(chain.Repr)) && old(chain.Repr) <= chain.Repr
      ensures chain.contents == old(chain.contents) + StringBytes(s) && old(chain.blocks) <= chain.blocks
    {
      if |s| < MAX_COOKIE {
        PushTag(TYPE_SHORT_STRING, |s|, s);
      } else {
        ghost var c, b := chain.contents, chain.blocks;
        ghost var head;
        if |s| < 0x10000 {
          head := [Tag(TYPE_LONG_STRING, 2)] + LE(|s|, 2);
          PushTag(TYPE_LONG_STRING, 2, LE(|s|, 2));
        } else {
          head := [Tag(TYPE_LONG_STRING, 4)] + LE(|s|, 4);
          PushTag(TYPE_LONG_STRING, 4, LE(|s|, 4));
        }
        ghost var b' := chain.blocks;
        chain.Push(s);
        PrefixTransitive(b, b', chain.blocks);
        ConcatAssoc(c, head, s);
      }
    }

    /** wb_nil, wb_boolean, wb_real, wb_pointer, wb_string: the cases of pack_one that are not tables. */
    method WbAtom(v: Value)
      requires chain.Valid() && !v.Table? && !v.Unsupported?
      modifies chain.Repr
      ensures chain.Valid() && fresh(chain.Repr - old(chain.Repr)) && old(chain.Repr) <= chain.Repr
      ensures chain.contents == old(chain.contents) + AtomBytes(v) && old(chain.blocks) <= chain.blocks
    {
      match v
      case Nil => PushTag(TYPE_BOOLEAN, BOOLEAN_NIL, []);
      case Boolean(b) => PushTag(TYPE_BOOLEAN, if b then BOOLEAN_TRUE else BOOLEAN_FALSE, []);
      case Number(d) => PushTag(TYPE_NUMBER, NUMBER_REAL, LE(d, 8));
      case Pointer(p) => PushTag(TYPE_USERDATA, USERDATA_POINTER, LE(p, 8));
      case CFunction(p) => PushTag(TYPE_USERDATA, USERDATA_CFUNCTION, LE(p, 8));
      case Str(s) => WbString(s);
    }

    // ---------- items ----------

    lemma Appended(item: Item, was: seq<Item>, n: nat, pos: seq<nat>, marks: set<nat>)
      requires !item.Open? && OpensOnce(was, n)
      requires marks == ExtTargets(was) + (if item.Ext? then {item.target} else {})
      requires forall i :: 0 <= i < |pos| ==> TagAt(was, i, pos[i])
      ensures marks == ExtTargets(was + [item]) && OpensOnce(was + [item], n)
      ensures Bytes(was + [item], marks) == Bytes(was, marks) + ItemBytes(item, marks)
      ensures forall i :: 0 <= i < |pos| ==> TagAt(was + [item], i, pos[i])
    {
      hide TagAt;
      BytesSnoc(was, item, marks);
      OpensOnceSnoc(was, n, item);
      ExtTargetsSnoc(was, item);
      forall i | 0 <= i < |pos| ensures TagAt(was + [item], i, pos[i]) {
        TagAtSnoc(was, i, pos[i], item);
      }
    }

    lemma ExtTargetsSnoc(was: seq<Item>, item: Item)
      ensures ExtTargets(was + [item]) == ExtTargets(was) + (if item.Ext? then {item.target} else {})
    {
      ExtTargetsConcat(was, [item]);
      if item.Ext? {
        assert [item][0] == item;
      }
    }

    method PutPlain(v: Value)
      requires Valid() && !v.Table? && !v.Unsupported?
      modifies this`items, chain.Repr
      ensures refs.seen == old(refs.seen)
      ensures open == old(open)
      ensures Valid() && fresh(chain.Repr - old(chain.Repr)) && items == old(items) + [Plain(v)]
    {
      hide BlockChain.Valid, RefIndex.Valid, OpensOnce, TagAt, Bytes, ExtTargets, AtomBytes, LE;
      WbAtom(v);
      ghost var was := items;
      items := items + [Plain(v)];
      Appended(Plain(v), was, |refs.seen|, tagPos, refs.marked);
    }

    /** The search of ref_ancestor. */
    method SearchAncestor(obj: nat) returns (i: int)
      requires StackHeld() && ancestor.Length == MAX_DEPTH && 0 < depth < MAX_DEPTH
      ensures if i < 0 then FindAncestor(open, obj) == None else FindAncestor(open, obj) == Some(i)
    {
      i := depth - 1;
      TakeAll(open);
      while i >= 0
        invariant -1 <= i < |open| && FindAncestor(open, obj) == FindAncestor(open[..i + 1], obj)
      {
        if ancestor[i] == obj {
          return;
        }
        assert open[..i + 1][..i] == open[..i];
        i := i - 1;
      }
    }

    /** ref_ancestor */
    method RefAncestor(obj: nat) returns (found: bool)
      requires Valid()
      modifies this`items, chain.Repr
      ensures refs.seen == old(refs.seen)
      ensures open == old(open)
      ensures Valid() && fresh(chain.Repr - old(chain.Repr))
      ensures found <==> ShortRef(open, obj).Some?
      ensures items == if found then old(items) + [Short(ShortRef(open, obj).value)] else old(items)
    {
      hide BlockChain.Valid, RefIndex.Valid, TagsFound, OpensOnce, Bytes, ExtTargets, FindAncestor;
      if depth == 0 || depth >= MAX_DEPTH {
        return false;
      }
      var i := SearchAncestor(obj);
      if i < 0 {
        return false;
      }
      PutShort(i);
      return true;
    }

    method PutShort(i: nat)
      requires Valid() && i < EXTEND_NUMBER
      modifies this`items, chain.Repr
      ensures open == old(open) && refs.seen == old(refs.seen)
      ensures Valid() && fresh(chain.Repr - old(chain.Repr)) && items == old(items) + [Short(i)]
    {
      hide BlockChain.Valid, RefIndex.Valid, OpensOnce, TagAt, Bytes, ExtTargets, AtomBytes, LE;
      PushTag(TYPE_REF, i, []);
      assert [Tag(TYPE_REF, i)] + [] == ItemBytes(Short(i), refs.marked);
      ghost var was := items;
      items := items + [Short(i)];
      Appended(Short(i), was, |refs.seen|, tagPos, refs.marked);
    }

    /** ref_object: an object already numbered is written as an extended reference, and its tag is marked. */
    method RefObject(obj: nat) returns (found: bool)
      requires Valid()
      modifies this`items, refs, refs.r, chain.Repr
      ensures open == old(open)
      ensures Valid() && fresh(chain.Repr - old(chain.Repr)) && refs.seen == old(refs.seen)
      ensures found <==> obj in refs.seen
      ensures items == if found then old(items) + [Ext(IndexOf(refs.seen, obj))] else old(items)
    {
      hide BlockChain.Valid, RefIndex.Valid, OpensOnce, TagAt, Bytes, ExtTargets, AtomBytes, LE;
      ghost var marks := refs.marked;
      assert marks == ExtTargets(items) + {} == ExtTargets(items);
      var id, tag := refs.Lookup(obj);
      if id == 0 {
        return false;
      }
      ghost var n := id - 1;
      if tag.Some? {
        MarkPatch(items, |refs.seen|, marks, n, tagPos[n]);
        chain.ChangeMark(tag.value, tagPos[n]);
      } else {
        assert marks + {n} == marks;
      }
      PutExt(id);
      return true;
    }

    method PutExt(id: int)
      requires id > 0 && Consistent({id - 1})
      modifies this`items, chain.Repr
      ensures open == old(open) && refs.seen == old(refs.seen)
      ensures Valid() && fresh(chain.Repr - old(chain.Repr)) && items == old(items) + [Ext(id - 1)]
    {
      hide BlockChain.Valid, RefIndex.Valid, OpensOnce, TagAt, Bytes, ExtTargets, AtomBytes, LE;
      ghost var was := items;
      PushExt(id);
      items := items + [Ext(id - 1)];
      Appended(Ext(id - 1), was, |refs.seen|, tagPos, refs.marked);
    }

    method PushExt(id: int)
      requires chain.Valid() && id > 0
      modifies chain.Repr
      ensures chain.Valid() && fresh(chain.Repr - old(chain.Repr)) && old(chain.Repr) <= chain.Repr
      ensures chain.contents == old(chain.contents) + ItemBytes(Ext(id - 1), {}) && old(chain.blocks) <= chain.blocks
    {
      ghost var c, b := chain.contents, chain.blocks;
      PushTag(TYPE_REF, EXTEND_NUMBER, []);
      ghost var b' := chain.blocks;
      assert [Tag(TYPE_REF, EXTEND_NUMBER)] + [] == [Tag(TYPE_REF, EXTEND_NUMBER)];
      WbInteger(id);
      PrefixTransitive(b, b', chain.blocks);
      ConcatAssoc(c, [Tag(TYPE_REF, EXTEND_NUMBER)], IntegerBytes(id));
    }

    /** mark_table, and the tag and size wb_table_array writes first. */
    method PutOpen(obj: nat, size: nat)
      requires Valid() && obj !in refs.seen
      modifies this`items, this`tagPos, refs, refs.r, chain.Repr
      ensures open == old(open)
      ensures Valid() && fresh(chain.Repr - old(chain.Repr))
      ensures refs.seen == old(refs.seen) + [obj] && items == old(items) + [Open(|old(refs.seen)|, size)]
    {
      hide BlockChain.Valid, RefIndex.Valid, OpensOnce, TagAt, Bytes, ExtTargets, AtomBytes, LE, NoDuplicates,
           OpenBytes;
      ghost var n, was := |refs.seen|, items;
      assert n !in refs.marked;
      ghost var pos := MarkAndPush(obj, size);
      OpenAppended(n, size, was, tagPos, refs.marked);
      items, tagPos := items + [Open(n, size)], tagPos + [pos];
    }

    /** The table is numbered under the address of the tag that is pushed next; the tags so far stay where they are. */
    method MarkAndPush(obj: nat, size: nat) returns (ghost pos: nat)
      requires Apart() && chain.Valid() && refs.Valid() && TagsFound() && obj !in refs.seen
               && |refs.seen| !in refs.marked
      modifies refs, refs.r, chain.Repr
      ensures Apart() && chain.Valid() && refs.Valid() && fresh(chain.Repr - old(chain.Repr))
      ensures refs.seen == old(refs.seen) + [obj] && refs.marked == old(refs.marked)
      ensures pos == |old(chain.contents)| && chain.contents == old(chain.contents) + OpenBytes(size, false)
      ensures |refs.tags| == |tagPos| + 1 && chain.Points(refs.tags[|tagPos|], pos)
      ensures forall i :: 0 <= i < |tagPos| ==> chain.Points(refs.tags[i], tagPos[i])
    {
      hide BlockChain.Valid, RefIndex.Valid, TagAt, AtomBytes, LE, NoDuplicates, OpenBytes;
      ghost var b := chain.blocks;
      var addr := chain.NextAddress();
      pos := |chain.contents|;
      ghost var b' := chain.blocks;
      refs.Mark(obj, addr);
      PushOpen(size);
      PrefixTransitive(b, b', chain.blocks);
    }

    lemma OpenAppended(n: nat, size: nat, was: seq<Item>, pos: seq<nat>, marks: set<nat>)
      requires OpensOnce(was, n) && n !in marks && |pos| == n
      requires forall i :: 0 <= i < n ==> TagAt(was, i, pos[i])
      ensures var items := was + [Open(n, size)];
              ExtTargets(items) == ExtTargets(was) && OpensOnce(items, n + 1)
              && Bytes(items, marks) == Bytes(was, marks) + OpenBytes(size, false)
              && (forall i :: 0 <= i < n ==> TagAt(items, i, pos[i]))
              && TagAt(items, n, |Bytes(was, marks)|)
    {
      hide TagAt;
      BytesLength(was, marks, {});
      OpenBytesUnmarked(n, size, marks);
      BytesSnoc(was, Open(n, size), marks);
      OpensOnceSnoc(was, n, Open(n, size));
      ExtTargetsSnoc(was, Open(n, size));
      TagAtNew(was, n, size);
      forall i | 0 <= i < n ensures TagAt(was + [Open(n, size)], i, pos[i]) {
        TagAtSnoc(was, i, pos[i], Open(n, size));
      }
    }

    lemma OpenBytesUnmarked(n: nat, size: nat, marks: set<nat>)
      requires n !in marks
      ensures ItemBytes(Open(n, size), marks) == OpenBytes(size, false)
    {
    }

    method PushOpen(size: nat)
      requires chain.Valid()
      modifies chain.Repr
      ensures chain.Valid() && fresh(chain.Repr - old(chain.Repr)) && old(chain.Repr) <= chain.Repr
      ensures chain.contents == old(chain.contents) + OpenBytes(size, false) && old(chain.blocks) <= chain.blocks
    {
      if size >= EXTEND_NUMBER {
        ghost var c, b := chain.contents, chain.blocks;
        PushTag(TYPE_TABLE, EXTEND_NUMBER, []);
        ghost var b' := chain.blocks;
        assert [Tag(TYPE_TABLE, EXTEND_NUMBER)] + [] == [Tag(TYPE_TABLE, EXTEND_NUMBER)];
        WbInteger(size);
        PrefixTransitive(b, b', chain.blocks);
        ConcatAssoc(c, [Tag(TYPE_TABLE, EXTEND_NUMBER)], IntegerBytes(size));
      } else {
        PushTag(TYPE_TABLE, size, []);
        assert [Tag(TYPE_TABLE, size)] + [] == [Tag(TYPE_TABLE, size)];
      }
    }

    // ---------- values ----------

    /** The table goes on the ancestor stack, as far as the stack reaches. */
    method Enter(id: nat)
      requires Valid()
      modifies this`depth, this`open, ancestor
      ensures Valid() && open == old(open) + [id]
      ensures refs.seen == old(refs.seen) && items == old(items) && chain.Repr == old(chain.Repr)
    {
      hide BlockChain.Valid, RefIndex.Valid, OpensOnce, TagAt, Bytes, ExtTargets;
      if depth < MAX_DEPTH {
        ancestor[depth] := id;
      }
      depth := depth + 1;
      open := open + [id];
    }

    method Leave()
      requires Valid() && open != []
      modifies this`depth, this`open
      ensures Valid() && open == old(open)[..|old(open)| - 1]
      ensures refs.seen == old(refs.seen) && items == old(items) && chain.Repr == old(chain.Repr)
    {
      hide BlockChain.Valid, RefIndex.Valid, OpensOnce, TagAt, Bytes, ExtTargets;
      depth := depth - 1;
      open := open[..|open| - 1];
    }

    /** pack_one: it writes the items of the visit, or stops exactly when the visit meets an unsupported value. */
    method PackOne(h: LuaHeap, v: Value) returns (ok: bool)
      requires Valid()
      modifies this, refs, refs.r, ancestor, chain.Repr
      ensures fresh(chain.Repr - old(chain.Repr))
      ensures var w := Visit(h, v, old(open), old(refs.seen));
              (ok <==> Fail !in w.items)
              && (ok ==> Valid() && items == old(items) + w.items && refs.seen == w.seen && open == old(open))
      decreases Unseen(h, refs.seen), 0
    {
      hide BlockChain.Valid, RefIndex.Valid, Valid, VisitAll, VisitPairs, ShortRef, Unseen;
      ghost var w := Visit(h, v, open, refs.seen);
      match v
      case Unsupported(_) =>
        SingleFail(w.items);
        return false;
      case Table(id) =>
        ok := RefAncestor(id);
        if ok {
          SingleNotFail(w.items[0]);
          return;
        }
        ok := RefObject(id);
        if ok {
          SingleNotFail(w.items[0]);
          return;
        }
        if id !in h {
          SingleFail(w.items);
          return false;
        }
        UnseenShrinks(h, refs.seen, refs.seen + [id]);
        ok := WbTable(h, id);
      case _ =>
        PutPlain(v);
        SingleNotFail(Plain(v));
        return true;
    }

    lemma SingleNotFail(i: Item)
      requires !i.Fail?
      ensures Fail !in [i]
    {
    }

    /** wb_table between the push on the ancestor stack and the pop. */
    method WbTable(h: LuaHeap, id: nat) returns (ok: bool)
      requires Valid() && id in h && id !in refs.seen && ShortRef(open, id).None?
      modifies this, refs, refs.r, ancestor, chain.Repr
      ensures fresh(chain.Repr - old(chain.Repr))
      ensures var w := Visit(h, Table(id), old(open), old(refs.seen));
              (ok <==> Fail !in w.items)
              && (ok ==> Valid() && items == old(items) + w.items && refs.seen == w.seen && open == old(open))
      decreases Unseen(h, refs.seen + [id]), 2
    {
      hide BlockChain.Valid, RefIndex.Valid, Valid, VisitAll, VisitPairs, Visit, ShortRef, Unseen, ArrayPart, HashPart;
      ghost var items0, open0, seen0 := items, open, refs.seen;
      VisitOpen(h, id, open0, seen0);
      ghost var a := VisitAll(h, ArrayPart(h[id]), open0 + [id], seen0 + [id]);
      ghost var b := VisitPairs(h, HashPart(h[id]), open0 + [id], a.seen);
      ghost var first, last := [Open(|seen0|, h[id].border)], [Plain(Nil)];
      FailInParts(first, a.items, b.items, last);
      Enter(id);
      PutOpen(id, h[id].border);
      ok := PackAll(h, ArrayPart(h[id]));
      if !ok {
        return;
      }
      UnseenShrinks(h, seen0 + [id], refs.seen);
      ok := WbTableHash(h, id);
      if !ok {
        return;
      }
      PutPlain(Nil);
      Leave();
      assert (open0 + [id])[..|open0|] == open0;
      Gather(items0, first, a.items, b.items, last);
    }

    lemma FailInParts(first: seq<Item>, a: seq<Item>, b: seq<Item>, last: seq<Item>)
      ensures Fail in first + a + b + last <==> Fail in first || Fail in a || Fail in b || Fail in last
    {
    }

    lemma Gather(items: seq<Item>, first: seq<Item>, a: seq<Item>, b: seq<Item>, last: seq<Item>)
      ensures items + first + a + b + last == items + (first + a + b + last)
    {
    }

    /** What is left of a walk after one more value. */
    lemma NextValue(h: LuaHeap, vs: seq<Value>, i: nat, open: seq<nat>, seen: seq<nat>, w: Walk, done: seq<Item>)
      requires i < |vs|
      requires var r := VisitAll(h, vs[i..], open, seen); w == Walk(done + r.items, r.seen)
      ensures var a := Visit(h, vs[i], open, seen);
              var r := VisitAll(h, vs[i + 1..], open, a.seen);
              w == Walk(done + a.items + r.items, r.seen) && (Fail in a.items ==> Fail in w.items)
    {
      assert vs[i..][1..] == vs[i + 1..];
      ConcatAssoc(done, Visit(h, vs[i], open, seen).items,
                  VisitAll(h, vs[i + 1..], open, Visit(h, vs[i], open, seen).seen).items);
    }

    lemma NextPair(h: LuaHeap, pairs: seq<(Value, Value)>, i: nat, border: nat, open: seq<nat>, seen: seq<nat>,
                   w: Walk, done: seq<Item>)
      requires i < |pairs|
      requires var r := VisitPairs(h, EmittedPairs(pairs[i..], border), open, seen); w == Walk(done + r.items, r.seen)
      ensures Skipped(pairs[i].0, border) ==> EmittedPairs(pairs[i..], border) == EmittedPairs(pairs[i + 1..], border)
      ensures !Skipped(pairs[i].0, border) ==>
                var a := Visit(h, pairs[i].0, open, seen);
                var b := Visit(h, pairs[i].1, open, a.seen);
                var r := VisitPairs(h, EmittedPairs(pairs[i + 1..], border), open, b.seen);
                w == Walk(done + a.items + b.items + r.items, r.seen)
                && (Fail in a.items || Fail in b.items ==> Fail in w.items)
    {
      assert pairs[i..][1..] == pairs[i + 1..];
      if !Skipped(pairs[i].0, border) {
        var e := EmittedPairs(pairs[i + 1..], border);
        assert ([pairs[i]] + e)[1..] == e;
        var a := Visit(h, pairs[i].0, open, seen);
        var b := Visit(h, pairs[i].1, open, a.seen);
        var r := VisitPairs(h, e, open, b.seen);
        ConcatAssoc(done, a.items + b.items, r.items);
        ConcatAssoc(done, a.items, b.items);
      }
    }

    /** The loop over a list of values: the array part in wb_table_array, the arguments in pack_from. */
    method PackAll(h: LuaHeap, vs: seq<Value>) returns (ok: bool)
      requires Valid()
      modifies this, refs, refs.r, ancestor, chain.Repr
      ensures fresh(chain.Repr - old(chain.Repr))
      ensures var w := VisitAll(h, vs, old(open), old(refs.seen));
              (ok <==> Fail !in w.items)
              && (ok ==> Valid() && items == old(items) + w.items && refs.seen == w.seen && open == old(open))
      decreases Unseen(h, refs.seen), 1
    {
      hide BlockChain.Valid, RefIndex.Valid, Valid, Visit, VisitPairs, Unseen;
      ghost var items0, open0, seen0, done := items, open, refs.seen, [];
      ghost var w := VisitAll(h, vs, open0, seen0);
      var i := 0;
      assert vs[0..] == vs;
      while i < |vs|
        invariant 0 <= i <= |vs| && Valid() && fresh(chain.Repr - old(chain.Repr))
        invariant open == open0 && items == items0 + done && Fail !in done
        invariant w == Walk(done + VisitAll(h, vs[i..], open0, refs.seen).items,
                            VisitAll(h, vs[i..], open0, refs.seen).seen)
        invariant seen0 <= refs.seen
      {
        ghost var a := Visit(h, vs[i], open0, refs.seen);
        NextValue(h, vs, i, open0, refs.seen, w, done);
        UnseenShrinks(h, seen0, refs.seen);
        ok := PackOne(h, vs[i]);
        if !ok {
          return;
        }
        ConcatAssoc(items0, done, a.items);
        done := done + a.items;
        i := i + 1;
      }
      return true;
    }

    /** The loop of wb_table_hash over the entries in the order of lua_next. */
    method WbTableHash(h: LuaHeap, id: nat) returns (ok: bool)
      requires Valid() && id in h
      modifies this, refs, refs.r, ancestor, chain.Repr
      ensures fresh(chain.Repr - old(chain.Repr))
      ensures var w := VisitPairs(h, HashPart(h[id]), old(open), old(refs.seen));
              (ok <==> Fail !in w.items)
              && (ok ==> Valid() && items == old(items) + w.items && refs.seen == w.seen && open == old(open))
      decreases Unseen(h, refs.seen), 1
    {
      hide BlockChain.Valid, RefIndex.Valid, Valid, Visit, VisitAll, Unseen, ToInteger, ArrayPart;
      ghost var items0, open0, seen0, done := items, open, refs.seen, [];
      ghost var w := VisitPairs(h, HashPart(h[id]), open0, seen0);
      var pairs, border := h[id].pairs, h[id].border;
      var i := 0;
      assert pairs[0..] == pairs;
      while i < |pairs|
        invariant 0 <= i <= |pairs| && Valid() && fresh(chain.Repr - old(chain.Repr))
        invariant open == open0 && items == items0 + done && Fail !in done
        invariant var r := VisitPairs(h, EmittedPairs(pairs[i..], border), open0, refs.seen);
                  w == Walk(done + r.items, r.seen)
        invariant seen0 <= refs.seen
      {
        NextPair(h, pairs, i, border, open0, refs.seen, w, done);
        if !Skipped(pairs[i].0, border) {
          ghost var a := Visit(h, pairs[i].0, open0, refs.seen);
          ghost var b := Visit(h, pairs[i].1, open0, a.seen);
          UnseenShrinks(h, seen0, refs.seen);
          ok := PackOne(h, pairs[i].0);
          if !ok {
            return;
          }
          UnseenShrinks(h, seen0, refs.seen);
          ok := PackOne(h, pairs[i].1);
          if !ok {
            return;
          }
          ConcatAssoc(items0, done, a.items);
          ConcatAssoc(items0, done + a.items, b.items);
          done := done + a.items + b.items;
        }
        i := i + 1;
      }
      return true;
    }
  }

  /** seri_pack: the payload behind its length, or nothing when an unsupported value is met. */
  method SeriPack(h: LuaHeap, roots: seq<Value>) returns (out: Option<seq<byte>>)
    ensures out == if Fail in Pack(h, roots).items then None
                   else Some(LE(|Payload(h, roots)|, 4) + Payload(h, roots))
  {
    hide VisitAll, Bytes, ExtTargets, RefIndex.Valid, LE, NoDuplicates, OpensOnce, TagAt;
    var b := new WriteBlock();
    var ok := b.PackAll(h, roots);
    if !ok {
      return None;
    }
    assert [] + Pack(h, roots).items == Pack(h, roots).items;
    assert b.refs.marked == ExtTargets(b.items) + {} == ExtTargets(b.items);
    var bytes := b.chain.Seri();
    return Some(bytes);
  }
}
