/** Where the open tables are on the Lua stack: an ancestor slot may be used exactly when it leads to its table. */
module SeriPositions {
  import opened Bits
  import opened LuaValues
  import opened SeriFormat
  import opened SeriWalk
  import opened SeriRead
  import opened SeriFrame
  import opened SeriSimulation
  import opened SeriSpoil

  /** pos gives the stack positions of the open tables. A usable slot holds the position of its table, and any other
      in use a position above it; and nothing above a table whose slot is not usable is that table. */
  ghost predicate Positions(st: RState, open: seq<nat>, seen: seq<nat>, final: seq<nat>, c: Context, pos: seq<nat>)
  {
    && Distinctly(open, seen, final) && Above(st, open, c, pos)
    && (|open| < MAX_DEPTH ==> NothingAbove(st.stack, open, final, c, pos))
  }

  ghost predicate Distinctly(open: seq<nat>, seen: seq<nat>, final: seq<nat>)
  {
    NoDuplicates(open) && NoDuplicates(final) && seen <= final && forall j :: 0 <= j < |open| ==> open[j] in seen
  }

  ghost predicate Above(st: RState, open: seq<nat>, c: Context, pos: seq<nat>)
  {
    && |st.ancestor| == MAX_DEPTH && |pos| == |open|
    && (forall i, j :: 0 <= i < j < |pos| ==> pos[i] < pos[j])
    && (forall i :: 0 <= i < |pos| ==> pos[i] < |st.stack|)
    && (forall i :: i in c.bad ==> i < |open|)
    && (c.key.Some? ==> c.key.value <= st.depth < |open|) && (c.key.None? ==> st.depth == |open|)
    && forall i :: 0 <= i < |open| && i < MAX_DEPTH && i < st.depth ==>
         if Usable(c, i) then st.ancestor[i] == pos[i] else st.ancestor[i] > pos[i]
  }

  ghost predicate NothingAbove(stack: seq<Value>, open: seq<nat>, final: seq<nat>, c: Context, pos: seq<nat>)
    requires |pos| == |open|
  {
    forall j, x :: 0 <= j < |open| && !Usable(c, j) && pos[j] < x < |stack| ==> stack[x] != Table(Num(final, open[j]))
  }

  lemma NumApart(a: nat, b: nat, final: seq<nat>)
    requires a in final && b in final && a != b
    ensures Num(final, a) != Num(final, b)
  {
  }

  lemma InFinal(id: nat, seen: seq<nat>, final: seq<nat>)
    requires id in seen && seen <= final
    ensures id in final
  {
  }

  lemma NoPositions(st: RState, final: seq<nat>)
    requires |st.ancestor| == MAX_DEPTH && st.depth == 0 && NoDuplicates(final)
    ensures Positions(st, [], [], final, TOP, [])
  {
  }

  // ---------- opening a table ----------

  lemma OpenPositions(id: nat, st: RState, st0: RState, kind: nat, open: seq<nat>, seen: seq<nat>, final: seq<nat>,
                      c: Context, pos: seq<nat>)
    requires Positions(st, open, seen, final, c, pos) && st0 == st.(rest := st0.rest) && |st.tables| == |seen|
    requires id !in seen && seen + [id] <= final
    ensures Positions(OpenTable(st0, kind), open + [id], seen + [id], final, c, pos + [|st.stack|])
  {
    OpenDistinctly(id, open, seen, final);
    OpenAbove(id, st, st0, kind, open, c, pos);
    if |open| + 1 < MAX_DEPTH {
      OpenNothingAbove(id, st.stack, open, seen, final, c, pos);
    }
  }

  lemma OpenDistinctly(id: nat, open: seq<nat>, seen: seq<nat>, final: seq<nat>)
    requires Distinctly(open, seen, final) && id !in seen && seen + [id] <= final
    ensures Distinctly(open + [id], seen + [id], final)
  {
    forall j | 0 <= j < |open + [id]| ensures (open + [id])[j] in seen + [id] {
      if j == |open| {
        assert (seen + [id])[|seen|] == id;
      }
    }
  }

  lemma OpenAbove(id: nat, st: RState, st0: RState, kind: nat, open: seq<nat>, c: Context, pos: seq<nat>)
    requires Above(st, open, c, pos) && st0 == st.(rest := st0.rest)
    ensures Above(OpenTable(st0, kind), open + [id], c, pos + [|st.stack|])
  {
  }

  lemma OpenNothingAbove(id: nat, stack: seq<Value>, open: seq<nat>, seen: seq<nat>, final: seq<nat>, c: Context,
                         pos: seq<nat>)
    requires |pos| == |open| && NothingAbove(stack, open, final, c, pos) && Distinctly(open, seen, final)
    requires id !in seen && seen + [id] <= final
    ensures NothingAbove(stack + [Table(|seen|)], open + [id], final, c, pos + [|stack|])
  {
    assert final[|seen|] == (seen + [id])[|seen|] == id;
    IndexOfPosition(final, |seen|);
    forall j | 0 <= j < |open| ensures Num(final, open[j]) != |seen| {
      InFinal(open[j], seen, final);
      NumApart(open[j], id, final);
    }
  }

  // ---------- reading on ----------

  /** An element has been read and stored. */
  lemma StillPositions(st: RState, st': RState, open: seq<nat>, seen: seq<nat>, seen': seq<nat>, final: seq<nat>,
                       c: Context, pos: seq<nat>)
    requires Positions(st, open, seen, final, c, pos) && seen <= seen' <= final
    requires st'.stack == st.stack && st'.depth == st.depth && |st'.ancestor| == MAX_DEPTH
    requires forall i :: 0 <= i < MAX_DEPTH && i < st.depth ==> st'.ancestor[i] == st.ancestor[i]
    ensures Positions(st', open, seen', final, c, pos)
  {
    SeenDistinctly(open, seen, seen', final);
  }

  lemma SeenDistinctly(open: seq<nat>, seen: seq<nat>, seen': seq<nat>, final: seq<nat>)
    requires Distinctly(open, seen, final) && seen <= seen' <= final
    ensures Distinctly(open, seen', final)
  {
    forall j | 0 <= j < |open| ensures open[j] in seen' {
      InFinal(open[j], seen, seen');
    }
  }

  /** The innermost open table is on top of the stack. */
  ghost predicate OnTop(st: RState, pos: seq<nat>)
  {
    pos != [] && pos[|pos| - 1] == |st.stack| - 1
  }

  lemma KeyPositions(st: RState, open: seq<nat>, seen: seq<nat>, final: seq<nat>, c: Context, pos: seq<nat>)
    requires Positions(st.(depth := st.depth + 1), open, seen, final, c, pos) && OnTop(st, pos)
    requires c.key.Some? ==> c.key.value <= st.depth
    ensures Positions(st, open, seen, final, InKey(c, |open| - 1), pos)
  {
    KeyAbove(st, open, c, pos);
  }

  lemma KeyAbove(st: RState, open: seq<nat>, c: Context, pos: seq<nat>)
    requires Above(st.(depth := st.depth + 1), open, c, pos) && pos != []
    requires c.key.Some? ==> c.key.value <= st.depth
    ensures Above(st, open, InKey(c, |open| - 1), pos)
  {
  }

  /** A key read right is none of the open tables whose slots may not be used for keys. */
  ghost predicate CleanKey(x: Value, open: seq<nat>, final: seq<nat>, c: Context)
  {
    |open| < MAX_DEPTH ==> NoneOf(x, open, final, KeyUnusable(c, |open|), |open|)
  }

  /** The slots that no key of the innermost table may use. */
  function KeyUnusable(c: Context, n: nat): set<nat>
  {
    if n == 0 then {} else Unusable(InKey(c, n - 1), n)
  }

  function Unusable(c: Context, n: nat): set<nat>
  {
    set i: nat | 0 <= i < n && !Usable(c, i)
  }

  lemma ShortOfOpen(open: seq<nat>, j: nat)
    requires NoDuplicates(open) && j < |open| < MAX_DEPTH
    ensures ShortRef(open, open[j]) == Some(j)
  {
  }

  lemma KeyIsClean(h: LuaHeap, k: Value, open: seq<nat>, seen: seq<nat>, final: seq<nat>, c: Context)
    requires open != [] && Agrees(h, k, open, seen, InKey(c, |open| - 1)) && Distinctly(open, seen, final)
    requires k.Table? ==> k.id in final
    ensures CleanKey(Image(final, k), open, final, c)
  {
    if |open| < MAX_DEPTH {
      forall j | 0 <= j < |open| ensures ShortRef(open, open[j]) == Some(j) {
        ShortOfOpen(open, j);
      }
      forall j | 0 <= j < |open| && j in KeyUnusable(c, |open|) ensures Image(final, k) != Table(Num(final, open[j])) {
        InFinal(open[j], seen, final);
        if k.Table? && k.id != open[j] {
          NumApart(k.id, open[j], final);
        }
      }
    }
  }

  lemma SameKeyUnusable(c: Context, n: nat, isNew: bool)
    requires n > 0
    ensures KeyUnusable(AfterKey(c, n - 1, isNew), n) == KeyUnusable(c, n)
  {
  }

  /** The value is read with its key on the stack above the table. */
  lemma AfterKeyPositions(st: RState, st1: RState, x: Value, open: seq<nat>, seen: seq<nat>, seen': seq<nat>,
                          final: seq<nat>, c: Context, pos: seq<nat>)
    requires Positions(st.(depth := st.depth + 1), open, seen, final, c, pos) && OnTop(st, pos)
    requires c.key.Some? ==> c.key.value <= st.depth
    requires Kept(st, st1, -1) && st1.stack == st.stack + [x] && CleanKey(x, open, final, c)
    requires seen <= seen' <= final
    requires if seen' == seen then st1.ancestor == st.ancestor
             else st.depth < MAX_DEPTH ==> st1.ancestor[st.depth] >= |st.stack|
    ensures Positions(st1.(depth := st1.depth + 1), open, seen', final, AfterKey(c, |open| - 1, seen' != seen), pos)
  {
    SeenDistinctly(open, seen, seen', final);
    AfterKeyAbove(st, st1, open, c, pos, seen' != seen);
    if |open| < MAX_DEPTH {
      AfterKeyNothingAbove(st.stack, x, open, final, c, pos, seen' != seen);
    }
  }

  lemma AfterKeyAbove(st: RState, st1: RState, open: seq<nat>, c: Context, pos: seq<nat>, isNew: bool)
    requires Above(st.(depth := st.depth + 1), open, c, pos) && OnTop(st, pos)
    requires c.key.Some? ==> c.key.value <= st.depth
    requires Kept(st, st1, -1) && |st.stack| <= |st1.stack|
    requires if !isNew then st1.ancestor == st.ancestor
             else st.depth < MAX_DEPTH ==> st1.ancestor[st.depth] >= |st.stack|
    ensures Above(st1.(depth := st1.depth + 1), open, AfterKey(c, |open| - 1, isNew), pos)
  {
  }

  lemma AfterKeyNothingAbove(stack: seq<Value>, x: Value, open: seq<nat>, final: seq<nat>, c: Context, pos: seq<nat>,
                             isNew: bool)
    requires |pos| == |open| > 0 && pos[|pos| - 1] == |stack| - 1 && NothingAbove(stack, open, final, c, pos)
    requires forall i, j :: 0 <= i < j < |pos| ==> pos[i] < pos[j]
    requires NoneOf(x, open, final, KeyUnusable(c, |open|), |open|)
    ensures NothingAbove(stack + [x], open, final, AfterKey(c, |open| - 1, isNew), pos)
  {
  }

  /** Key and value are gone from the stack again. */
  lemma PairPositions(st: RState, st1: RState, st3: RState, open: seq<nat>, seen: seq<nat>, seen': seq<nat>,
                      final: seq<nat>, c: Context, pos: seq<nat>)
    requires Positions(st1.(depth := st1.depth + 1), open, seen, final, c, pos) && OnTop(st, pos)
    requires st.stack <= st1.stack && st3.stack == st.stack && st3.depth == st1.depth && seen <= seen' <= final
    requires |st3.ancestor| == MAX_DEPTH
    requires forall i :: 0 <= i < MAX_DEPTH && i <= st1.depth ==> st3.ancestor[i] == st1.ancestor[i]
    ensures Positions(st3.(depth := st3.depth + 1), open, seen', final, c, pos)
  {
    SeenDistinctly(open, seen, seen', final);
  }

  // ---------- what a slot gives ----------

  /** A slot that may not be used gives none of the tables at a smaller or equal index whose slots may not be used. */
  lemma MisreadSlot(st: RState, open: seq<nat>, seen: seq<nat>, final: seq<nat>, c: Context, pos: seq<nat>, i: nat)
    requires Positions(st, open, seen, final, c, pos) && i < |open| < MAX_DEPTH && i < st.depth && !Usable(c, i)
    ensures NoneOf(StackAt(st.stack, st.ancestor[i]), open, final, Unusable(c, |open|), i)
  {
  }

  /** The slots as the keys of the innermost table find them. */
  lemma KeySlots(st: RState, open: seq<nat>, seen: seq<nat>, final: seq<nat>, marks: set<nat>, c: Context,
                 pos: seq<nat>)
    requires Positions(st.(depth := st.depth + 1), open, seen, final, c, pos) && OnTop(st, pos) && |open| < MAX_DEPTH
    requires Related(st.(depth := st.depth + 1), open, seen, final, marks, c)
    requires c.key.Some? ==> c.key.value <= st.depth
    ensures SlotsKnown(st, open, final, KeyUnusable(c, |open|))
  {
    KeyPositions(st, open, seen, final, c, pos);
    var c', u := InKey(c, |open| - 1), KeyUnusable(c, |open|);
    forall i | 0 <= i < |open| ensures open[i] in final {
      InFinal(open[i], seen, final);
    }
    forall i | 0 <= i < |open| && i < st.depth
      ensures if i in u then NoneOf(StackAt(st.stack, st.ancestor[i]), open, final, u, i)
              else StackAt(st.stack, st.ancestor[i]) == Table(Num(final, open[i]))
    {
      if i in u {
        MisreadSlot(st, open, seen, final, c', pos, i);
      }
    }
  }
}
