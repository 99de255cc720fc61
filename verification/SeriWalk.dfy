/** What the writer of src/lua-seri.c puts out for a graph of Lua tables, as a function of the graph. */
module SeriWalk {
  import opened Bits
  import opened LuaValues
  import opened SeriFormat

  /** Items written and tables visited, the latter in order of first visit: position in `seen` is the
      writer's object number. */
  datatype Walk = Walk(items: seq<Item>, seen: seq<nat>)

  function IndexOf(seen: seq<nat>, id: nat): (n: nat)
    requires id in seen
    ensures n < |seen| && seen[n] == id && id !in seen[..n]
  {
    if seen[0] == id then 0 else 1 + IndexOf(seen[1..], id)
  }

  /** The search of ref_ancestor, from the innermost open table outward. */
  function FindAncestor(open: seq<nat>, id: nat): (r: Option<nat>)
    ensures r.Some? ==> r.value < |open| && open[r.value] == id && id !in open[r.value + 1..]
    ensures r.None? <==> id !in open
  {
    if open == [] then None
    else if open[|open| - 1] == id then Some(|open| - 1)
    else FindAncestor(open[..|open| - 1], id)
  }

  /** ref_ancestor: short references exist only while the depth is 1..30. */
  function ShortRef(open: seq<nat>, id: nat): (r: Option<nat>)
    ensures r.Some? <==> 1 <= |open| <= 30 && id in open
    ensures r.Some? ==> r.value < |open| < MAX_DEPTH && open[r.value] == id
  {
    if 0 < |open| < MAX_DEPTH then FindAncestor(open, id) else None
  }

  /** Pairs the hash pass leaves out: number keys whose integer part the array pass has covered. */
  predicate Skipped(k: Value, border: nat)
  {
    k.Number? && 0 < ToInteger(k.bits) <= border
  }

  function EmittedPairs(pairs: seq<(Value, Value)>, border: nat): seq<(Value, Value)>
  {
    if pairs == [] then []
    else if Skipped(pairs[0].0, border) then EmittedPairs(pairs[1..], border)
    else [pairs[0]] + EmittedPairs(pairs[1..], border)
  }

  function HashPart(t: TableObj): seq<(Value, Value)> { EmittedPairs(t.pairs, t.border) }

  function ArrayPart(t: TableObj): (vs: seq<Value>)
    ensures |vs| == t.border
  {
    seq(t.border, i => RawGet(t.pairs, IndexKey(i + 1)))
  }

  ghost function Unseen(h: LuaHeap, seen: seq<nat>): nat
  {
    |h.Keys - set id | id in seen|
  }

  lemma UnseenShrinks(h: LuaHeap, seen: seq<nat>, more: seq<nat>)
    requires seen <= more
    ensures Unseen(h, more) <= Unseen(h, seen)
    ensures forall id :: id in h && id !in seen && id in more ==> Unseen(h, more) < Unseen(h, seen)
  {
    var a, b := h.Keys - (set id | id in seen), h.Keys - (set id | id in more);
    SubsetSize(b, a);
    forall id | id in h && id !in seen && id in more ensures |b| < |a| {
      SubsetSize(b, a - {id});
    }
  }

  lemma {:induction false} SubsetSize(a: set<nat>, b: set<nat>)
    requires a <= b
    ensures |a| <= |b|
  {
    if x :| x in a {
      SubsetSize(a - {x}, b - {x});
    }
  }

  /** pack_one: `open` holds the tables being written, outermost first. */
  function Visit(h: LuaHeap, v: Value, open: seq<nat>, seen: seq<nat>): (w: Walk)
    ensures seen <= w.seen
    decreases Unseen(h, seen), 0
  {
    match v
    case Unsupported(_) => Walk([Fail], seen)
    case Table(id) =>
      if ShortRef(open, id).Some? then Walk([Short(ShortRef(open, id).value)], seen)
      else if id in seen then Walk([Ext(IndexOf(seen, id))], seen)
      else if id !in h then Walk([Fail], seen)
      else
        UnseenShrinks(h, seen, seen + [id]);
        var a := VisitAll(h, ArrayPart(h[id]), open + [id], seen + [id]);
        UnseenShrinks(h, seen + [id], a.seen);
        var b := VisitPairs(h, HashPart(h[id]), open + [id], a.seen);
        Walk([Open(|seen|, h[id].border)] + a.items + b.items + [Plain(Nil)], b.seen)
    case _ => Walk([Plain(v)], seen)
  }

  function VisitAll(h: LuaHeap, vs: seq<Value>, open: seq<nat>, seen: seq<nat>): (w: Walk)
    ensures seen <= w.seen
    decreases Unseen(h, seen), |vs|
  {
    if vs == [] then Walk([], seen)
    else
      var a := Visit(h, vs[0], open, seen);
      UnseenShrinks(h, seen, a.seen);
      var b := VisitAll(h, vs[1..], open, a.seen);
      Walk(a.items + b.items, b.seen)
  }

  function VisitPairs(h: LuaHeap, pairs: seq<(Value, Value)>, open: seq<nat>, seen: seq<nat>): (w: Walk)
    ensures seen <= w.seen
    decreases Unseen(h, seen), |pairs|
  {
    if pairs == [] then Walk([], seen)
    else
      var a := Visit(h, pairs[0].0, open, seen);
      UnseenShrinks(h, seen, a.seen);
      var b := Visit(h, pairs[0].1, open, a.seen);
      UnseenShrinks(h, a.seen, b.seen);
      var c := VisitPairs(h, pairs[1..], open, b.seen);
      Walk(a.items + b.items + c.items, c.seen)
  }

  /** A first visit: its tag, its array part, its pairs, the terminator. */
  lemma VisitOpen(h: LuaHeap, id: nat, open: seq<nat>, seen: seq<nat>)
    requires id in h && id !in seen && ShortRef(open, id).None?
    ensures var a := VisitAll(h, ArrayPart(h[id]), open + [id], seen + [id]);
            var b := VisitPairs(h, HashPart(h[id]), open + [id], a.seen);
            Visit(h, Table(id), open, seen)
            == Walk([Open(|seen|, h[id].border)] + a.items + b.items + [Plain(Nil)], b.seen)
  {
    hide VisitAll, VisitPairs, ArrayPart, HashPart, ShortRef;
  }

  /** pack_from: the whole argument list. */
  function Pack(h: LuaHeap, roots: seq<Value>): Walk
  {
    VisitAll(h, roots, [], [])
  }

  /** The payload: every first-visit tag carries the mark exactly when an extended reference leads to it. */
  function Payload(h: LuaHeap, roots: seq<Value>): seq<byte>
  {
    var w := Pack(h, roots);
    Bytes(w.items, ExtTargets(w.items))
  }
}
