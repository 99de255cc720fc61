/** Which graphs need an extended reference, told from the graph alone. */
module SeriPaths {
  import opened Bits
  import opened LuaValues
  import opened SeriFormat
  import opened SeriWalk
  import opened SeriSimulation
  import opened SeriFacts

  /** A path picks an argument, then a slot of the table found there, and so on. */
  type Path = seq<nat>

  function SlotsBelow(h: LuaHeap, roots: seq<Value>, trail: seq<nat>): seq<Value>
  {
    if trail == [] then roots
    else if trail[|trail| - 1] in h then Slots(h[trail[|trail| - 1]]) else []
  }

  /** The tables a path leads through, the last one included; none if it does not lead from table to table. */
  function Trail(h: LuaHeap, roots: seq<Value>, p: Path): (r: Option<seq<nat>>)
    ensures r.Some? ==> |r.value| == |p|
  {
    if p == [] then Some([])
    else
      match Trail(h, roots, p[..|p| - 1])
      case None => None
      case Some(trail) =>
        var vs := SlotsBelow(h, roots, trail);
        var i := p[|p| - 1];
        if i < |vs| && vs[i].Table? && vs[i].id in h then Some(trail + [vs[i].id]) else None
  }

  /** A path to table id that passes no table twice. */
  ghost predicate Simple(h: LuaHeap, roots: seq<Value>, p: Path, id: nat)
  {
    p != [] && Trail(h, roots, p).Some?
    && NoDuplicates(Trail(h, roots, p).value) && Trail(h, roots, p).value[|p| - 1] == id
  }

  /** A path that passes no table twice until its last step leads back to one of them. */
  ghost predicate BackLink(h: LuaHeap, roots: seq<Value>, p: Path)
  {
    p != [] && Trail(h, roots, p).Some?
    && var trail := Trail(h, roots, p).value;
       NoDuplicates(trail[..|p| - 1]) && trail[|p| - 1] in trail[..|p| - 1]
  }

  /** The graph is a forest but for links from a table back to itself or to one it lies below, and those links
      are at most 30 tables deep. */
  ghost predicate OnlyBackLinks(h: LuaHeap, roots: seq<Value>)
  {
    && (forall p, q, id :: Simple(h, roots, p, id) && Simple(h, roots, q, id) ==> p == q)
    && (forall p :: BackLink(h, roots, p) ==> |p| <= 31)
  }

  // ---------- the order in which the writer meets paths ----------

  predicate Less(p: Path, q: Path)
  {
    q != [] && (p == [] || p[0] < q[0] || (p[0] == q[0] && Less(p[1..], q[1..])))
  }

  lemma {:induction false} LessNotEqual(p: Path)
    ensures !Less(p, p)
  {
    if p != [] {
      LessNotEqual(p[1..]);
    }
  }

  lemma Tails(p: Path, x: Path)
    requires p != []
    ensures (p + x)[1..] == p[1..] + x && (p + x)[0] == p[0] && p + x != []
  {
  }

  lemma {:induction false} LessAppend(q: Path, p: Path, x: Path)
    requires Less(q, p)
    ensures Less(q, p + x)
  {
    Tails(p, x);
    if q != [] && p[0] == q[0] {
      LessAppend(q[1..], p[1..], x);
    }
  }

  lemma {:induction false} LessExtended(p: Path, i: nat)
    ensures Less(p, p + [i])
    ensures Less(p + [i], p + [i + 1])
  {
    if p != [] {
      Tails(p, [i]);
      Tails(p, [i + 1]);
      LessExtended(p[1..], i);
    }
  }

  /** What comes before slot i, or before anything below slot i, comes before slot i + 1. */
  lemma {:induction false} LessNext(q: Path, p: Path, i: nat, x: Path)
    requires Less(q, p + ([i] + x))
    ensures Less(q, p + [i + 1])
    decreases |p|
  {
    if p == [] {
      assert p + ([i] + x) == [i] + x && p + [i + 1] == [i + 1];
    } else {
      Tails(p, [i] + x);
      Tails(p, [i + 1]);
      if q != [] && p[0] == q[0] {
        LessNext(q[1..], p[1..], i, x);
      }
    }
  }

  // ---------- the walk, with the path on which each table was first met ----------

  ghost predicate Recorded(h: LuaHeap, roots: seq<Value>, seen: seq<nat>, paths: seq<Path>, here: Path)
  {
    && |paths| == |seen|
    && forall j :: 0 <= j < |seen| ==> Simple(h, roots, paths[j], seen[j]) && Less(paths[j], here)
  }

  /** Slot i of the table reached by p was written as a short reference or was the first visit. */
  ghost predicate SlotSettled(v: Value, p: Path, i: nat, open: seq<nat>, seen: seq<nat>, paths: seq<Path>)
    requires |paths| == |seen|
  {
    v.Table? ==>
      || (v.id in open && |open| < MAX_DEPTH)
      || exists j :: 0 <= j < |seen| && seen[j] == v.id && paths[j] == p + [i]
  }

  ghost predicate SlotsSettled(vs: seq<Value>, p: Path, i: nat, open: seq<nat>, seen: seq<nat>, paths: seq<Path>)
    requires |paths| == |seen|
  {
    forall k :: 0 <= k < |vs| ==> SlotSettled(vs[k], p, i + k, open, seen, paths)
  }

  ghost predicate TablesSettled(h: LuaHeap, roots: seq<Value>, n: nat, seen: seq<nat>, paths: seq<Path>)
    requires |paths| == |seen|
  {
    forall j :: n <= j < |seen| ==>
      seen[j] in h && Trail(h, roots, paths[j]).Some?
      && SlotsSettled(Slots(h[seen[j]]), paths[j], 0, Trail(h, roots, paths[j]).value, seen, paths)
  }

  lemma SettledGrows(vs: seq<Value>, p: Path, i: nat, open: seq<nat>, seen: seq<nat>, paths: seq<Path>,
                     seen': seq<nat>, paths': seq<Path>)
    requires |paths| == |seen| && |paths'| == |seen'| && seen <= seen' && paths <= paths'
    requires SlotsSettled(vs, p, i, open, seen, paths)
    ensures SlotsSettled(vs, p, i, open, seen', paths')
  {
    forall k | 0 <= k < |vs| ensures SlotSettled(vs[k], p, i + k, open, seen', paths') {
      assert SlotSettled(vs[k], p, i + k, open, seen, paths);
      if j :| 0 <= j < |seen| && vs[k].Table? && seen[j] == vs[k].id && paths[j] == p + [i + k] {
        assert seen'[j] == seen[j] && paths'[j] == paths[j];
      }
    }
  }

  lemma TablesSettledGrows(h: LuaHeap, roots: seq<Value>, n: nat, seen: seq<nat>, paths: seq<Path>,
                           seen': seq<nat>, paths': seq<Path>)
    requires |paths| == |seen| && |paths'| == |seen'| && seen <= seen' && paths <= paths'
    requires TablesSettled(h, roots, n, seen, paths) && TablesSettled(h, roots, |seen|, seen', paths')
    ensures TablesSettled(h, roots, n, seen', paths')
  {
    forall j | n <= j < |seen'|
      ensures seen'[j] in h && Trail(h, roots, paths'[j]).Some?
              && SlotsSettled(Slots(h[seen'[j]]), paths'[j], 0, Trail(h, roots, paths'[j]).value, seen', paths') {
      if j < |seen| {
        assert seen'[j] == seen[j] && paths'[j] == paths[j];
        SettledGrows(Slots(h[seen[j]]), paths[j], 0, Trail(h, roots, paths[j]).value, seen, paths, seen', paths');
      }
    }
  }

  lemma TrailSnoc(h: LuaHeap, roots: seq<Value>, p: Path, open: seq<nat>, i: nat, id: nat)
    requires Trail(h, roots, p) == Some(open)
    requires i < |SlotsBelow(h, roots, open)| && SlotsBelow(h, roots, open)[i] == Table(id) && id in h
    ensures Trail(h, roots, p + [i]) == Some(open + [id])
  {
    assert (p + [i])[..|p + [i]| - 1] == p;
  }

  /** What one walk over slots i.. of the table at p establishes about the paths recorded so far and now. */
  ghost predicate Met(h: LuaHeap, roots: seq<Value>, vs: seq<Value>, p: Path, i: nat, open: seq<nat>, seen: seq<nat>,
                      paths: seq<Path>, w: Walk, paths': seq<Path>)
  {
    && paths <= paths' && |paths| == |seen|
    && Recorded(h, roots, w.seen, paths', p + [i + |vs|])
    && (OnlyBackLinks(h, roots) ==> ExtTargets(w.items) == {})
    && (ExtTargets(w.items) == {} ==>
          SlotsSettled(vs, p, i, open, w.seen, paths') && TablesSettled(h, roots, |seen|, w.seen, paths'))
  }

  lemma RecordedNext(h: LuaHeap, roots: seq<Value>, seen: seq<nat>, paths: seq<Path>, p: Path, i: nat)
    requires Recorded(h, roots, seen, paths, p + [i])
    ensures Recorded(h, roots, seen, paths, p + [i + 1])
    ensures Recorded(h, roots, seen, paths, p + [i] + [0])
  {
    forall j | 0 <= j < |seen| ensures Less(paths[j], p + [i + 1]) && Less(paths[j], p + [i] + [0]) {
      assert p + [i] == p + ([i] + []);
      LessNext(paths[j], p, i, []);
      LessAppend(paths[j], p + [i], [0]);
    }
  }

  lemma RecordedUp(h: LuaHeap, roots: seq<Value>, seen: seq<nat>, paths: seq<Path>, p: Path, i: nat, n: nat)
    requires Recorded(h, roots, seen, paths, p + [i] + [n])
    ensures Recorded(h, roots, seen, paths, p + [i + 1])
  {
    forall j | 0 <= j < |seen| ensures Less(paths[j], p + [i + 1]) {
      assert p + [i] + [n] == p + ([i] + [n]);
      LessNext(paths[j], p, i, [n]);
    }
  }

  /** An extended reference is written only where the graph is more than a forest with shallow back links. */
  lemma ExtNeedsMore(h: LuaHeap, roots: seq<Value>, p: Path, i: nat, id: nat, open: seq<nat>, seen: seq<nat>,
                     paths: seq<Path>)
    requires Trail(h, roots, p) == Some(open) && NoDuplicates(open)
    requires i < |SlotsBelow(h, roots, open)| && SlotsBelow(h, roots, open)[i] == Table(id) && id in h
    requires Recorded(h, roots, seen, paths, p + [i])
    requires ShortRef(open, id).None? && id in seen
    ensures !OnlyBackLinks(h, roots)
  {
    var q := p + [i];
    TrailSnoc(h, roots, p, open, i, id);
    assert (open + [id])[..|q| - 1] == open;
    if id in open {
      assert BackLink(h, roots, q);
    } else {
      NoDuplicatesSnoc(open, id);
      assert Simple(h, roots, q, id);
      var j := IndexOf(seen, id);
      LessNotEqual(q);
      assert Simple(h, roots, paths[j], id) && paths[j] != q;
    }
  }

  lemma {:induction false} MeetSlots(h: LuaHeap, roots: seq<Value>, vs: seq<Value>, p: Path, i: nat, open: seq<nat>,
                                     seen: seq<nat>, paths: seq<Path>) returns (paths': seq<Path>)
    requires Trail(h, roots, p) == Some(open) && NoDuplicates(open) && Ids(open) <= Ids(seen)
    requires i + |vs| == |SlotsBelow(h, roots, open)| && SlotsBelow(h, roots, open)[i..] == vs
    requires Recorded(h, roots, seen, paths, p + [i])
    requires Fail !in VisitAll(h, vs, open, seen).items
    ensures Met(h, roots, vs, p, i, open, seen, paths, VisitAll(h, vs, open, seen), paths')
    decreases Unseen(h, seen), |vs|, 1
  {
    hide Visit, Trail, Slots, SlotsBelow, Less, Unseen, NoDuplicates, OnlyBackLinks, ExtTargets, TablesSettled;
    if vs == [] {
      paths' := paths;
      MetNothing(h, roots, p, i, open, seen, paths);
    } else {
      var a := Visit(h, vs[0], open, seen);
      var b := VisitAll(h, vs[1..], open, a.seen);
      var pathsA := MeetSlot(h, roots, vs[0], p, i, open, seen, paths);
      UnseenShrinks(h, seen, a.seen);
      paths' := MeetSlots(h, roots, vs[1..], p, i + 1, open, a.seen, pathsA);
      MetCompose(h, roots, vs, p, i, open, seen, paths, a, pathsA, b, paths');
    }
  }

  lemma MetNothing(h: LuaHeap, roots: seq<Value>, p: Path, i: nat, open: seq<nat>, seen: seq<nat>, paths: seq<Path>)
    requires Recorded(h, roots, seen, paths, p + [i])
    ensures Met(h, roots, [], p, i, open, seen, paths, Walk([], seen), paths)
  {
  }

  lemma MetCompose(h: LuaHeap, roots: seq<Value>, vs: seq<Value>, p: Path, i: nat, open: seq<nat>, seen: seq<nat>,
                   paths: seq<Path>, a: Walk, pathsA: seq<Path>, b: Walk, pathsB: seq<Path>)
    requires vs != [] && seen <= a.seen <= b.seen
    requires Met(h, roots, [vs[0]], p, i, open, seen, paths, a, pathsA)
    requires Met(h, roots, vs[1..], p, i + 1, open, a.seen, pathsA, b, pathsB)
    ensures Met(h, roots, vs, p, i, open, seen, paths, Walk(a.items + b.items, b.seen), pathsB)
  {
    hide Trail, Slots, Less, OnlyBackLinks, ExtTargets, Simple;
    ExtTargetsConcat(a.items, b.items);
    PrefixTransitive(paths, pathsA, pathsB);
    if ExtTargets(a.items + b.items) == {} {
      SettledGrows([vs[0]], p, i, open, a.seen, pathsA, b.seen, pathsB);
      TablesSettledGrows(h, roots, |seen|, a.seen, pathsA, b.seen, pathsB);
      forall k | 0 <= k < |vs| ensures SlotSettled(vs[k], p, i + k, open, b.seen, pathsB) {
        if k == 0 {
          assert SlotSettled([vs[0]][0], p, i + 0, open, b.seen, pathsB);
        } else {
          assert SlotSettled(vs[1..][k - 1], p, i + 1 + (k - 1), open, b.seen, pathsB);
        }
      }
    }
  }

  lemma {:induction false} MeetSlot(h: LuaHeap, roots: seq<Value>, v: Value, p: Path, i: nat, open: seq<nat>,
                                    seen: seq<nat>, paths: seq<Path>) returns (paths': seq<Path>)
    requires Trail(h, roots, p) == Some(open) && NoDuplicates(open) && Ids(open) <= Ids(seen)
    requires i < |SlotsBelow(h, roots, open)| && SlotsBelow(h, roots, open)[i] == v
    requires Recorded(h, roots, seen, paths, p + [i])
    requires Fail !in Visit(h, v, open, seen).items
    ensures Met(h, roots, [v], p, i, open, seen, paths, Visit(h, v, open, seen), paths')
    decreases Unseen(h, seen), 0, 1
  {
    hide Trail, Slots, SlotsBelow, Less, NoDuplicates, OnlyBackLinks, TablesSettled;
    paths' := paths;
    RecordedNext(h, roots, seen, paths, p, i);
    if v.Table? && ShortRef(open, v.id).None? {
      if v.id in seen {
        SimpleInHeap(h, roots, paths[IndexOf(seen, v.id)], v.id);
        ExtNeedsMore(h, roots, p, i, v.id, open, seen, paths);
        MetExt(h, roots, v, p, i, open, seen, paths);
      } else {
        if v.id !in h {
          assert false by { SingleFail(Visit(h, v, open, seen).items); }
        }
        paths' := MeetNew(h, roots, v.id, p, i, open, seen, paths);
      }
    } else {
      MetPlain(h, roots, v, p, i, open, seen, paths);
    }
  }

  lemma SimpleInHeap(h: LuaHeap, roots: seq<Value>, p: Path, id: nat)
    requires Simple(h, roots, p, id)
    ensures id in h
  {
  }

  lemma MetExt(h: LuaHeap, roots: seq<Value>, v: Value, p: Path, i: nat, open: seq<nat>, seen: seq<nat>,
               paths: seq<Path>)
    requires Recorded(h, roots, seen, paths, p + [i + 1]) && !OnlyBackLinks(h, roots)
    requires v.Table? && ShortRef(open, v.id).None? && v.id in seen
    ensures Met(h, roots, [v], p, i, open, seen, paths, Visit(h, v, open, seen), paths)
  {
    hide Trail, Less, NoDuplicates, OnlyBackLinks, Simple;
    var e := Visit(h, v, open, seen).items;
    assert e[0].Ext? && e[0].target in ExtTargets(e);
  }

  lemma MetPlain(h: LuaHeap, roots: seq<Value>, v: Value, p: Path, i: nat, open: seq<nat>, seen: seq<nat>,
                 paths: seq<Path>)
    requires Recorded(h, roots, seen, paths, p + [i + 1])
    requires v.Table? ==> ShortRef(open, v.id).Some?
    ensures Met(h, roots, [v], p, i, open, seen, paths, Visit(h, v, open, seen), paths)
  {
    hide Trail, Less, NoDuplicates, OnlyBackLinks, Simple;
  }

  /** A first visit records the current path, then goes through the table's slots. */
  lemma {:induction false} MeetNew(h: LuaHeap, roots: seq<Value>, id: nat, p: Path, i: nat, open: seq<nat>,
                                   seen: seq<nat>, paths: seq<Path>) returns (paths': seq<Path>)
    requires Trail(h, roots, p) == Some(open) && NoDuplicates(open) && Ids(open) <= Ids(seen)
    requires i < |SlotsBelow(h, roots, open)| && SlotsBelow(h, roots, open)[i] == Table(id) && id in h
    requires Recorded(h, roots, seen, paths, p + [i])
    requires ShortRef(open, id).None? && id !in seen
    requires Fail !in Visit(h, Table(id), open, seen).items
    ensures Met(h, roots, [Table(id)], p, i, open, seen, paths, Visit(h, Table(id), open, seen), paths')
    decreases Unseen(h, seen), 0, 0
  {
    hide Visit, VisitAll, Trail, Slots, SlotsBelow, Less, OnlyBackLinks, ExtTargets, Unseen, Recorded, TablesSettled,
         SlotsSettled, NoDuplicates, ShortRef, Ids, Met;
    var q, seen1, paths1 := p + [i], seen + [id], paths + [p + [i]];
    RecordNew(h, roots, id, p, i, open, seen, paths);
    VisitSlots(h, id, open, seen);
    UnseenShrinks(h, seen, seen1);
    var s := VisitAll(h, Slots(h[id]), open + [id], seen1);
    SlotsOf(h, roots, open, id);
    assert Slots(h[id])[0..] == Slots(h[id]);
    paths' := MeetSlots(h, roots, Slots(h[id]), q, 0, open + [id], seen1, paths1);
    MetNew(h, roots, id, p, i, open, seen, paths, s, Visit(h, Table(id), open, seen), paths');
  }

  lemma SlotsOf(h: LuaHeap, roots: seq<Value>, open: seq<nat>, id: nat)
    requires id in h
    ensures SlotsBelow(h, roots, open + [id]) == Slots(h[id])
  {
  }

  lemma NotInIds(id: nat, seen: seq<nat>)
    ensures id in Ids(seen) <==> id in seen
  {
  }

  lemma RecordNew(h: LuaHeap, roots: seq<Value>, id: nat, p: Path, i: nat, open: seq<nat>, seen: seq<nat>,
                  paths: seq<Path>)
    requires Trail(h, roots, p) == Some(open) && NoDuplicates(open) && Ids(open) <= Ids(seen)
    requires i < |SlotsBelow(h, roots, open)| && SlotsBelow(h, roots, open)[i] == Table(id) && id in h
    requires Recorded(h, roots, seen, paths, p + [i]) && id !in seen
    ensures Trail(h, roots, p + [i]) == Some(open + [id]) && NoDuplicates(open + [id])
    ensures Recorded(h, roots, seen + [id], paths + [p + [i]], p + [i] + [0])
    ensures Ids(open + [id]) <= Ids(seen + [id]) && |paths| == |seen|
  {
    hide Trail, Slots, SlotsBelow, NoDuplicates, Less, Ids;
    TrailSnoc(h, roots, p, open, i, id);
    NotInIds(id, seen);
    NotInIds(id, open);
    NoDuplicatesSnoc(open, id);
    RecordedNext(h, roots, seen, paths, p, i);
    LessExtended(p + [i], 0);
    IdsSnoc(open, id);
    IdsSnoc(seen, id);
  }

  lemma MetNew(h: LuaHeap, roots: seq<Value>, id: nat, p: Path, i: nat, open: seq<nat>, seen: seq<nat>,
               paths: seq<Path>, s: Walk, w: Walk, paths': seq<Path>)
    requires id in h && Trail(h, roots, p + [i]) == Some(open + [id]) && |paths| == |seen|
    requires seen + [id] <= s.seen
    requires Met(h, roots, Slots(h[id]), p + [i], 0, open + [id], seen + [id], paths + [p + [i]], s, paths')
    requires w == Walk([Open(|seen|, h[id].border)] + s.items + [Plain(Nil)], s.seen)
    ensures Met(h, roots, [Table(id)], p, i, open, seen, paths, w, paths')
  {
    hide Trail, Slots, Less, OnlyBackLinks, ExtTargets, Simple, NoDuplicates;
    var q := p + [i];
    var o, n := [Open(|seen|, h[id].border)], [Plain(Nil)];
    ExtTargetsConcat(o + s.items, n);
    ExtTargetsConcat(o, s.items);
    NoTargets(o[0]);
    NoTargets(n[0]);
    RecordedUp(h, roots, s.seen, paths', p, i, |Slots(h[id])|);
    assert paths <= paths + [q];
    PrefixTransitive(paths, paths + [q], paths');
    assert paths'[|seen|] == (paths + [q])[|seen|] == q && s.seen[|seen|] == (seen + [id])[|seen|] == id;
  }

  lemma NoTargets(i: Item)
    requires !i.Ext?
    ensures ExtTargets([i]) == {}
  {
  }

  // ---------- the other direction ----------

  lemma NoDuplicatesInit(s: seq<nat>)
    requires NoDuplicates(s) && s != []
    ensures NoDuplicates(s[..|s| - 1]) && s[|s| - 1] !in s[..|s| - 1]
  {
  }

  lemma TrailInit(h: LuaHeap, roots: seq<Value>, p: Path)
    requires p != [] && Trail(h, roots, p).Some?
    ensures var trail := Trail(h, roots, p).value;
            Trail(h, roots, p[..|p| - 1]) == Some(trail[..|p| - 1])
  {
  }

  /** Without extended references every simple path is the one on which its table was first met. */
  lemma {:induction false} SimpleIsRecorded(h: LuaHeap, roots: seq<Value>, p: Path, id: nat, seen: seq<nat>,
                                            paths: seq<Path>)
    requires NoDuplicates(seen) && |paths| == |seen| && TablesSettled(h, roots, 0, seen, paths)
    requires SlotsSettled(roots, [], 0, [], seen, paths)
    requires Simple(h, roots, p, id)
    ensures id in seen && paths[IndexOf(seen, id)] == p
    decreases |p|
  {
    var p', i := p[..|p| - 1], p[|p| - 1];
    hide Trail, SlotsSettled, TablesSettled, NoDuplicates;
    TrailInit(h, roots, p);
    var open := Trail(h, roots, p').value;
    NoDuplicatesInit(Trail(h, roots, p).value);
    SlotOnPath(h, roots, p, open, seen, paths);
    SnocSplit(p);
    hide Simple;
    var j :| 0 <= j < |seen| && seen[j] == id && paths[j] == p;
    IndexOfPosition(seen, j);
  }

  /** The last slot of a path whose tables are distinct has been settled. */
  lemma {:induction false} SlotOnPath(h: LuaHeap, roots: seq<Value>, p: Path, open: seq<nat>, seen: seq<nat>,
                                      paths: seq<Path>)
    requires NoDuplicates(seen) && |paths| == |seen| && TablesSettled(h, roots, 0, seen, paths)
    requires SlotsSettled(roots, [], 0, [], seen, paths)
    requires p != [] && Trail(h, roots, p).Some? && Trail(h, roots, p[..|p| - 1]) == Some(open) && NoDuplicates(open)
    ensures SlotSettled(Table(Trail(h, roots, p).value[|p| - 1]), p[..|p| - 1], p[|p| - 1], open, seen, paths)
    decreases |p|, 0
  {
    var p', i := p[..|p| - 1], p[|p| - 1];
    if open == [] {
      assert SlotSettled(roots[i], [], 0 + i, [], seen, paths);
    } else {
      var t := open[|open| - 1];
      assert Simple(h, roots, p', t);
      SimpleIsRecorded(h, roots, p', t, seen, paths);
      assert SlotSettled(Slots(h[t])[i], p', 0 + i, open, seen, paths);
    }
  }

  lemma SettledOnlyBackLinks(h: LuaHeap, roots: seq<Value>, seen: seq<nat>, paths: seq<Path>)
    requires NoDuplicates(seen) && |paths| == |seen| && TablesSettled(h, roots, 0, seen, paths)
    requires SlotsSettled(roots, [], 0, [], seen, paths)
    ensures OnlyBackLinks(h, roots)
  {
    forall p, q, id | Simple(h, roots, p, id) && Simple(h, roots, q, id) ensures p == q {
      SimpleIsRecorded(h, roots, p, id, seen, paths);
      SimpleIsRecorded(h, roots, q, id, seen, paths);
    }
    forall p | BackLink(h, roots, p) ensures |p| <= MAX_DEPTH {
      BackLinkShallow(h, roots, p, seen, paths);
    }
  }

  lemma BackLinkShallow(h: LuaHeap, roots: seq<Value>, p: Path, seen: seq<nat>, paths: seq<Path>)
    requires NoDuplicates(seen) && |paths| == |seen| && TablesSettled(h, roots, 0, seen, paths)
    requires SlotsSettled(roots, [], 0, [], seen, paths) && BackLink(h, roots, p)
    ensures |p| <= MAX_DEPTH
  {
    hide Trail, SlotsSettled, TablesSettled, NoDuplicates, Simple;
    var p' := p[..|p| - 1];
    TrailInit(h, roots, p);
    var open, id := Trail(h, roots, p').value, Trail(h, roots, p).value[|p| - 1];
    SlotOnPath(h, roots, p, open, seen, paths);
    if |open| >= MAX_DEPTH {
      var j :| 0 <= j < |seen| && seen[j] == id && paths[j] == p' + [p[|p| - 1]];
      assert p' + [p[|p| - 1]] == p;
      var k :| 0 <= k < |open| && open[k] == id;
      PrefixSimple(h, roots, p', open, k);
      SimpleIsRecorded(h, roots, p'[..k + 1], id, seen, paths);
      IndexOfPosition(seen, j);
    }
  }

  lemma PrefixOfInit(s: seq<nat>, k: nat)
    requires k < |s|
    ensures s[..|s| - 1][..k] == s[..k]
    ensures k > 0 ==> s[..|s| - 1][k - 1] == s[k - 1]
  {
  }

  lemma {:induction false} PrefixSimple(h: LuaHeap, roots: seq<Value>, p: Path, open: seq<nat>, k: nat)
    requires Trail(h, roots, p) == Some(open) && NoDuplicates(open) && k < |p|
    ensures Simple(h, roots, p[..k + 1], open[k]) && Trail(h, roots, p[..k + 1]) == Some(open[..k + 1])
    decreases |p|
  {
    hide Trail;
    if k == |p| - 1 {
      assert p[..k + 1] == p && open[..k + 1] == open;
    } else {
      var p' := p[..|p| - 1];
      TrailInit(h, roots, p);
      NoDuplicatesInit(open);
      PrefixSimple(h, roots, p', open[..|p| - 1], k);
      PrefixOfInit(p, k + 1);
      PrefixOfInit(open, k + 1);
    }
  }

  /** No extended reference is needed exactly when the graph is a forest with back links that are not too deep. */
  lemma NoExtExactly(h: LuaHeap, roots: seq<Value>)
    requires Fail !in Pack(h, roots).items
    ensures ExtTargets(Pack(h, roots).items) == {} <==> OnlyBackLinks(h, roots)
  {
    hide Visit, VisitAll, OnlyBackLinks, ExtTargets, TablesSettled, SlotsSettled, Simple;
    var w := Pack(h, roots);
    var paths := MeetSlots(h, roots, roots, [], 0, [], [], []);
    if ExtTargets(w.items) == {} {
      VisitAllCovers(h, roots, [], []);
      SettledOnlyBackLinks(h, roots, w.seen, paths);
    }
  }
}
