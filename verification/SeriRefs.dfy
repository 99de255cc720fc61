/** The reference index of the writer: an array for the first 32 objects, two Lua tables from the 33rd on. */
module SeriRefs {
  import opened Bits
  import opened LuaValues
  import opened SeriFormat
  import opened SeriBlocks
  import opened SeriWalk
  import opened SeriSimulation

  /** One slot of `struct reference`; a cleared address is None. */
  datatype Reference = Reference(obj: nat, address: Option<Address>)

  /** The array holds the objects in order of first visit, with the address of each tag not yet marked. */
  ghost predicate ArrayHolds(r: seq<Reference>, seen: seq<nat>, tags: seq<Address>, marked: set<nat>)
  {
    && |seen| == |tags| <= |r|
    && forall i :: 0 <= i < |seen| ==> r[i] == Reference(seen[i], if i in marked then None else Some(tags[i]))
  }

  lemma ArrayHoldsOneMore(r: seq<Reference>, seen: seq<nat>, tags: seq<Address>, marked: set<nat>, obj: nat,
                          addr: Address)
    requires ArrayHolds(r, seen, tags, marked) && |seen| < |r| && |seen| !in marked
    ensures ArrayHolds(r[|seen| := Reference(obj, Some(addr))], seen + [obj], tags + [addr], marked)
  {
  }

  /** The two tables hold the same: numbers by object, addresses of unmarked tags by number. */
  ghost predicate TablesHold(ids: map<nat, int>, addresses: map<int, Address>, seen: seq<nat>, tags: seq<Address>,
                             marked: set<nat>)
  {
    && |seen| == |tags|
    && (forall i :: 0 <= i < |seen| ==> seen[i] in ids && ids[seen[i]] == i + 1)
    && (forall obj :: obj in ids ==> obj in seen)
    && (forall i :: 0 <= i < |seen| ==>
          if i in marked then i + 1 !in addresses else i + 1 in addresses && addresses[i + 1] == tags[i])
    && (forall k :: k in addresses ==> 0 < k <= |seen|)
  }

  lemma TablesHoldOneMore(ids: map<nat, int>, addresses: map<int, Address>, seen: seq<nat>, tags: seq<Address>,
                          marked: set<nat>, obj: nat, addr: Address)
    requires TablesHold(ids, addresses, seen, tags, marked) && obj !in seen
    ensures TablesHold(ids[obj := |seen| + 1],
                       if |seen| in marked then addresses else addresses[|seen| + 1 := addr],
                       seen + [obj], tags + [addr], marked)
  {
    assert (seen + [obj])[|seen|] == obj;
  }

  lemma TablesHoldMarked(ids: map<nat, int>, addresses: map<int, Address>, seen: seq<nat>, tags: seq<Address>,
                         marked: set<nat>, n: nat)
    requires TablesHold(ids, addresses, seen, tags, marked) && n < |seen|
    ensures TablesHold(ids, addresses - {n + 1}, seen, tags, marked + {n})
    ensures n in marked ==> addresses - {n + 1} == addresses && marked + {n} == marked
  {
  }

  lemma TablesHoldNothing(marked: set<nat>)
    ensures TablesHold(map[], map[], [], [], marked)
  {
  }

  lemma NotBefore(seen: seq<nat>, i: nat)
    requires NoDuplicates(seen) && i < |seen|
    ensures seen[i] !in seen[..i]
  {
  }

  class RefIndex {
    var objectid: int
    const r: array<Reference>
    var ids: map<nat, int>
    var addresses: map<int, Address>
    /** The abstract index: objects in order of first visit, where their tags are, and which tags are marked. */
    ghost var seen: seq<nat>
    ghost var tags: seq<Address>
    ghost var marked: set<nat>

    ghost predicate Valid()
      reads this, r
    {
      && r.Length == 32
      && objectid == |seen| == |tags| && NoDuplicates(seen)
      && if objectid <= 32 then ArrayHolds(r[..], seen, tags, marked)
         else TablesHold(ids, addresses, seen, tags, marked)
    }

    constructor ()
      ensures Valid() && fresh(r) && seen == [] && tags == [] && marked == {}
    {
      objectid := 0;
      var filler: Reference := Reference(0, None);
      r := new Reference[MAX_REFERENCE](_ => filler);
      ids, addresses := map[], map[];
      seen, tags, marked := [], [], {};
    }

    /** The move to the two tables, made when the 33rd object arrives. */
    method Migrate()
      requires r.Length == 32 == |seen| && NoDuplicates(seen) && ArrayHolds(r[..], seen, tags, marked)
      modifies this`ids, this`addresses
      ensures TablesHold(ids, addresses, seen, tags, marked)
    {
      hide TablesHold, NoDuplicates;
      ids, addresses := map[], map[];
      TablesHoldNothing(marked);
      var i := 0;
      while i < MAX_REFERENCE
        invariant 0 <= i <= MAX_REFERENCE
        invariant TablesHold(ids, addresses, seen[..i], tags[..i], marked)
      {
        NotBefore(seen, i);
        TablesHoldOneMore(ids, addresses, seen[..i], tags[..i], marked, seen[i], tags[i]);
        TakeNext(seen, i);
        TakeNext(tags, i);
        assert r[..][i] == r[i];
        ids := ids[r[i].obj := i + 1];
        if r[i].address.Some? {
          addresses := addresses[i + 1 := r[i].address.value];
        }
        i := i + 1;
      }
      TakeAll(seen);
      TakeAll(tags);
    }

    /** mark_table: object number |seen| is given to a table met for the first time. */
    method Mark(obj: nat, addr: Address)
      requires Valid() && obj !in seen && |seen| !in marked
      modifies this, r
      ensures Valid() && marked == old(marked)
      ensures seen == old(seen) + [obj] && tags == old(tags) + [addr]
    {
      hide ArrayHolds, TablesHold, NoDuplicates;
      var id := objectid;
      objectid := objectid + 1;
      if id == MAX_REFERENCE {
        Migrate();
      }
      TablesHoldNext(obj, addr);
      if id < MAX_REFERENCE {
        ArrayHoldsOneMore(r[..], seen, tags, marked, obj, addr);
        r[id] := Reference(obj, Some(addr));
        assert r[..] == old(r[..])[id := Reference(obj, Some(addr))];
      } else {
        ids := ids[obj := id + 1];
        addresses := addresses[id + 1 := addr];
      }
      seen, tags := seen + [obj], tags + [addr];
      NoDuplicatesSnoc(old(seen), obj);
    }

    lemma TablesHoldNext(obj: nat, addr: Address)
      requires obj !in seen && |seen| !in marked && |seen| == |tags|
      ensures TablesHold(ids, addresses, seen, tags, marked) ==>
                TablesHold(ids[obj := |seen| + 1], addresses[|seen| + 1 := addr], seen + [obj], tags + [addr], marked)
    {
      if TablesHold(ids, addresses, seen, tags, marked) {
        TablesHoldOneMore(ids, addresses, seen, tags, marked, obj, addr);
      }
    }

    lemma NoDuplicatesSnoc(s: seq<nat>, obj: nat)
      requires NoDuplicates(s) && obj !in s
      ensures NoDuplicates(s + [obj])
    {
    }

    /** lookup_ref: the object's number plus one, zero for a new object. Its tag's address is handed out for marking
        the first time only, and cleared. */
    method Lookup(obj: nat) returns (id: int, tag: Option<Address>)
      requires Valid()
      modifies this, r
      ensures Valid() && seen == old(seen) && tags == old(tags)
      ensures obj !in seen ==> id == 0 && tag == None && marked == old(marked)
      ensures obj in seen ==>
                var n := IndexOf(seen, obj);
                id == n + 1 && marked == old(marked) + {n}
                && tag == if n in old(marked) then None else Some(tags[n])
    {
      if objectid <= MAX_REFERENCE {
        id, tag := LookupInArray(obj);
      } else {
        id, tag := LookupInTables(obj);
      }
    }

    method LookupInArray(obj: nat) returns (id: int, tag: Option<Address>)
      requires Valid() && objectid <= MAX_REFERENCE
      modifies this`marked, r
      ensures Valid()
      ensures obj !in seen ==> id == 0 && tag == None && marked == old(marked)
      ensures obj in seen ==>
                var n := IndexOf(seen, obj);
                id == n + 1 && marked == old(marked) + {n}
                && tag == if n in old(marked) then None else Some(tags[n])
    {
      var i := 0;
      while i < objectid
        invariant 0 <= i <= objectid && obj !in seen[..i]
      {
        assert r[..][i] == r[i];
        if obj == r[i].obj {
          IndexOfPosition(seen, i);
          tag := r[i].address;
          r[i] := Reference(obj, None);
          marked := marked + {i};
          return i + 1, tag;
        }
        i := i + 1;
      }
      return 0, None;
    }

    method LookupInTables(obj: nat) returns (id: int, tag: Option<Address>)
      requires Valid() && objectid > MAX_REFERENCE
      modifies this`marked, this`addresses
      ensures Valid()
      ensures obj !in seen ==> id == 0 && tag == None && marked == old(marked)
      ensures obj in seen ==>
                var n := IndexOf(seen, obj);
                id == n + 1 && marked == old(marked) + {n}
                && tag == if n in old(marked) then None else Some(tags[n])
    {
      if obj !in ids {
        return 0, None;
      }
      ghost var n := IndexOf(seen, obj);
      TablesHoldMarked(ids, addresses, seen, tags, marked, n);
      id := ids[obj];
      if id in addresses {
        tag := Some(addresses[id]);
        addresses := addresses - {id};
      } else {
        tag := None;
      }
      marked := marked + {n};
    }
  }
}
