/** src/registry.c: names bound to pointers, kept in a hash table. */
module Registry {
  import opened Bits
  import opened HashChains
  import opened HashIndex

  method Get(reg: HashTable, key: string) returns (p: Entry?)
    requires reg.Valid()
    ensures p == if key in reg.entries then reg.entries[key] else null
  {
    p := reg.Find(key);
  }

  /** The first binding of a key wins. The entry has room for 31 characters and a terminator. */
  method Put(reg: HashTable, key: string, ptr: Ptr) returns (p: Entry)
    requires reg.Valid() && |key| <= 31
    modifies reg, reg.buckets, reg.order
    ensures reg.Valid() && p.key == key
    ensures if key in old(reg.entries) then p == old(reg.entries)[key] && reg.entries == old(reg.entries)
            else fresh(p) && p.ptr == ptr && reg.entries == old(reg.entries)[key := p]
    ensures reg.order == if key in old(reg.entries) then old(reg.order) else old(reg.order) + [p]
    ensures reg.buckets == old(reg.buckets) || fresh(reg.buckets)
  {
    hide HashTable.Valid, Placed;
    var found := Get(reg, key);
    if found != null {
      Keyed(reg, key);
      return found;
    }
    p := new Entry(key, ptr, reg.hash(key));
    reg.Add(p);
  }

  lemma Keyed(reg: HashTable, key: string)
    requires reg.Valid() && key in reg.entries
    ensures reg.entries[key].key == key && reg.entries[key] in reg.order
  {
  }

  /** The pointer that comes back is always null. */
  method Del(reg: HashTable, key: string) returns (r: Entry?)
    requires reg.Valid()
    modifies reg, reg.buckets, reg.order
    ensures reg.Valid() && reg.entries == old(reg.entries) - {key} && r == null
    ensures reg.buckets == old(reg.buckets)
    ensures forall i :: 0 <= i < |reg.order| ==> reg.order[i] in old(reg.order)
  {
    hide HashTable.Valid, Without, IndexOf, BucketOf;
    var p := Get(reg, key);
    if p != null {
      Keyed(reg, key);
      ghost var s := reg.order;
      reg.Delete(p);
      WithoutWithin(s, IndexOf<Entry>(s, p));
    } else {
      assert reg.entries - {key} == reg.entries;
    }
    r := null;
  }

  lemma WithoutWithin(s: seq<Entry>, i: nat)
    requires i < |s|
    ensures forall j :: 0 <= j < |Without(s, i)| ==> Without(s, i)[j] in s
  {
  }

  // ---------- any sequence of operations ----------

  datatype Operation = DoPut(key: string, ptr: Ptr) | DoGet(key: string) | DoDel(key: string)

  function Lookup(m: map<string, Ptr>, key: string): Option<Ptr>
  {
    if key in m then Some(m[key]) else None
  }

  /** One operation on a plain map: the map afterwards and the pointer returned. */
  function Step(m: map<string, Ptr>, op: Operation): (map<string, Ptr>, Option<Ptr>)
  {
    match op
    case DoPut(key, ptr) => if key in m then (m, Some(m[key])) else (m[key := ptr], Some(ptr))
    case DoGet(key) => (m, Lookup(m, key))
    case DoDel(key) => (m - {key}, None)
  }

  function After(m: map<string, Ptr>, ops: seq<Operation>): map<string, Ptr>
  {
    if ops == [] then m else Step(After(m, ops[..|ops| - 1]), ops[|ops| - 1]).0
  }

  function Results(m: map<string, Ptr>, ops: seq<Operation>): (r: seq<Option<Ptr>>)
    ensures |r| == |ops|
  {
    if ops == [] then []
    else Results(m, ops[..|ops| - 1]) + [Step(After(m, ops[..|ops| - 1]), ops[|ops| - 1]).1]
  }

  /** What a registry holds. */
  ghost function Contents(entries: map<string, Entry>): map<string, Ptr>
  {
    map key | key in entries :: entries[key].ptr
  }

  method Apply(reg: HashTable, op: Operation) returns (r: Option<Ptr>)
    requires reg.Valid() && (op.DoPut? ==> |op.key| <= 31)
    modifies reg, reg.buckets, reg.order
    ensures reg.Valid() && (Contents(reg.entries), r) == Step(Contents(old(reg.entries)), op)
    ensures reg.buckets == old(reg.buckets) || fresh(reg.buckets)
    ensures forall i :: 0 <= i < |reg.order| ==> reg.order[i] in old(reg.order) || fresh(reg.order[i])
  {
    hide HashTable.Valid;
    match op
    case DoPut(key, ptr) =>
      var p := Put(reg, key, ptr);
      r := Some(p.ptr);
      assert Contents(reg.entries) == Step(Contents(old(reg.entries)), op).0;
    case DoGet(key) =>
      var p := Get(reg, key);
      r := if p == null then None else Some(p.ptr);
    case DoDel(key) =>
      var p := Del(reg, key);
      r := None;
      assert Contents(reg.entries) == Contents(old(reg.entries)) - {key};
  }

  lemma EmptyContents()
    ensures Contents(map[]) == map[]
  {
  }

  /** Whatever the hash function, a registry answers every sequence of operations as a map would. */
  method Replay(hash: string -> nat, ops: seq<Operation>) returns (results: seq<Option<Ptr>>)
    requires forall i :: 0 <= i < |ops| && ops[i].DoPut? ==> |ops[i].key| <= 31
    ensures results == Results(map[], ops)
  {
    hide HashTable.Valid, Step, Contents;
    var reg := new HashTable(hash);
    EmptyContents();
    results := [];
    var i := 0;
    while i < |ops|
      invariant i <= |ops| && reg.Valid() && fresh(reg) && fresh(reg.buckets)
      invariant forall j :: 0 <= j < |reg.order| ==> fresh(reg.order[j])
      invariant results == Results(map[], ops[..i]) && Contents(reg.entries) == After(map[], ops[..i])
    {
      var r := Apply(reg, ops[i]);
      assert ops[..i + 1][..i] == ops[..i];
      results := results + [r];
      i := i + 1;
    }
    assert ops[..i] == ops;
  }

  /** A binding lasts until its key is deleted, whatever else is put. */
  lemma {:induction false} FirstBindingLasts(m: map<string, Ptr>, ops: seq<Operation>, key: string)
    requires key in m && forall i :: 0 <= i < |ops| ==> ops[i] != DoDel(key)
    ensures key in After(m, ops) && After(m, ops)[key] == m[key]
  {
    if ops != [] {
      FirstBindingLasts(m, ops[..|ops| - 1], key);
    }
  }
}
