/** The integrity check of src/uthash.h, and that it never finds anything. */
module HashFsck {
  import opened Bits
  import opened MergeSort
  import opened HashChains
  import opened HashExpand
  import opened HashIndex

  // ---------- counting the items twice ----------

  ghost function Members(s: seq<Entry>): set<Entry> { set e | e in s }

  lemma {:induction false} DistinctSize(s: seq<Entry>)
    requires Distinct(s)
    ensures |Members(s)| == |s|
  {
    if s != [] {
      var init, last := s[..|s| - 1], s[|s| - 1];
      DistinctSize(init);
      SnocSplit(s);
      assert Members(s) == Members(init) + {last};
      assert last !in Members(init);
    }
  }

  /** The sum of the bucket counts. */
  function Total(chains: seq<seq<Entry>>): nat
  {
    if chains == [] then 0 else Total(chains[..|chains| - 1]) + |chains[|chains| - 1]|
  }

  ghost function AllMembers(chains: seq<seq<Entry>>): set<Entry>
  {
    if chains == [] then {} else AllMembers(chains[..|chains| - 1]) + Members(chains[|chains| - 1])
  }

  lemma {:induction false} AllMembersHas(chains: seq<seq<Entry>>, e: Entry)
    ensures e in AllMembers(chains) <==> exists b :: 0 <= b < |chains| && e in chains[b]
  {
    if chains != [] {
      var init := chains[..|chains| - 1];
      AllMembersHas(init, e);
      if b :| 0 <= b < |chains| && e in chains[b] {
        assert b < |init| ==> e in init[b];
      }
      if b :| 0 <= b < |init| && e in init[b] {
        assert e in chains[b];
      }
    }
  }

  /** Chains of different buckets share no item, so their lengths add up. */
  lemma {:induction false} TotalCountsMembers(chains: seq<seq<Entry>>, k: nat)
    requires AllDistinct(chains) && forall b, e :: 0 <= b < |chains| && e in chains[b] ==> BucketOf(e.hashv, k) == b
    ensures Total(chains) == |AllMembers(chains)|
  {
    hide BucketOf;
    if chains != [] {
      var init, last := chains[..|chains| - 1], chains[|chains| - 1];
      TotalCountsMembers(init, k);
      DistinctSize(last);
      forall e | e in last ensures e !in AllMembers(init) {
        AllMembersHas(init, e);
        assert BucketOf(e.hashv, k) == |chains| - 1;
        forall b | 0 <= b < |init| ensures e !in init[b] {
          assert init[b] == chains[b];
        }
      }
      assert AllMembers(init) !! Members(last);
    }
  }

  /** The bucket counts add up to the number of items in application order. */
  lemma BucketsCountEveryItem(chains: seq<seq<Entry>>, order: seq<Entry>, k: nat)
    requires Covers(chains, order, k) && AllDistinct(chains) && Distinct(order)
    ensures Total(chains) == |order|
  {
    hide BucketOf;
    TotalCountsMembers(chains, k);
    DistinctSize(order);
    forall e | e in AllMembers(chains) ensures e in order {
      AllMembersHas(chains, e);
    }
    forall e | e in order ensures e in AllMembers(chains) {
      AllMembersHas(chains, e);
    }
    assert AllMembers(chains) == Members(order);
  }

  // ---------- the walks ----------

  ghost predicate ChainBackward(s: seq<Entry>)
    reads s`hhPrev
  {
    forall i :: 0 <= i < |s| ==> s[i].hhPrev == At(s, i - 1)
  }

  ghost predicate AppForward(s: seq<Entry>)
    reads s`next
  {
    forall i :: 0 <= i < |s| ==> s[i].next == At(s, i + 1)
  }

  ghost predicate AppBackward(s: seq<Entry>)
    reads s`prev
  {
    forall i :: 0 <= i < |s| ==> s[i].prev == At(s, i - 1)
  }

  /** One bucket's chain, as its forward links give it: every hh_prev must be the item before. */
  method WalkBucket(head: Entry?, ghost chain: seq<Entry>) returns (ok: bool, count: nat)
    requires ChainForward(chain) && head == First(chain)
    ensures ok <==> ChainBackward(chain)
    ensures ok ==> count == |chain|
  {
    var thh, prev := head, null;
    count := 0;
    while thh != null
      invariant count <= |chain| && thh == At(chain, count) && prev == At(chain, count - 1)
      invariant forall i :: 0 <= i < count ==> chain[i].hhPrev == At(chain, i - 1)
      decreases |chain| - count
    {
      if prev != thh.hhPrev {
        return false, count;
      }
      count := count + 1;
      prev := thh;
      thh := thh.hhNext;
    }
    return true, count;
  }

  /** The application-order list, as its forward links give it: every prev must be the item before. */
  method WalkList(head: Entry?, ghost order: seq<Entry>) returns (ok: bool, count: nat)
    requires AppForward(order) && head == First(order)
    ensures ok <==> AppBackward(order)
    ensures ok ==> count == |order|
  {
    var thh, prev := head, null;
    count := 0;
    while thh != null
      invariant count <= |order| && thh == At(order, count) && prev == At(order, count - 1)
      invariant forall i :: 0 <= i < count ==> order[i].prev == At(order, i - 1)
      decreases |order| - count
    {
      count := count + 1;
      if prev != thh.prev {
        return false, count;
      }
      prev := thh;
      thh := thh.next;
    }
    return true, count;
  }

  /** The forward links are all there: the walks visit these chains and this list. */
  ghost predicate Walkable(t: HashTable)
    reads t, t.buckets, t.order, set b, i | 0 <= b < |t.chains| && 0 <= i < |t.chains[b]| :: t.chains[b][i]
  {
    && t.numBuckets == t.buckets.Length == |t.chains| && AppForward(t.order) && t.head == First(t.order)
    && forall b :: 0 <= b < |t.chains| ==> ChainForward(t.chains[b]) && t.buckets[b].head == First(t.chains[b])
  }

  /** The rest is right too: back links, the count of each bucket, and the number of items, counted both ways. */
  ghost predicate Sound(t: HashTable)
    reads t, t.buckets, t.order, set b, i | 0 <= b < |t.chains| && 0 <= i < |t.chains[b]| :: t.chains[b][i]
    requires t.buckets.Length == |t.chains|
  {
    && (forall b :: 0 <= b < |t.chains| ==> SoundBucket(t.buckets[b], t.chains[b]))
    && Total(t.chains) == t.numItems && AppBackward(t.order) && |t.order| == t.numItems
  }

  ghost predicate SoundBucket(bucket: Bucket, chain: seq<Entry>)
    reads chain`hhPrev
  {
    ChainBackward(chain) && bucket.count == |chain|
  }

  /** HASH_FSCK, on any table whose forward links are all there: it finds fault exactly when there is one. */
  method Check(t: HashTable) returns (ok: bool)
    requires Walkable(t)
    ensures ok <==> t.head == null || Sound(t)
  {
    if t.head == null {
      return true;
    }
    hide At, First, Last, ChainForward, ChainBackward, AppForward, AppBackward;
    var count, b := 0, 0;
    while b < t.numBuckets
      invariant b <= t.numBuckets && count == Total(t.chains[..b])
      invariant forall c :: 0 <= c < b ==> SoundBucket(t.buckets[c], t.chains[c])
    {
      var fine, bucketCount := WalkBucket(t.buckets[b].head, t.chains[b]);
      if !fine {
        assert !SoundBucket(t.buckets[b], t.chains[b]);
        return false;
      }
      count := count + bucketCount;
      if t.buckets[b].count != bucketCount {
        assert !SoundBucket(t.buckets[b], t.chains[b]);
        return false;
      }
      TakeNext(t.chains, b);
      assert t.chains[..b + 1][..b] == t.chains[..b];
      b := b + 1;
    }
    TakeAll(t.chains);
    if count != t.numItems {
      return false;
    }
    var fine, listed := WalkList(t.head, t.order);
    return fine && listed == t.numItems;
  }

  /** On a table that has only been used through its operations it finds none. */
  method Fsck(t: HashTable) returns (ok: bool)
    requires t.Valid()
    ensures ok
  {
    if t.head == null {
      return true;
    }
    hide Covers, Describes, Indexes, At, First, Last, AllDistinct, StillToMove, ChainLinked, Sound, Walkable;
    ValidIsSound(t);
    ok := Check(t);
  }

  lemma ValidIsSound(t: HashTable)
    requires t.Valid() && t.head != null
    ensures Walkable(t) && Sound(t)
  {
    hide Covers, Describes, Indexes, At, First, Last, AllDistinct, StillToMove, ChainLinked;
    OldBuckets(t.buckets, t.chains, t.order, t.log2);
    LinkedDistinct(t.order);
    BucketsCountEveryItem(t.chains, t.order, t.log2);
    ListLinks(t.order);
    forall b | 0 <= b < |t.chains|
      ensures ChainForward(t.chains[b]) && t.buckets[b].head == First(t.chains[b])
      ensures SoundBucket(t.buckets[b], t.chains[b])
    {
      DescribedChain(t.buckets, t.chains, t.order, t.log2, b);
      ChainLinks(t.chains[b]);
    }
  }

  lemma ChainLinks(s: seq<Entry>)
    requires ChainLinked(s)
    ensures ChainForward(s) && ChainBackward(s)
  {
  }

  lemma ListLinks(s: seq<Entry>)
    requires AppLinked(s)
    ensures AppForward(s) && AppBackward(s)
  {
  }

  lemma DescribedChain(buckets: array<Bucket>, chains: seq<seq<Entry>>, order: seq<Entry>, k: nat, b: nat)
    requires Covers(chains, order, k) && Describes(buckets, chains, order, k) && b < |chains|
    ensures b < buckets.Length && DescribesChain(buckets[b], chains[b])
  {
  }
}
