/** The hash table of src/uthash.h as src/registry.c uses it. */
module HashIndex {
  import opened Bits
  import opened MergeSort
  import opened HashChains
  import opened HashExpand
  import opened HashSort

  const INITIAL_LOG2 := 5
  const CAPACITY := 10

  /** The entries by key: what the table stands for. */
  ghost predicate Indexes(entries: map<string, Entry>, order: seq<Entry>, hash: string -> nat)
  {
    && (forall e :: e in order ==> e.key in entries && entries[e.key] == e && e.hashv == hash(e.key))
    && (forall k :: k in entries ==> entries[k] in order && entries[k].key == k)
  }

  /** Zeroed buckets are the chains of no items. */
  lemma EmptyTable(buckets: array<Bucket>, k: nat)
    requires buckets.Length == Pow2(k) && forall b :: 0 <= b < buckets.Length ==> buckets[b] == Bucket(null, 0, 0)
    ensures var chains := seq(buckets.Length, _ => []); Covers(chains, [], k) && Describes(buckets, chains, [], k)
  {
  }

  lemma InitialSize()
    ensures Pow2(INITIAL_LOG2) == 32
  {
    assert Pow2(0) == 1 && Pow2(1) == 2 && Pow2(2) == 4 && Pow2(3) == 8 && Pow2(4) == 16;
  }

  lemma NextPow2(k: nat)
    ensures Pow2(k + 1) == 2 * Pow2(k)
  {
  }

  lemma SameSize(buckets: array<Bucket>, chains: seq<seq<Entry>>, order: seq<Entry>, k: nat)
    requires Covers(chains, order, k) && Describes(buckets, chains, order, k)
    ensures buckets.Length == |chains| == Pow2(k)
  {
  }

  lemma CoversAdded(chains: seq<seq<Entry>>, order: seq<Entry>, k: nat, e: Entry)
    requires Covers(chains, order, k)
    ensures var b := BucketOf(e.hashv, k); b < |chains| && Covers(chains[b := [e] + chains[b]], order + [e], k)
  {
    BucketInRange(e.hashv, k);
    hide BucketOf;
  }

  /** A sequence without its i-th item. */
  function Without<T>(s: seq<T>, i: nat): seq<T>
    requires i < |s|
  {
    s[..i] + s[i + 1..]
  }

  lemma WithoutHas<T>(s: seq<T>, i: nat)
    requires i < |s| && Distinct(s)
    ensures Distinct(Without(s, i)) && forall x :: x in Without(s, i) <==> x in s && x != s[i]
  {
  }

  lemma CoversRemoved(chains: seq<seq<Entry>>, order: seq<Entry>, k: nat, i: nat, n: nat)
    requires Covers(chains, order, k) && Distinct(order) && i < |order|
    requires var b := BucketOf(order[i].hashv, k);
             b < |chains| && n < |chains[b]| && chains[b][n] == order[i] && Distinct(chains[b])
    ensures var b := BucketOf(order[i].hashv, k);
            Covers(chains[b := Without(chains[b], n)], Without(order, i), k)
  {
    hide BucketOf;
    WithoutHas(order, i);
    WithoutHas(chains[BucketOf(order[i].hashv, k)], n);
    hide Without;
  }

  /** HASH_ADD_TO_BKT up to its test for expansion. */
  method AddToBucket(buckets: array<Bucket>, b: nat, e: Entry, k: nat, ghost chains: seq<seq<Entry>>,
                     ghost order: seq<Entry>)
    requires Covers(chains, order, k) && Describes(buckets, chains, order, k) && e !in order
    requires b == BucketOf(e.hashv, k)
    requires b < |chains|
    modifies buckets, e`hhPrev, e`hhNext, order`hhPrev
    ensures Covers(chains[b := [e] + chains[b]], order + [e], k)
    ensures Describes(buckets, chains[b := [e] + chains[b]], order + [e], k)
    ensures buckets[..] == old(buckets[..])[b := Bucket(e, |chains[b]| + 1, old(buckets[b].expandMult))]
  {
    hide ChainLinked, BucketOf, Covers;
    OthersApart(chains, order, k, b);
    CoversAdded(chains, order, k, e);
    ghost var chain, chains' := chains[b], chains[b := [e] + chains[b]];
    forall c, i | 0 <= c < |chains'| && 0 <= i < |chains'[c]| ensures chains'[c][i] in order + [e] {
      assert chains'[c][i] == e || chains'[c][i] in chains[c];
    }
    assert forall i :: 0 <= i < |chain| ==> chain[i] in chain;
    buckets[b] := buckets[b].(count := buckets[b].count + 1);
    label Counted:
    LinkFirst(buckets, b, e, chain);
    forall c | 0 <= c < |chains| && c != b ensures ChainLinked(chains[c]) {
      forall i | 0 <= i < |chains[c]|
        ensures chains[c][i].hhPrev == old@Counted(chains[c][i].hhPrev)
        ensures chains[c][i].hhNext == old@Counted(chains[c][i].hhNext)
      {
        var x := chains[c][i];
        assert x in chains[c] && x !in chain && x in order;
      }
      ChainKept@Counted(chains[c]);
    }
  }

  lemma OthersApart(chains: seq<seq<Entry>>, order: seq<Entry>, k: nat, b: nat)
    requires Covers(chains, order, k) && b < |chains|
    ensures forall c, x :: 0 <= c < |chains| && x in chains[c] ==> x in order && (c != b ==> x !in chains[b])
  {
    hide BucketOf;
    forall c, x | 0 <= c < |chains| && x in chains[c] ensures x in order && (c != b ==> x !in chains[b]) {
      assert BucketOf(x.hashv, k) == c;
    }
  }

  /** HASH_DEL_IN_BKT */
  method DelInBucket(buckets: array<Bucket>, b: nat, e: Entry, ghost chain: seq<Entry>, ghost n: nat)
    requires b < buckets.Length && DescribesChain(buckets[b], chain) && n < |chain| && e == chain[n]
    modifies buckets, chain`hhPrev, chain`hhNext
    ensures buckets[..] == old(buckets[..])[b := buckets[b]] && buckets[b].expandMult == old(buckets[b].expandMult)
    ensures DescribesChain(buckets[b], Without(chain, n))
  {
    buckets[b] := buckets[b].(count := buckets[b].count - 1);
    if buckets[b].head == e {
      buckets[b] := buckets[b].(head := e.hhNext);
    }
    if e.hhPrev != null {
      e.hhPrev.hhNext := e.hhNext;
    }
    if e.hhNext != null {
      e.hhNext.hhPrev := e.hhPrev;
    }
    forall i | 0 <= i < |chain| && i != n
      ensures chain[i].hhPrev == At(chain, if i == n + 1 then n - 1 else i - 1)
      ensures chain[i].hhNext == At(chain, if i == n - 1 then n + 1 else i + 1)
    {
      assert old(chain[i].hhPrev == At(chain, i - 1) && chain[i].hhNext == At(chain, i + 1));
      assert i + 1 != n ==> chain[i] != At(chain, n - 1);
      assert i != n + 1 ==> chain[i] != At(chain, n + 1);
    }
    Bypassed(chain, n);
  }

  lemma WithoutAt(s: seq<Entry>, n: nat, i: int)
    requires n < |s|
    ensures At(Without(s, n), i) == At(s, if i < n then i else i + 1)
    ensures |Without(s, n)| == |s| - 1
    ensures 0 <= i < |s| - 1 ==> Without(s, n)[i] == s[if i < n then i else i + 1]
  {
  }

  /** A chain whose neighbours of item n point past it is the chain without it. */
  lemma Bypassed(chain: seq<Entry>, n: nat)
    requires n < |chain| && Distinct(chain)
    requires forall i :: 0 <= i < |chain| && i != n ==>
               chain[i].hhPrev == At(chain, if i == n + 1 then n - 1 else i - 1)
               && chain[i].hhNext == At(chain, if i == n - 1 then n + 1 else i + 1)
    ensures ChainLinked(Without(chain, n))
  {
    hide Without, At, Distinct;
    WithoutHas(chain, n);
    WithoutAt(chain, n, 0);
    var rest := Without(chain, n);
    forall i | 0 <= i < |rest| ensures rest[i].hhPrev == At(rest, i - 1) && rest[i].hhNext == At(rest, i + 1) {
      WithoutAt(chain, n, i);
      WithoutAt(chain, n, i - 1);
      WithoutAt(chain, n, i + 1);
    }
  }

  /** The deletion from the right bucket, among all of them. */
  method DelFromBucket(buckets: array<Bucket>, b: nat, e: Entry, k: nat, ghost chains: seq<seq<Entry>>,
                       ghost order: seq<Entry>, ghost i: nat, ghost n: nat)
    requires Covers(chains, order, k) && Describes(buckets, chains, order, k) && Distinct(order) && i < |order|
    requires e == order[i] && b == BucketOf(e.hashv, k) && b < |chains| && n < |chains[b]| && chains[b][n] == e
    modifies buckets, order`hhPrev, order`hhNext
    ensures Covers(chains[b := Without(chains[b], n)], Without(order, i), k)
    ensures Describes(buckets, chains[b := Without(chains[b], n)], Without(order, i), k)
    ensures forall c :: 0 <= c < buckets.Length ==> buckets[c].expandMult == old(buckets[c].expandMult)
  {
    hide ChainLinked, BucketOf, Without;
    OthersApart(chains, order, k, b);
    DistinctChain(buckets, chains, order, k, b);
    CoversRemoved(chains, order, k, i, n);
    ghost var chain := chains[b];
    ghost var chains' := chains[b := Without(chain, n)];
    assert forall x :: 0 <= x < |chain| ==> chain[x] in chain;
    DelInBucket(buckets, b, e, chain, n);
    forall c | 0 <= c < |chains| && c != b ensures ChainLinked(chains[c]) {
      forall x | 0 <= x < |chains[c]|
        ensures chains[c][x].hhPrev == old(chains[c][x].hhPrev) && chains[c][x].hhNext == old(chains[c][x].hhNext)
      {
        var y := chains[c][x];
        assert y in chains[c] && y !in chain && y in order;
      }
      ChainKept(chains[c]);
    }
    forall c, x | 0 <= c < |chains'| && 0 <= x < |chains'[c]| ensures chains'[c][x] in Without(order, i) {
      assert chains'[c][x] in chains'[c];
    }
  }

  lemma DistinctChain(buckets: array<Bucket>, chains: seq<seq<Entry>>, order: seq<Entry>, k: nat, b: nat)
    requires Covers(chains, order, k) && Describes(buckets, chains, order, k) && b < |chains|
    ensures Distinct(chains[b])
  {
  }

  // ---------- the application-order list ----------

  lemma AppAppended(s: seq<Entry>, e: Entry)
    requires Distinct(s) && e !in s && e.prev == Last(s) && e.next == null
    requires forall i :: 0 <= i < |s| ==>
               s[i].prev == At(s, i - 1) && s[i].next == if i == |s| - 1 then e else At(s, i + 1)
    ensures AppLinked(s + [e])
  {
    var t := s + [e];
    forall i | 0 <= i < |t| ensures t[i].prev == At(t, i - 1) && t[i].next == At(t, i + 1) {
      AtAppended(s, e, i - 1);
      AtAppended(s, e, i + 1);
    }
  }

  lemma AtAppended(s: seq<Entry>, e: Entry, i: int)
    ensures At(s + [e], i) == if i == |s| then e else At(s, i)
  {
  }

  lemma AppBypassed(s: seq<Entry>, n: nat)
    requires n < |s| && Distinct(s)
    requires forall i :: 0 <= i < |s| && i != n ==>
               s[i].prev == At(s, if i == n + 1 then n - 1 else i - 1)
               && s[i].next == At(s, if i == n - 1 then n + 1 else i + 1)
    ensures AppLinked(Without(s, n))
  {
    hide Without, At, Distinct;
    WithoutHas(s, n);
    WithoutAt(s, n, 0);
    var rest := Without(s, n);
    forall i | 0 <= i < |rest| ensures rest[i].prev == At(rest, i - 1) && rest[i].next == At(rest, i + 1) {
      WithoutAt(s, n, i);
      WithoutAt(s, n, i - 1);
      WithoutAt(s, n, i + 1);
    }
  }

  /** Where an added item goes: to the front of its chain; then, if that chain has reached ten times its multiplier and
      expansion is not inhibited, all items are spread over twice as many buckets. */
  ghost predicate Placed(chains: seq<seq<Entry>>, k: nat, buckets: seq<Bucket>, noexpand: bool, e: Entry,
                         chains': seq<seq<Entry>>, k': nat)
  {
    var b := BucketOf(e.hashv, k);
    && b < |chains| == |buckets| == Pow2(k)
    && var pushed := chains[b := [e] + chains[b]];
       if |chains[b]| + 1 >= (buckets[b].expandMult + 1) * 10 && !noexpand
       then chains' == Doubled(pushed, k) && k' == k + 1
       else chains' == pushed && k' == k
  }

  /** What steers expansion: the ideal length, the non-ideal items, the ineffective expansions in a row, and whether
      expansion is inhibited. */
  datatype Tuning = Tuning(ideal: nat, nonideal: nat, ineffective: nat, inhibited: bool)

  function Mults(buckets: seq<Bucket>): seq<nat>
  {
    seq(|buckets|, j requires 0 <= j < |buckets| => buckets[j].expandMult)
  }

  /** Nothing of it changes unless the buckets have doubled; then all of it follows from the new chains. */
  ghost predicate Retuned(was: Tuning, mults: seq<nat>, k: nat, chains': seq<seq<Entry>>, k': nat, n: nat, now: Tuning,
                          mults': seq<nat>)
  {
    if k' == k then now == was && mults' == mults
    else
      && now.ideal == IdealLength(n, k') && now.nonideal == NonIdeal(chains', now.ideal)
      && now.ineffective == (if now.nonideal > n / 2 then was.ineffective + 1 else 0)
      && (now.inhibited <==> was.inhibited || now.ineffective > 1)
      && |mults'| == |chains'|
      && forall j :: 0 <= j < |chains'| ==> mults'[j] == MultAfter(|chains'[j]|, now.ideal)
  }

  lemma SameMults(bs: seq<Bucket>, bs': seq<Bucket>)
    ensures Mults(bs') == Mults(bs) <==>
            |bs'| == |bs| && forall b :: 0 <= b < |bs| ==> bs'[b].expandMult == bs[b].expandMult
  {
    if Mults(bs') == Mults(bs) {
      forall b | 0 <= b < |bs| ensures bs'[b].expandMult == bs[b].expandMult {
        assert Mults(bs')[b] == Mults(bs)[b];
      }
    }
  }

  lemma CountsOfChains(buckets: array<Bucket>, chains: seq<seq<Entry>>, order: seq<Entry>, k: nat)
    requires Covers(chains, order, k) && Describes(buckets, chains, order, k)
    ensures buckets.Length == |chains| && forall j :: 0 <= j < |chains| ==> buckets[j].count == |chains[j]|
  {
  }

  lemma LastIsNew(s: seq<Entry>)
    requires Distinct(s) && s != []
    ensures Last(s) !in s[..|s| - 1]
  {
  }

  lemma IndexesAdded(entries: map<string, Entry>, order: seq<Entry>, hash: string -> nat, e: Entry)
    requires Indexes(entries, order, hash) && e.key !in entries && e.hashv == hash(e.key)
    ensures Indexes(entries[e.key := e], order + [e], hash) && e !in order
  {
  }

  lemma IndexesRemoved(entries: map<string, Entry>, order: seq<Entry>, hash: string -> nat, i: nat)
    requires Indexes(entries, order, hash) && Distinct(order) && i < |order|
    ensures Indexes(entries - {order[i].key}, Without(order, i), hash)
  {
    WithoutHas(order, i);
  }

  lemma NothingIndexed(entries: map<string, Entry>, hash: string -> nat)
    requires Indexes(entries, [], hash)
    ensures entries == map[]
  {
  }

  /** HASH_FIND_IN_BKT */
  method FindInBucket(head: Entry?, key: string, hashv: nat, ghost chain: seq<Entry>) returns (out: Entry?)
    requires ChainForward(chain) && head == First(chain)
    ensures if out == null then forall e :: e in chain ==> !(e.hashv == hashv && e.key == key)
            else out in chain && out.hashv == hashv && out.key == key
  {
    out := head;
    ghost var n := 0;
    while out != null
      invariant n <= |chain| && out == At(chain, n)
      invariant forall i :: 0 <= i < n ==> !(chain[i].hashv == hashv && chain[i].key == key)
      decreases |chain| - n
    {
      if out.hashv == hashv && out.key == key {
        return;
      }
      out := out.hhNext;
      n := n + 1;
    }
  }

  /** An item with the key is in the bucket of the key's hash and nowhere else. */
  lemma SearchedBucket(buckets: array<Bucket>, chains: seq<seq<Entry>>, order: seq<Entry>, k: nat,
                       entries: map<string, Entry>, hash: string -> nat, key: string)
    requires Covers(chains, order, k) && Describes(buckets, chains, order, k) && Indexes(entries, order, hash)
    ensures var b := BucketOf(hash(key), k);
            && b < |chains| == buckets.Length && ChainForward(chains[b]) && buckets[b].head == First(chains[b])
            && (key in entries ==>
                  entries[key].key == key && entries[key].hashv == hash(key) && entries[key] in chains[b])
            && forall e :: e in chains[b] && e.key == key ==>
                 key in entries && entries[key] == e && e.hashv == hash(key)
  {
    BucketInRange(hash(key), k);
    hide BucketOf;
    var b := BucketOf(hash(key), k);
    if key in entries {
      var e := entries[key];
      assert e in order && e.hashv == hash(key);
    }
  }

  class HashTable {
    /** Any function of the key. */
    const hash: string -> nat
    var head: Entry?
    var tail: Entry?
    var buckets: array<Bucket>
    var numBuckets: nat
    var log2: nat
    var numItems: nat
    var idealChainMaxlen: nat
    var nonidealItems: nat
    var ineffExpands: nat
    var noexpand: bool
    ghost var order: seq<Entry>
    ghost var chains: seq<seq<Entry>>
    ghost var entries: map<string, Entry>

    /** Without a head there is no table. */
    ghost predicate ChainsOk()
      reads `buckets, `numBuckets, `log2, `numItems, `chains, `order, buckets, order`hhPrev, order`hhNext
    {
      && numBuckets == Pow2(log2) && numItems == |order|
      && Covers(chains, order, log2) && Describes(buckets, chains, order, log2)
    }

    /** What HASH_FSCK checks, and that each item is in the bucket of its key, once. */
    ghost predicate Valid()
      reads this, buckets, order
    {
      && AppLinked(order) && head == First(order) && (head != null ==> tail == Last(order) && ChainsOk())
      && Indexes(entries, order, hash)
    }

    function Tuned(): Tuning
      reads `idealChainMaxlen, `nonidealItems, `ineffExpands, `noexpand
    {
      Tuning(idealChainMaxlen, nonidealItems, ineffExpands, noexpand)
    }

    constructor (hash: string -> nat)
      ensures Valid() && entries == map[] && order == [] && this.hash == hash && fresh(buckets)
    {
      this.hash := hash;
      head, tail := null, null;
      buckets := new Bucket[0](_ => Bucket(null, 0, 0));
      numBuckets, log2, numItems, idealChainMaxlen, nonidealItems, ineffExpands, noexpand := 0, 0, 0, 0, 0, 0, false;
      order, chains, entries := [], [], map[];
    }

    /** HASH_FIND_STR */
    method Find(key: string) returns (out: Entry?)
      requires Valid()
      ensures out == if key in entries then entries[key] else null
    {
      hide Covers, Describes, Indexes, AppLinked, Distinct;
      if head == null {
        NothingIndexed(entries, hash);
        return null;
      }
      var b := And(hash(key), numBuckets - 1);
      BucketInRange(hash(key), log2);
      SearchedBucket(buckets, chains, order, log2, entries, hash, key);
      out := FindInBucket(buckets[b].head, key, hash(key), chains[b]);
    }

    /** HASH_APPEND_LIST */
    method AppendToList(e: Entry)
      requires AppLinked(order) && tail == Last(order) && order != [] && e !in order
      modifies `tail, `order, e`prev, e`next, order`next
      ensures order == old(order) + [e] && tail == e && AppLinked(order)
    {
      hide At, Distinct;
      ghost var s := order;
      e.next := null;
      e.prev := tail;
      tail.next := e;
      tail := e;
      order := order + [e];
      DistinctLast(s);
      AppAppended(s, e);
    }

    method ClearCounters()
      modifies `numItems, `idealChainMaxlen, `nonidealItems, `ineffExpands, `noexpand
      ensures numItems == idealChainMaxlen == nonidealItems == ineffExpands == 0 && !noexpand
    {
      numItems, idealChainMaxlen, nonidealItems, ineffExpands, noexpand := 0, 0, 0, 0, false;
    }

    /** HASH_MAKE_TABLE */
    method MakeTable(e: Entry)
      modifies this
      ensures order == old(order) && entries == old(entries) && head == old(head)
      ensures tail == e && numItems == 0 && log2 == 5 && numBuckets == Pow2(log2) == 32 && fresh(buckets)
      ensures Covers(chains, [], log2) && Describes(buckets, chains, [], log2)
      ensures idealChainMaxlen == nonidealItems == ineffExpands == 0 && !noexpand
      ensures |chains| == buckets.Length
      ensures forall b :: 0 <= b < buckets.Length ==> buckets[b] == Bucket(null, 0, 0) && chains[b] == []
    {
      hide Covers, Describes, Pow2, DescribesChain, BucketOf, ChainLinked, Indexes, AppLinked, ChainsOk;
      InitialSize();
      buckets := ZeroedBuckets(32);
      chains := seq(buckets.Length, _ => []);
      numBuckets, log2 := 32, INITIAL_LOG2;
      tail := e;
      ClearCounters();
      EmptyTable(buckets, log2);
    }

    /** HASH_EXPAND_BUCKETS */
    method ExpandBuckets()
      requires ChainsOk()
      modifies `buckets, `numBuckets, `log2, `chains, `idealChainMaxlen, `nonidealItems, `ineffExpands, `noexpand
      modifies order`hhPrev, order`hhNext
      ensures ChainsOk() && fresh(buckets)
      ensures chains == Doubled(old(chains), old(log2)) && log2 == old(log2) + 1
      ensures idealChainMaxlen == IdealLength(numItems, log2) && nonidealItems == NonIdeal(chains, idealChainMaxlen)
      ensures forall j :: 0 <= j < buckets.Length ==>
                buckets[j].expandMult == MultAfter(buckets[j].count, idealChainMaxlen)
      ensures ineffExpands == if nonidealItems > numItems / 2 then old(ineffExpands) + 1 else 0
      ensures noexpand <==> old(noexpand) || ineffExpands > 1
    {
      hide NonIdeal, MultAfter, Describes, Covers, Doubled, Shift, And, DescribesChain, BucketOf, ChainLinked, Pow2,
           First;
      SameSize(buckets, chains, order, log2);
      NextPow2(log2);
      idealChainMaxlen := Shift(numItems, log2 + 1) + if And(numItems, 2 * numBuckets - 1) != 0 then 1 else 0;
      buckets, nonidealItems := Redistribute(buckets, log2, idealChainMaxlen, chains, order);
      chains := Doubled(chains, log2);
      numBuckets := numBuckets * 2;
      log2 := log2 + 1;
      CountEffect();
    }

    /** Two ineffective expansions in a row inhibit further ones. */
    method CountEffect()
      modifies `ineffExpands, `noexpand
      ensures ineffExpands == if nonidealItems > numItems / 2 then old(ineffExpands) + 1 else 0
      ensures noexpand <==> old(noexpand) || ineffExpands > 1
    {
      ineffExpands := if nonidealItems > numItems / 2 then ineffExpands + 1 else 0;
      if ineffExpands > 1 {
        noexpand := true;
      }
    }

    /** HASH_ADD_TO_TABLE: the new item is last in the list, and not yet in a bucket. */
    method AddToTable(e: Entry)
      requires order != [] && e == Last(order) && Distinct(order)
      requires numBuckets == Pow2(log2) && numItems == |order| - 1
      requires Covers(chains, order[..|order| - 1], log2) && Describes(buckets, chains, order[..|order| - 1], log2)
      modifies `buckets, buckets, `numBuckets, `log2, `numItems, `chains
      modifies `idealChainMaxlen, `nonidealItems, `ineffExpands, `noexpand
      modifies order`hhPrev, order`hhNext
      ensures ChainsOk() && (buckets == old(buckets) || fresh(buckets))
      ensures Placed(old(chains), old(log2), old(buckets[..]), old(noexpand), e, chains, log2)
      ensures Retuned(old(Tuned()), Mults(old(buckets[..])), old(log2), chains, log2, |order|, Tuned(),
                      Mults(buckets[..]))
    {
      hide Describes, Covers, Doubled, Shift, And, Distinct, NonIdeal, MultAfter;
      ghost var before := order[..|order| - 1];
      SnocSplit(order);
      LastIsNew(order);
      SameSize(buckets, chains, before, log2);
      BucketInRange(e.hashv, log2);
      numItems := numItems + 1;
      var b := And(e.hashv, numBuckets - 1);
      AddToBucket(buckets, b, e, log2, chains, before);
      chains := chains[b := [e] + chains[b]];
      if buckets[b].count >= (buckets[b].expandMult + 1) * CAPACITY && !noexpand {
        ExpandBuckets();
        CountsOfChains(buckets, chains, order, log2);
      }
    }

    /** The first item makes the table and is its list. */
    method StartTable(e: Entry)
      requires order == []
      modifies this, e
      ensures AppLinked(order) && order == [e] && head == e && tail == e && entries == old(entries)
      ensures numItems == 0 && log2 == INITIAL_LOG2 && numBuckets == Pow2(log2) && fresh(buckets)
              && Tuned() == Tuning(0, 0, 0, false)
      ensures Covers(chains, [], log2) && Describes(buckets, chains, [], log2) && |chains| == buckets.Length
      ensures forall b :: 0 <= b < buckets.Length ==> buckets[b] == Bucket(null, 0, 0) && chains[b] == []
    {
      hide Describes, Covers, Pow2;
      e.next := null;
      e.prev := null;
      MakeTable(e);
      head := e;
      order := [e];
      OneItem(e);
    }

    /** The first item goes into its bucket, and the new table does not expand for it. */
    method IndexFirst(e: Entry)
      requires order == [e] && AppLinked(order) && numItems == 0 && Tuned() == Tuning(0, 0, 0, false)
      requires log2 == INITIAL_LOG2 && numBuckets == Pow2(log2) && Covers(chains, [], log2)
      requires Describes(buckets, chains, [], log2) && |chains| == buckets.Length
      requires forall b :: 0 <= b < buckets.Length ==> buckets[b] == Bucket(null, 0, 0) && chains[b] == []
      modifies `buckets, buckets, `numBuckets, `log2, `numItems, `chains
      modifies `idealChainMaxlen, `nonidealItems, `ineffExpands, `noexpand
      modifies order`hhPrev, order`hhNext
      ensures ChainsOk() && log2 == INITIAL_LOG2 && (buckets == old(buckets) || fresh(buckets))
      ensures Tuned() == Tuning(0, 0, 0, false) && forall b :: 0 <= b < buckets.Length ==> buckets[b].expandMult == 0
    {
      hide Describes, Covers, Doubled, Distinct, Placed, AppLinked, ChainsOk, Pow2, DescribesChain, BucketOf,
           ChainLinked;
      ghost var bs, cs := buckets[..], chains;
      assert order[..0] == [];
      LinkedDistinct(order);
      AddToTable(e);
      SameMults(bs, buckets[..]);
      FirstItemStays(cs, INITIAL_LOG2, bs, false, e, chains, log2);
    }

    method AddFirst(e: Entry)
      requires Valid() && head == null && e.key !in entries && e.hashv == hash(e.key)
      modifies this, e
      ensures AppLinked(order) && head == e && tail == e && ChainsOk() && Indexes(entries, order, hash)
      ensures order == [e] && old(order) == [] && entries == old(entries)[e.key := e] && fresh(buckets)
      ensures log2 == INITIAL_LOG2 && Tuned() == Tuning(0, 0, 0, false)
      ensures forall b :: 0 <= b < buckets.Length ==> buckets[b].expandMult == 0
    {
      hide Describes, Covers, Doubled, Distinct, Placed, AppLinked, ChainsOk, Pow2, DescribesChain, BucketOf,
           ChainLinked;
      IndexesAdded(entries, order, hash, e);
      hide Indexes;
      assert order == [] && order + [e] == [e];
      assert Indexes(entries[e.key := e], [e], hash);
      StartTable(e);
      entries := entries[e.key := e];
      IndexFirst(e);
    }

    /** The item just appended goes into its bucket. */
    method IndexLast(e: Entry, ghost was: seq<Entry>)
      requires order == was + [e] && AppLinked(order) && numBuckets == Pow2(log2) && numItems == |was|
      requires Covers(chains, was, log2) && Describes(buckets, chains, was, log2)
      modifies `buckets, buckets, `numBuckets, `log2, `numItems, `chains
      modifies `idealChainMaxlen, `nonidealItems, `ineffExpands, `noexpand
      modifies order`hhPrev, order`hhNext
      ensures ChainsOk() && AppLinked(order) && (buckets == old(buckets) || fresh(buckets))
      ensures Placed(old(chains), old(log2), old(buckets[..]), old(noexpand), e, chains, log2)
      ensures Retuned(old(Tuned()), Mults(old(buckets[..])), old(log2), chains, log2, |order|, Tuned(),
                      Mults(buckets[..]))
    {
      hide Describes, Covers, Doubled, Distinct, Placed, Retuned, Mults, ChainsOk, Pow2, DescribesChain, BucketOf,
           ChainLinked, At;
      LinkedDistinct(order);
      assert order[..|order| - 1] == was;
      AddToTable(e);
    }

    /** A further item is appended to the list. */
    method AddNext(e: Entry)
      requires Valid() && head != null && e.key !in entries && e.hashv == hash(e.key)
      modifies this, buckets, order, e
      ensures AppLinked(order) && head == First(order) && tail == Last(order) && ChainsOk()
      ensures Indexes(entries, order, hash)
      ensures order == old(order) + [e] && entries == old(entries)[e.key := e]
      ensures buckets == old(buckets) || fresh(buckets)
      ensures Placed(old(chains), old(log2), old(buckets[..]), old(noexpand), e, chains, log2)
      ensures Retuned(old(Tuned()), Mults(old(buckets[..])), old(log2), chains, log2, |order|, Tuned(),
                      Mults(buckets[..]))
    {
      hide Describes, Covers, Doubled, Distinct, Placed, Retuned, Mults, At, DescribesChain, BucketOf, ChainLinked,
           Pow2;
      ghost var was := order;
      IndexesAdded(entries, order, hash, e);
      hide Indexes;
      AppendToList(e);
      entries := entries[e.key := e];
      IndexLast(e, was);
    }

    /** HASH_ADD_STR */
    method Add(e: Entry)
      requires Valid() && e.key !in entries && e.hashv == hash(e.key)
      modifies this, buckets, order, e
      ensures Valid() && order == old(order) + [e] && entries == old(entries)[e.key := e]
      ensures buckets == old(buckets) || fresh(buckets)
      ensures if old(head) == null then
                log2 == 5 && Tuned() == Tuning(0, 0, 0, false)
                && forall b :: 0 <= b < buckets.Length ==> buckets[b].expandMult == 0
              else
                Placed(old(chains), old(log2), old(buckets[..]), old(noexpand), e, chains, log2)
                && Retuned(old(Tuned()), Mults(old(buckets[..])), old(log2), chains, log2, |order|, Tuned(),
                           Mults(buckets[..]))
    {
      hide ChainsOk, Indexes, Placed, AppLinked, Retuned, Mults, Tuned;
      if head == null {
        AddFirst(e);
      } else {
        AddNext(e);
      }
    }

    /** The list part of HASH_DELETE_HH, when another item remains. */
    method Unlink(e: Entry, ghost i: nat)
      requires AppLinked(order) && head == First(order) && tail == Last(order) && i < |order| && e == order[i]
      requires |order| > 1
      modifies `head, `tail, `order, order`prev, order`next
      ensures order == Without(old(order), i) && AppLinked(order) && head == First(order) && tail == Last(order)
    {
      hide Without, Distinct, First, Last, At;
      ghost var s := order;
      LinkedDistinct(s);
      UnlinkEnds(s, i);
      assert s[i].prev == At(s, i - 1) && s[i].next == At(s, i + 1);
      if e == tail {
        tail := e.prev;
      }
      if e.prev != null {
        e.prev.next := e.next;
      } else {
        head := e.next;
      }
      if e.next != null {
        e.next.prev := e.prev;
      }
      forall x | 0 <= x < |s| && x != i
        ensures s[x].prev == At(s, if x == i + 1 then i - 1 else x - 1)
        ensures s[x].next == At(s, if x == i - 1 then i + 1 else x + 1)
      {
        assert old(s[x].prev == At(s, x - 1) && s[x].next == At(s, x + 1));
        DistinctAt(s, x, i - 1);
        DistinctAt(s, x, i + 1);
      }
      AppBypassed(s, i);
      order := Without(s, i);
    }

    /** HASH_DELETE_HH when another item remains. */
    method DeleteOne(e: Entry, ghost i: nat)
      requires AppLinked(order) && head == First(order) && tail == Last(order) && ChainsOk()
      requires i < |order| && e == order[i] && |order| > 1
      modifies `head, `tail, `order, `numItems, `chains, buckets, order
      ensures order == Without(old(order), i) && AppLinked(order) && head == First(order) && tail == Last(order)
      ensures ChainsOk()
      ensures numItems == old(numItems) - 1
      ensures Mults(buckets[..]) == Mults(old(buckets[..]))
      ensures var b := BucketOf(e.hashv, log2);
              b < |old(chains)| && e in old(chains)[b]
              && chains == old(chains)[b := Without(old(chains)[b], IndexOf(old(chains)[b], e))]
    {
      hide Mults, Describes, Covers, Distinct, At, Without, First, Last, AppLinked, BucketOf, And;
      ghost var s := order;
      LinkedDistinct(s);
      BucketInRange(e.hashv, log2);
      SameSize(buckets, chains, order, log2);
      InItsBucket(chains, order, log2, e);
      WithoutAt(s, i, 0);
      Unlink(e, i);
      var b := And(e.hashv, numBuckets - 1);
      BucketIsMask(e.hashv, log2);
      ghost var n := IndexOf(chains[b], e);
      DelFromBucket(buckets, b, e, log2, chains, s, i, n);
      SameMults(old(buckets[..]), buckets[..]);
      chains := chains[b := Without(chains[b], n)];
      numItems := numItems - 1;
    }

    /** HASH_DEL: the last item takes the table with it. */
    method Delete(e: Entry)
      requires Valid() && e in order
      modifies this, buckets, order
      ensures Valid() && entries == old(entries) - {e.key} && buckets == old(buckets) && Tuned() == old(Tuned())
      ensures Mults(buckets[..]) == Mults(old(buckets[..]))
      ensures order == Without(old(order), IndexOf(old(order), e))
      ensures order != [] ==> log2 == old(log2) && numItems == old(numItems) - 1
                              && var b := BucketOf(e.hashv, log2);
                                 b < |old(chains)| && e in old(chains)[b]
                                 && chains == old(chains)[b := Without(old(chains)[b], IndexOf(old(chains)[b], e))]
    {
      hide Mults, ChainsOk, Distinct, At, Without, BucketOf, AppLinked, Last;
      ghost var i := IndexOf(order, e);
      LinkedDistinct(order);
      IndexesRemoved(entries, order, hash, i);
      hide Indexes;
      if e.prev == null && e.next == null {
        OnlyItem(order, i);
        head := null;
        order := [];
        NoItems();
      } else {
        SomeOthers(order, i);
        DeleteOne(e, i);
      }
      entries := entries - {e.key};
    }

    /** HASH_SRT: only the application order changes. */
    method SortItems(cmp: (Entry, Entry) -> int)
      requires Valid()
      modifies `head, `tail, `order, order`prev, order`next
      ensures Valid() && order == Sort(old(order), cmp)
      ensures entries == old(entries) && chains == old(chains) && buckets == old(buckets)
    {
      hide Describes, Sort, Last, AppLinked;
      if head == null {
        SortNothing(cmp);
        return;
      }
      ghost var s := order;
      LinkedDistinct(s);
      SortPermutes(s, cmp);
      CoversReordered(chains, s, Sort(s, cmp), log2);
      IndexesReordered(entries, s, Sort(s, cmp), hash);
      hide Covers, Indexes;
      head, tail := SortList(head, cmp, s);
      assert Describes(buckets, chains, s, log2);
      DescribesReordered(buckets, chains, s, Sort(s, cmp), log2);
      order := Sort(s, cmp);
    }
  }

  lemma SortNothing(cmp: (Entry, Entry) -> int)
    ensures Sort<Entry>([], cmp) == []
  {
  }

  lemma SortPermutes(s: seq<Entry>, cmp: (Entry, Entry) -> int)
    requires Distinct(s)
    ensures var r := Sort(s, cmp); Distinct(r) && |r| == |s| && forall e :: e in r <==> e in s
  {
    hide SortFrom;
    SortFromPermutes(s, 1, cmp);
    PermutationDistinct(s, SortFrom(s, 1, cmp));
  }

  lemma IndexesReordered(entries: map<string, Entry>, order: seq<Entry>, order': seq<Entry>, hash: string -> nat)
    requires Indexes(entries, order, hash) && forall e :: e in order' <==> e in order
    ensures Indexes(entries, order', hash)
  {
  }

  lemma CoversReordered(chains: seq<seq<Entry>>, order: seq<Entry>, order': seq<Entry>, k: nat)
    requires Covers(chains, order, k) && forall e :: e in order' <==> e in order
    ensures Covers(chains, order', k)
  {
    hide BucketOf;
  }

  lemma DescribesReordered(buckets: array<Bucket>, chains: seq<seq<Entry>>, order: seq<Entry>, order': seq<Entry>,
                           k: nat)
    requires Covers(chains, order, k) && Covers(chains, order', k) && Describes(buckets, chains, order, k)
    requires forall e :: e in order' <==> e in order
    ensures Describes(buckets, chains, order', k)
  {
    hide BucketOf;
  }

  lemma NoItems()
    ensures AppLinked([])
  {
  }

  lemma BucketIsMask(hashv: nat, k: nat)
    ensures BucketOf(hashv, k) == And(hashv, Pow2(k) - 1)
  {
  }

  ghost function IndexOf<T>(s: seq<T>, x: T): (i: nat)
    requires x in s
    ensures i < |s| && s[i] == x
  {
    var i :| 0 <= i < |s| && s[i] == x;
    i
  }

  lemma OnlyItem(s: seq<Entry>, i: nat)
    requires AppLinked(s) && i < |s| && s[i].prev == null && s[i].next == null
    ensures i == 0 && |s| == 1 && Without(s, i) == []
  {
  }

  lemma SomeOthers(s: seq<Entry>, i: nat)
    requires AppLinked(s) && i < |s| && (s[i].prev != null || s[i].next != null)
    ensures |s| > 1 && |Without(s, i)| == |s| - 1
  {
  }

  lemma InItsBucket(chains: seq<seq<Entry>>, order: seq<Entry>, k: nat, e: Entry)
    requires Covers(chains, order, k) && e in order
    ensures BucketOf(e.hashv, k) < |chains| && e in chains[BucketOf(e.hashv, k)]
  {
  }

  lemma DistinctAt(s: seq<Entry>, x: nat, y: int)
    requires Distinct(s) && x < |s|
    ensures s[x] == At(s, y) <==> x == y
  {
  }

  /** The ends of the list without item i. */
  lemma UnlinkEnds(s: seq<Entry>, i: nat)
    requires i < |s| && |s| > 1 && Distinct(s)
    ensures First(Without(s, i)) == if At(s, i - 1) == null then At(s, i + 1) else First(s)
    ensures Last(Without(s, i)) == if s[i] == Last(s) then At(s, i - 1) else Last(s)
    ensures At(s, i - 1) != null ==> At(s, i - 1) in s
    ensures At(s, i + 1) != null ==> At(s, i + 1) in s
  {
  }

  lemma LinkedDistinct(s: seq<Entry>)
    requires AppLinked(s)
    ensures Distinct(s)
  {
  }

  lemma OneItem(e: Entry)
    requires e.next == null && e.prev == null
    ensures AppLinked([e])
  {
  }

  /** A new table does not expand for its first item. */
  lemma FirstItemStays(chains: seq<seq<Entry>>, k: nat, buckets: seq<Bucket>, noexpand: bool, e: Entry,
                       chains': seq<seq<Entry>>, k': nat)
    requires Placed(chains, k, buckets, noexpand, e, chains', k') && |buckets| == |chains|
    requires forall b :: 0 <= b < |buckets| ==> buckets[b] == Bucket(null, 0, 0) && chains[b] == []
    ensures k' == k
  {
  }

  lemma DistinctLast(s: seq<Entry>)
    requires Distinct(s) && s != []
    ensures forall i :: 0 <= i < |s| - 1 ==> s[i] != Last(s)
  {
  }
}
