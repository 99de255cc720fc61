/** Adding an item to a bucket's chain, and the doubling of the buckets. */
module HashExpand {
  import opened Bits
  import opened MergeSort
  import opened HashChains

  /** Every item is in the chain of its own bucket and in no other. */
  ghost predicate Covers(chains: seq<seq<Entry>>, order: seq<Entry>, k: nat)
  {
    && |chains| == Pow2(k)
    && (forall b, e :: 0 <= b < |chains| && e in chains[b] ==> e in order && BucketOf(e.hashv, k) == b)
    && (forall e :: e in order ==> BucketOf(e.hashv, k) < |chains| && e in chains[BucketOf(e.hashv, k)])
  }

  /** The bucket array describes the chains. */
  ghost predicate Describes(buckets: array<Bucket>, chains: seq<seq<Entry>>, order: seq<Entry>, k: nat)
    requires Covers(chains, order, k)
    reads buckets, order`hhPrev, order`hhNext
  {
    && buckets.Length == |chains|
    && forall b :: 0 <= b < |chains| ==>
         (forall i :: 0 <= i < |chains[b]| ==> chains[b][i] in order) && DescribesChain(buckets[b], chains[b])
  }

  ghost predicate DescribesChain(bucket: Bucket, chain: seq<Entry>)
    reads chain`hhPrev, chain`hhNext
  {
    ChainLinked(chain) && bucket.head == First(chain) && bucket.count == |chain|
  }

  // ---------- where doubling sends the items ----------

  /** Bucket j after the old buckets before i have been emptied, and the first n items of bucket i moved. */
  function MovedTo(chains: seq<seq<Entry>>, i: nat, n: nat, k: nat, j: nat): seq<Entry>
    requires |chains| == Pow2(k) && i <= |chains| && (i < |chains| ==> n <= |chains[i]|) && j < 2 * |chains|
  {
    var from := Feeder(j, |chains|);
    if from < i then Share(chains[from], j, k + 1)
    else if from == i then Share(chains[i][..n], j, k + 1)
    else []
  }

  function Moved(chains: seq<seq<Entry>>, i: nat, n: nat, k: nat): (r: seq<seq<Entry>>)
    requires |chains| == Pow2(k) && i <= |chains| && (i < |chains| ==> n <= |chains[i]|)
    ensures |r| == 2 * |chains| == Pow2(k + 1)
  {
    seq(2 * |chains|, j requires 0 <= j < 2 * |chains| => MovedTo(chains, i, n, k, j))
  }

  /** All chains of the doubled table: each is its feeder's items for it, in reverse. */
  function Doubled(chains: seq<seq<Entry>>, k: nat): (r: seq<seq<Entry>>)
    requires |chains| == Pow2(k)
    ensures |r| == Pow2(k + 1)
  {
    seq(2 * |chains|, j requires 0 <= j < 2 * |chains| => Share(chains[Feeder(j, |chains|)], j, k + 1))
  }

  lemma MovedStart(chains: seq<seq<Entry>>, k: nat)
    requires |chains| == Pow2(k)
    ensures forall j :: 0 <= j < 2 * |chains| ==> Moved(chains, 0, 0, k)[j] == []
  {
  }

  lemma MovedItemAt(chains: seq<seq<Entry>>, i: nat, n: nat, k: nat, j: nat)
    requires |chains| == Pow2(k) && i < |chains| && n < |chains[i]| && j < 2 * |chains|
    requires BucketOf(chains[i][n].hashv, k) == i
    ensures MovedTo(chains, i, n + 1, k, j)
            == if BucketOf(chains[i][n].hashv, k + 1) == j then [chains[i][n]] + MovedTo(chains, i, n, k, j)
               else MovedTo(chains, i, n, k, j)
  {
    FeederOf(chains[i][n].hashv, k);
    if Feeder(j, |chains|) == i {
      ShareNext(chains[i], n, j, k + 1);
    }
    hide Share, BucketOf;
  }

  lemma MovedItem(chains: seq<seq<Entry>>, order: seq<Entry>, i: nat, n: nat, k: nat)
    requires Covers(chains, order, k) && i < |chains| && n < |chains[i]|
    ensures var e := chains[i][n];
            var j := BucketOf(e.hashv, k + 1);
            var m := Moved(chains, i, n, k);
            j < |m| && Moved(chains, i, n + 1, k) == m[j := [e] + m[j]]
  {
    hide MovedTo, BucketOf;
    var e := chains[i][n];
    var j := BucketOf(e.hashv, k + 1);
    var m := Moved(chains, i, n, k);
    assert e in chains[i];
    FeederOf(e.hashv, k);
    var m' := m[j := [e] + m[j]];
    forall x: nat | x < |m'| ensures MovedTo(chains, i, n + 1, k, x) == m'[x] {
      MovedItemAt(chains, i, n, k, x);
    }
  }

  /** What has been moved is in its right bucket. */
  lemma MovedRightly(chains: seq<seq<Entry>>, order: seq<Entry>, i: nat, n: nat, k: nat)
    requires Covers(chains, order, k) && i <= |chains| && (i < |chains| ==> n <= |chains[i]|)
    ensures forall j, e :: 0 <= j < 2 * |chains| && e in Moved(chains, i, n, k)[j] ==>
              e in order && BucketOf(e.hashv, k + 1) == j && e in chains[Feeder(j, |chains|)]
  {
    forall j, e | 0 <= j < 2 * |chains| && e in Moved(chains, i, n, k)[j]
      ensures e in order && BucketOf(e.hashv, k + 1) == j && e in chains[Feeder(j, |chains|)]
    {
      var from := Feeder(j, |chains|);
      ShareHas(if from < i then chains[from] else chains[i][..n], j, k + 1, e);
    }
  }

  /** The next item to move has not been moved. */
  lemma NotYetMoved(chains: seq<seq<Entry>>, i: nat, n: nat, k: nat, j: nat)
    requires |chains| == Pow2(k) && i < |chains| && n < |chains[i]| && j < 2 * |chains| && Distinct(chains[i])
    requires Feeder(j, |chains|) == i
    ensures chains[i][n] !in Moved(chains, i, n, k)[j]
  {
    ShareHas(chains[i][..n], j, k + 1, chains[i][n]);
  }

  lemma MovedBucket(chains: seq<seq<Entry>>, i: nat, k: nat)
    requires |chains| == Pow2(k) && i < |chains|
    ensures Moved(chains, i, |chains[i]|, k) == Moved(chains, i + 1, 0, k)
  {
    TakeAll(chains[i]);
    assert chains[i][..|chains[i]|] == chains[i];
    if i + 1 < |chains| {
      assert chains[i + 1][..0] == [];
    }
    hide Share;
    assert forall j :: 0 <= j < 2 * |chains| ==>
             MovedTo(chains, i, |chains[i]|, k, j) == MovedTo(chains, i + 1, 0, k, j) by {
      forall j | 0 <= j < 2 * |chains|
        ensures MovedTo(chains, i, |chains[i]|, k, j) == MovedTo(chains, i + 1, 0, k, j) {
        EmptyShare(j, k + 1);
      }
    }
  }

  lemma EmptyShare(j: nat, k: nat)
    ensures Share([], j, k) == []
  {
  }

  lemma MovedAll(chains: seq<seq<Entry>>, k: nat)
    requires |chains| == Pow2(k)
    ensures Moved(chains, |chains|, 0, k) == Doubled(chains, k)
  {
  }

  /** Bucket i's items go to bucket i or i + b. */
  lemma DoublingPlaces(chains: seq<seq<Entry>>, order: seq<Entry>, k: nat, b: nat, e: Entry)
    requires Covers(chains, order, k) && b < |chains| && e in chains[b]
    ensures var j := BucketOf(e.hashv, k + 1); (j == b || j == b + |chains|) && e in Doubled(chains, k)[j]
  {
    FeederOf(e.hashv, k);
    DoublingSplits(e.hashv, k);
    ShareHas(chains[b], BucketOf(e.hashv, k + 1), k + 1, e);
  }

  /** No item is lost or put in a wrong bucket. */
  lemma DoublingCovers(chains: seq<seq<Entry>>, order: seq<Entry>, k: nat)
    requires Covers(chains, order, k)
    ensures Covers(Doubled(chains, k), order, k + 1)
  {
    hide BucketOf, Share;
    var d := Doubled(chains, k);
    forall j, e | 0 <= j < |d| && e in d[j] ensures e in order && BucketOf(e.hashv, k + 1) == j {
      ShareHas(chains[Feeder(j, |chains|)], j, k + 1, e);
    }
    forall e | e in order ensures BucketOf(e.hashv, k + 1) < |d| && e in d[BucketOf(e.hashv, k + 1)] {
      DoublingPlaces(chains, order, k, BucketOf(e.hashv, k), e);
    }
  }

  // ---------- the loops ----------

  /** The link changes of HASH_ADD_TO_BKT, which the doubling loop repeats. */
  method LinkFirst(buckets: array<Bucket>, b: nat, e: Entry, ghost chain: seq<Entry>)
    requires b < buckets.Length && ChainLinked(chain) && buckets[b].head == First(chain) && e !in chain
    modifies buckets, e`hhPrev, e`hhNext, chain`hhPrev
    ensures buckets[..] == old(buckets[..])[b := old(buckets[b]).(head := e)]
    ensures ChainLinked([e] + chain)
  {
    var head := buckets[b].head;
    e.hhPrev := null;
    e.hhNext := head;
    if head != null {
      head.hhPrev := e;
    }
    buckets[b] := buckets[b].(head := e);
    ghost var longer := [e] + chain;
    assert forall i :: 0 <= i < |longer| ==>
             longer[i].hhPrev == At(longer, i - 1) && longer[i].hhNext == At(longer, i + 1);
  }

  /** The new buckets so far. */
  ghost predicate Built(buckets: array<Bucket>, chains: seq<seq<Entry>>, order: seq<Entry>, ideal: nat)
    reads buckets, order`hhPrev, order`hhNext
  {
    && buckets.Length == |chains|
    && forall b :: 0 <= b < |chains| ==>
         (forall i :: 0 <= i < |chains[b]| ==> chains[b][i] in order) && DescribesChain(buckets[b], chains[b])
         && buckets[b].expandMult == MultAfter(|chains[b]|, ideal)
  }

  twostate lemma ChainKept(s: seq<Entry>)
    requires old(ChainLinked(s))
    requires forall i :: 0 <= i < |s| ==> s[i].hhPrev == old(s[i].hhPrev) && s[i].hhNext == old(s[i].hhNext)
    ensures ChainLinked(s)
  {
  }

  /** The counters of one turn of the doubling loop. */
  method CountItem(nb: array<Bucket>, j: nat, ideal: nat, nonideal: nat, ghost nc: seq<seq<Entry>>,
                   ghost chain: seq<Entry>)
    returns (nonideal': nat)
    requires j < nb.Length == |nc| && nonideal == NonIdeal(nc, ideal) && |chain| == |nc[j]| + 1
    requires nb[j].count == |nc[j]| && nb[j].expandMult == MultAfter(|nc[j]|, ideal)
    modifies nb
    ensures nb[..] == old(nb[..])[j := Bucket(old(nb[j]).head, |chain|, MultAfter(|chain|, ideal))]
    ensures nonideal' == NonIdeal(nc[j := chain], ideal)
  {
    nonideal' := nonideal;
    nb[j] := nb[j].(count := nb[j].count + 1);
    if nb[j].count > ideal {
      nonideal' := nonideal' + 1;
      if nb[j].count > nb[j].expandMult * ideal {
        nb[j] := nb[j].(expandMult := nb[j].expandMult + 1);
      }
    }
    NonIdealUpdate(nc, j, chain, ideal);
  }

  /** One turn of the inner loop of HASH_EXPAND_BUCKETS. */
  method MoveItem(nb: array<Bucket>, j: nat, e: Entry, ideal: nat, nonideal: nat,
                  ghost nc: seq<seq<Entry>>, ghost order: seq<Entry>)
    returns (nonideal': nat)
    requires Built(nb, nc, order, ideal) && j < |nc| && e in order && e !in nc[j]
    requires forall b, x :: 0 <= b < |nc| && b != j && x in nc[b] ==> x !in nc[j] && x != e
    requires nonideal == NonIdeal(nc, ideal)
    modifies nb, e`hhPrev, e`hhNext, nc[j]`hhPrev
    ensures Built(nb, nc[j := [e] + nc[j]], order, ideal)
    ensures nonideal' == NonIdeal(nc[j := [e] + nc[j]], ideal)
  {
    hide NonIdeal, MultAfter, ChainLinked;
    ghost var longer := [e] + nc[j];
    ghost var nc' := nc[j := longer];
    nonideal' := CountItem(nb, j, ideal, nonideal, nc, longer);
    assert forall b :: 0 <= b < |nc| ==> ChainLinked(nc[b]);
    label Counted:
    LinkFirst(nb, j, e, nc[j]);
    forall b | 0 <= b < |nc| && b != j ensures ChainLinked(nc[b]) {
      forall i | 0 <= i < |nc[b]|
        ensures nc[b][i].hhPrev == old@Counted(nc[b][i].hhPrev) && nc[b][i].hhNext == old@Counted(nc[b][i].hhNext)
      {
        var x := nc[b][i];
        assert x in nc[b] && x !in nc[j] && x != e;
      }
      ChainKept@Counted(nc[b]);
    }
  }

  /** What the doubling loops need to know about the old chains: no repetitions, and forward links still in place. */
  ghost predicate StillToMove(chains: seq<seq<Entry>>, order: seq<Entry>, i: nat)
    reads order`hhNext
  {
    forall b :: i <= b < |chains| ==>
      (forall n :: 0 <= n < |chains[b]| ==> chains[b][n] in order) && ChainForward(chains[b])
  }

  ghost predicate AllDistinct(chains: seq<seq<Entry>>)
  {
    forall b :: 0 <= b < |chains| ==> Distinct(chains[b])
  }

  /** The side conditions of MoveItem hold when the next item of the walk is moved. */
  lemma ReadyToMove(chains: seq<seq<Entry>>, order: seq<Entry>, i: nat, n: nat, k: nat)
    requires Covers(chains, order, k) && AllDistinct(chains) && i < |chains| && n < |chains[i]|
    ensures var e := chains[i][n];
            var nc := Moved(chains, i, n, k);
            var j := BucketOf(e.hashv, k + 1);
            && e in order && j < |nc| && e !in nc[j]
            && (forall b, x :: 0 <= b < |nc| && b != j && x in nc[b] ==> x !in nc[j] && x != e)
            && (forall x :: 0 <= x < |nc[j]| ==> nc[j][x] in order)
  {
    hide MovedTo, BucketOf;
    var e := chains[i][n];
    var nc := Moved(chains, i, n, k);
    var j := BucketOf(e.hashv, k + 1);
    assert e in chains[i];
    FeederOf(e.hashv, k);
    MovedRightly(chains, order, i, n, k);
    NotYetMoved(chains, i, n, k, j);
    forall b, x | 0 <= b < |nc| && b != j && x in nc[b] ensures x !in nc[j] && x != e {
      assert BucketOf(x.hashv, k + 1) == b;
    }
    forall x | 0 <= x < |nc[j]| ensures nc[j][x] in order {
      assert nc[j][x] in nc[j];
    }
  }

  /** An item of bucket i is in no later bucket. */
  lemma NotInLaterBuckets(chains: seq<seq<Entry>>, order: seq<Entry>, i: nat, k: nat, e: Entry)
    requires Covers(chains, order, k) && i < |chains| && e in chains[i]
    ensures forall b, n :: i < b < |chains| && 0 <= n < |chains[b]| ==> chains[b][n] != e && chains[b][n] in order
  {
    hide BucketOf;
    forall b, n | i < b < |chains| && 0 <= n < |chains[b]| ensures chains[b][n] != e && chains[b][n] in order {
      assert chains[b][n] in chains[b] && BucketOf(chains[b][n].hashv, k) == b && BucketOf(e.hashv, k) == i;
    }
  }

  /** One item of the walk down old bucket i. */
  method MoveNext(nb: array<Bucket>, e: Entry, i: nat, k: nat, ideal: nat, nonideal: nat,
                  ghost n: nat, ghost chains: seq<seq<Entry>>, ghost order: seq<Entry>)
    returns (nonideal': nat)
    requires Covers(chains, order, k) && AllDistinct(chains) && i < |chains| && n < |chains[i]| && e == chains[i][n]
    requires StillToMove(chains, order, i + 1)
    requires Built(nb, Moved(chains, i, n, k), order, ideal) && nonideal == NonIdeal(Moved(chains, i, n, k), ideal)
    modifies nb, order`hhPrev, e`hhNext
    ensures StillToMove(chains, order, i + 1)
    ensures Built(nb, Moved(chains, i, n + 1, k), order, ideal)
    ensures nonideal' == NonIdeal(Moved(chains, i, n + 1, k), ideal)
  {
    hide NonIdeal, MultAfter, ChainLinked, Built, Moved, Covers, BucketOf;
    var j := BucketOf(e.hashv, k + 1);
    ReadyToMove(chains, order, i, n, k);
    NotInLaterBuckets(chains, order, i, k, e);
    nonideal' := MoveItem(nb, j, e, ideal, nonideal, Moved(chains, i, n, k), order);
    MovedItem(chains, order, i, n, k);
  }

  /** Walking one old bucket. */
  method MoveBucket(nb: array<Bucket>, head: Entry?, i: nat, k: nat, ideal: nat, nonideal: nat,
                    ghost chains: seq<seq<Entry>>, ghost order: seq<Entry>)
    returns (nonideal': nat)
    requires Covers(chains, order, k) && AllDistinct(chains) && i < |chains| && head == First(chains[i])
    requires StillToMove(chains, order, i)
    requires Built(nb, Moved(chains, i, 0, k), order, ideal) && nonideal == NonIdeal(Moved(chains, i, 0, k), ideal)
    modifies nb, order`hhPrev, order`hhNext
    ensures StillToMove(chains, order, i + 1)
    ensures Built(nb, Moved(chains, i + 1, 0, k), order, ideal)
    ensures nonideal' == NonIdeal(Moved(chains, i + 1, 0, k), ideal)
  {
    hide NonIdeal, MultAfter, ChainLinked, Built, Moved, Covers, BucketOf;
    nonideal' := nonideal;
    var thh := head;
    ghost var n := 0;
    assert ChainForward(chains[i]);
    while thh != null
      invariant n <= |chains[i]| && thh == At(chains[i], n)
      invariant Built(nb, Moved(chains, i, n, k), order, ideal) && nonideal' == NonIdeal(Moved(chains, i, n, k), ideal)
      invariant forall x :: n <= x < |chains[i]| ==> chains[i][x].hhNext == At(chains[i], x + 1)
      invariant StillToMove(chains, order, i + 1)
      decreases |chains[i]| - n
    {
      var next := thh.hhNext;
      nonideal' := MoveNext(nb, thh, i, k, ideal, nonideal', n, chains, order);
      thh := next;
      n := n + 1;
    }
    MovedBucket(chains, i, k);
  }

  /** The zeroed buckets are the result of moving nothing. */
  lemma NoneMoved(nb: array<Bucket>, chains: seq<seq<Entry>>, order: seq<Entry>, k: nat, ideal: nat)
    requires |chains| == Pow2(k) && nb.Length == 2 * |chains|
    requires forall j :: 0 <= j < nb.Length ==> nb[j] == Bucket(null, 0, 0)
    ensures Built(nb, Moved(chains, 0, 0, k), order, ideal) && NonIdeal(Moved(chains, 0, 0, k), ideal) == 0
  {
    MovedStart(chains, k);
    hide Moved;
    NonIdealEmpty(Moved(chains, 0, 0, k), ideal);
  }

  lemma AllMoved(nb: array<Bucket>, chains: seq<seq<Entry>>, order: seq<Entry>, k: nat, ideal: nat)
    requires Covers(chains, order, k) && Built(nb, Moved(chains, |chains|, 0, k), order, ideal)
    ensures Covers(Doubled(chains, k), order, k + 1) && Describes(nb, Doubled(chains, k), order, k + 1)
    ensures forall j :: 0 <= j < nb.Length ==> nb[j].expandMult == MultAfter(nb[j].count, ideal)
  {
    MovedAll(chains, k);
    DoublingCovers(chains, order, k);
    hide Moved, Doubled, Covers;
  }

  lemma OldBuckets(buckets: array<Bucket>, chains: seq<seq<Entry>>, order: seq<Entry>, k: nat)
    requires Covers(chains, order, k) && Describes(buckets, chains, order, k)
    ensures |chains| == buckets.Length == Pow2(k)
    ensures AllDistinct(chains) && StillToMove(chains, order, 0)
    ensures forall b :: 0 <= b < |chains| ==> buckets[b].head == First(chains[b])
  {
    hide BucketOf;
    forall b, n | 0 <= b < |chains| && 0 <= n < |chains[b]| ensures chains[b][n] in order {
      assert chains[b][n] in chains[b];
    }
  }

  method ZeroedBuckets(n: nat) returns (nb: array<Bucket>)
    ensures fresh(nb) && nb.Length == n && forall j :: 0 <= j < n ==> nb[j] == Bucket(null, 0, 0)
  {
    nb := new Bucket[n](_ => Bucket(null, 0, 0));
  }

  /** The loops of HASH_EXPAND_BUCKETS: new buckets, the items spread over them, and the counters. */
  method Redistribute(buckets: array<Bucket>, k: nat, ideal: nat, ghost chains: seq<seq<Entry>>,
                      ghost order: seq<Entry>)
    returns (nb: array<Bucket>, nonideal: nat)
    requires Covers(chains, order, k) && Describes(buckets, chains, order, k)
    modifies order`hhPrev, order`hhNext
    ensures fresh(nb) && Covers(Doubled(chains, k), order, k + 1) && Describes(nb, Doubled(chains, k), order, k + 1)
    ensures nonideal == NonIdeal(Doubled(chains, k), ideal)
    ensures forall j :: 0 <= j < nb.Length ==> nb[j].expandMult == MultAfter(nb[j].count, ideal)
  {
    hide NonIdeal, MultAfter, Moved, Doubled, Covers, Describes, Built, StillToMove, AllDistinct, First;
    OldBuckets(buckets, chains, order, k);
    nb := ZeroedBuckets(2 * buckets.Length);
    nonideal := 0;
    NoneMoved(nb, chains, order, k, ideal);
    assert StillToMove(chains, order, 0);
    var i := 0;
    while i < buckets.Length
      invariant i <= |chains| && StillToMove(chains, order, i)
      invariant forall b :: 0 <= b < |chains| ==> buckets[b].head == First(chains[b])
      invariant Built(nb, Moved(chains, i, 0, k), order, ideal) && nonideal == NonIdeal(Moved(chains, i, 0, k), ideal)
    {
      nonideal := MoveBucket(nb, buckets[i].head, i, k, ideal, nonideal, chains, order);
      i := i + 1;
    }
    MovedAll(chains, k);
    AllMoved(nb, chains, order, k, ideal);
  }
}
