/** The items of src/uthash.h, the two lists that run through them, and where bucket doubling sends them. */
module HashChains {
  import opened Bits
  import opened MergeSort

  type Ptr = nat

  /** An item with its hash handle: prev and next in application order, hhPrev and hhNext in its bucket. */
  class Entry {
    const key: string
    const ptr: Ptr
    const hashv: nat
    var prev: Entry?
    var next: Entry?
    var hhPrev: Entry?
    var hhNext: Entry?

    constructor (key: string, ptr: Ptr, hashv: nat)
      ensures this.key == key && this.ptr == ptr && this.hashv == hashv
    {
      this.key, this.ptr, this.hashv := key, ptr, hashv;
      prev, next, hhPrev, hhNext := null, null, null, null;
    }
  }

  datatype Bucket = Bucket(head: Entry?, count: nat, expandMult: nat)

  // ---------- the two lists ----------

  function First(s: seq<Entry>): Entry? { if s == [] then null else s[0] }

  function Last(s: seq<Entry>): Entry? { if s == [] then null else s[|s| - 1] }

  function At(s: seq<Entry>, i: int): Entry? { if 0 <= i < |s| then s[i] else null }

  /** The application-order list: the walk of HASH_FSCK finds exactly s, forwards and backwards. */
  ghost predicate AppLinked(s: seq<Entry>)
    reads s`prev, s`next
  {
    Distinct(s) && forall i :: 0 <= i < |s| ==> s[i].prev == At(s, i - 1) && s[i].next == At(s, i + 1)
  }

  ghost predicate ChainLinked(s: seq<Entry>)
    reads s`hhPrev, s`hhNext
  {
    Distinct(s) && forall i :: 0 <= i < |s| ==> s[i].hhPrev == At(s, i - 1) && s[i].hhNext == At(s, i + 1)
  }

  /** Only the forward links of a bucket's chain. */
  ghost predicate ChainForward(s: seq<Entry>)
    reads s`hhNext
  {
    forall i :: 0 <= i < |s| ==> s[i].hhNext == At(s, i + 1)
  }

  // ---------- buckets ----------

  /** HASH_TO_BKT with 2^k buckets. */
  function BucketOf(hashv: nat, k: nat): (b: nat)
  {
    And(hashv, Pow2(k) - 1)
  }

  /** The bucket is the remainder of the hash by the number of buckets. */
  lemma BucketIsRemainder(hashv: nat, k: nat)
    ensures BucketOf(hashv, k) == hashv % Pow2(k)
  {
    LowIsRemainder(hashv, k);
  }

  lemma BucketInRange(hashv: nat, k: nat)
    ensures BucketOf(hashv, k) < Pow2(k)
  {
    AndMask(hashv, k);
  }

  /** Doubling sends bucket i to i or to i + b. */
  lemma DoublingSplits(hashv: nat, k: nat)
    ensures BucketOf(hashv, k + 1) == BucketOf(hashv, k) || BucketOf(hashv, k + 1) == BucketOf(hashv, k) + Pow2(k)
    ensures BucketOf(hashv, k + 1) < 2 * Pow2(k)
  {
    AndMask(hashv, k);
    AndMask(hashv, k + 1);
    LowSplit(hashv, k);
  }

  /** The old bucket that feeds new bucket j. */
  function Feeder(j: nat, b: nat): (i: nat)
    requires j < 2 * b
    ensures i < b
  {
    if j < b then j else j - b
  }

  lemma FeederOf(hashv: nat, k: nat)
    ensures var j := BucketOf(hashv, k + 1); j < 2 * Pow2(k) && Feeder(j, Pow2(k)) == BucketOf(hashv, k)
  {
    DoublingSplits(hashv, k);
    BucketInRange(hashv, k);
  }

  /** What a walk down a chain pushes onto bucket j of 2^k: its items for j, last one first. */
  function Share(chain: seq<Entry>, j: nat, k: nat): seq<Entry>
  {
    if chain == [] then []
    else
      var e := chain[|chain| - 1];
      var earlier := Share(chain[..|chain| - 1], j, k);
      if BucketOf(e.hashv, k) == j then [e] + earlier else earlier
  }

  lemma {:induction false} ShareHas(chain: seq<Entry>, j: nat, k: nat, e: Entry)
    ensures e in Share(chain, j, k) <==> e in chain && BucketOf(e.hashv, k) == j
  {
    hide BucketOf;
    if chain != [] {
      ShareHas(chain[..|chain| - 1], j, k, e);
      SnocSplit(chain);
    }
  }

  lemma {:induction false} ShareDistinct(chain: seq<Entry>, j: nat, k: nat)
    requires Distinct(chain)
    ensures Distinct(Share(chain, j, k))
  {
    hide BucketOf;
    if chain != [] {
      ShareDistinct(chain[..|chain| - 1], j, k);
      ShareHas(chain[..|chain| - 1], j, k, chain[|chain| - 1]);
    }
  }

  lemma ShareNext(chain: seq<Entry>, i: nat, j: nat, k: nat)
    requires i < |chain|
    ensures Share(chain[..i + 1], j, k) == if BucketOf(chain[i].hashv, k) == j then [chain[i]] + Share(chain[..i], j, k)
                                           else Share(chain[..i], j, k)
  {
    assert chain[..i + 1][..i] == chain[..i];
  }

  // ---------- the numbers kept about chains ----------

  function Excess(n: nat, ideal: nat): nat { if n > ideal then n - ideal else 0 }

  /** Items beyond the ideal position in their chain, over all buckets. */
  function NonIdeal(chains: seq<seq<Entry>>, ideal: nat): nat
  {
    if chains == [] then 0
    else NonIdeal(chains[..|chains| - 1], ideal) + Excess(|chains[|chains| - 1]|, ideal)
  }

  lemma {:induction false} NonIdealUpdate(chains: seq<seq<Entry>>, j: nat, chain: seq<Entry>, ideal: nat)
    requires j < |chains|
    ensures NonIdeal(chains[j := chain], ideal)
            == NonIdeal(chains, ideal) - Excess(|chains[j]|, ideal) + Excess(|chain|, ideal)
  {
    var last := |chains| - 1;
    if j < last {
      NonIdealUpdate(chains[..last], j, chain, ideal);
      assert chains[j := chain][..last] == chains[..last][j := chain];
    } else {
      assert chains[j := chain][..last] == chains[..last];
    }
  }

  /** The places in the chains that lie beyond the ideal length. */
  ghost function Beyond(chains: seq<seq<Entry>>, ideal: nat): set<(int, int)>
  {
    set j, n | 0 <= j < |chains| && ideal <= n < |chains[j]| :: (j, n)
  }

  lemma {:induction false} NonIdealCounts(chains: seq<seq<Entry>>, ideal: nat)
    ensures NonIdeal(chains, ideal) == |Beyond(chains, ideal)|
  {
    if chains != [] {
      var last := |chains| - 1;
      var init := chains[..last];
      NonIdealCounts(init, ideal);
      var more := Places(last, ideal, |chains[last]|);
      PlacesInOne(last, ideal, |chains[last]|);
      assert Beyond(chains, ideal) == Beyond(init, ideal) + more by {
        forall x | x in Beyond(chains, ideal) ensures x in Beyond(init, ideal) + more {
          assert x.0 < last ==> init[x.0] == chains[x.0];
        }
        forall x | x in Beyond(init, ideal) ensures x in Beyond(chains, ideal) {
          assert init[x.0] == chains[x.0];
        }
      }
      assert Beyond(init, ideal) !! more;
    }
  }

  ghost function Places(j: int, first: int, end: int): set<(int, int)>
  {
    set n | first <= n < end :: (j, n)
  }

  lemma {:induction false} PlacesInOne(j: int, first: nat, end: nat)
    ensures |Places(j, first, end)| == Excess(end, first)
    decreases end
  {
    if end > first {
      PlacesInOne(j, first, end - 1);
      assert Places(j, first, end) == Places(j, first, end - 1) + {(j, end - 1)};
    } else {
      assert Places(j, first, end) == {};
    }
  }

  lemma {:induction false} NonIdealEmpty(chains: seq<seq<Entry>>, ideal: nat)
    requires forall j :: 0 <= j < |chains| ==> chains[j] == []
    ensures NonIdeal(chains, ideal) == 0
  {
    if chains != [] {
      NonIdealEmpty(chains[..|chains| - 1], ideal);
    }
  }

  function Shift(n: nat, k: nat): nat { if k == 0 then n else Shift(n / 2, k - 1) }

  lemma TwiceProduct(q: nat, p: nat)
    ensures q * (2 * p) == 2 * (q * p)
  {
  }

  lemma OneMoreOrLess(q: nat, p: nat)
    ensures (q + 1) * p == q * p + p && (q - 1) * p == q * p - p
  {
  }

  lemma {:induction false} ShiftAndMask(n: nat, k: nat)
    ensures n == Shift(n, k) * Pow2(k) + Low(n, k)
  {
    if k > 0 {
      ShiftAndMask(n / 2, k - 1);
      var q, p := Shift(n / 2, k - 1), Pow2(k - 1);
      TwiceProduct(q, p);
      var qp := q * p;
      assert Shift(n, k) == q && Pow2(k) == 2 * p && Low(n, k) == n % 2 + 2 * Low(n / 2, k - 1);
      assert n / 2 == qp + Low(n / 2, k - 1);
      hide Shift, Pow2, Low;
    }
  }

  /** (n >> k) + ((n & (2^k - 1)) != 0 ? 1 : 0) */
  function IdealLength(n: nat, k: nat): nat
  {
    Shift(n, k) + if And(n, Pow2(k) - 1) != 0 then 1 else 0
  }

  /** The least chain length that fits n items into 2^k buckets. */
  lemma IdealIsCeiling(n: nat, k: nat)
    ensures var m := IdealLength(n, k); n <= m * Pow2(k) && (m > 0 ==> (m - 1) * Pow2(k) < n) && (n > 0 ==> m > 0)
  {
    hide Shift, Pow2, Low, And;
    AndMask(n, k);
    ShiftAndMask(n, k);
    OneMoreOrLess(Shift(n, k), Pow2(k));
  }

  /** expand_mult of a bucket into which c items have been moved. */
  function MultAfter(c: nat, ideal: nat): nat
  {
    if c == 0 then 0
    else
      var m := MultAfter(c - 1, ideal);
      if c > ideal && c > m * ideal then m + 1 else m
  }

  /** It is how many ideal chains the bucket's own chain amounts to, rounded up, except that it starts one late. */
  lemma {:induction false} MultCountsIdealChains(c: nat, ideal: nat)
    requires ideal > 0
    ensures var m := MultAfter(c, ideal);
            if c <= ideal then m == 0
            else if ideal == 1 then m == c - 1
            else if c == ideal + 1 then m == 1
            else (m - 1) * ideal < c <= m * ideal
  {
    if c > 0 {
      MultCountsIdealChains(c - 1, ideal);
      var m := MultAfter(c - 1, ideal);
      OneMoreOrLess(m, ideal);
    }
  }
}
