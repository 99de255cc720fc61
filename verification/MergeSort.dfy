/** What the list sort of src/uthash.h computes: bottom-up merging, and why it gives a stable sorted permutation. */
module MergeSort {

  /** Ties go to the first list. */
  function Merge<T>(p: seq<T>, q: seq<T>, cmp: (T, T) -> int): (m: seq<T>)
    ensures |m| == |p| + |q|
  {
    if p == [] then q
    else if q == [] then p
    else if cmp(p[0], q[0]) <= 0 then [p[0]] + Merge(p[1..], q, cmp)
    else [q[0]] + Merge(p, q[1..], cmp)
  }

  /** One pass merges neighbouring runs of n. */
  function Pass<T>(s: seq<T>, n: nat, cmp: (T, T) -> int): (r: seq<T>)
    requires n > 0
    ensures |r| == |s|
  {
    if |s| <= n then s
    else if |s| <= 2 * n then Merge(s[..n], s[n..], cmp)
    else Merge(s[..n], s[n..2 * n], cmp) + Pass(s[2 * n..], n, cmp)
  }

  /** Passes with doubling runs until one pass makes a single merge. */
  function SortFrom<T>(s: seq<T>, n: nat, cmp: (T, T) -> int): (r: seq<T>)
    requires n > 0
    ensures |r| == |s|
    decreases |s| - n
  {
    if |s| <= 2 * n then Pass(s, n, cmp) else SortFrom(Pass(s, n, cmp), 2 * n, cmp)
  }

  function Sort<T>(s: seq<T>, cmp: (T, T) -> int): seq<T>
  {
    SortFrom(s, 1, cmp)
  }

  // ---------- a permutation, whatever the comparison ----------

  lemma HeadAndTail<T>(s: seq<T>)
    requires s != []
    ensures multiset(s) == multiset{s[0]} + multiset(s[1..])
  {
    assert s == [s[0]] + s[1..];
  }

  lemma ConsMultiset<T>(x: T, s: seq<T>)
    ensures multiset([x] + s) == multiset{x} + multiset(s)
  {
  }

  lemma {:induction false} MergePermutes<T>(p: seq<T>, q: seq<T>, cmp: (T, T) -> int)
    ensures multiset(Merge(p, q, cmp)) == multiset(p) + multiset(q)
  {
    if p != [] && q != [] {
      if cmp(p[0], q[0]) <= 0 {
        HeadAndTail(p);
        MergePermutes(p[1..], q, cmp);
        ConsMultiset(p[0], Merge(p[1..], q, cmp));
      } else {
        HeadAndTail(q);
        MergePermutes(p, q[1..], cmp);
        ConsMultiset(q[0], Merge(p, q[1..], cmp));
      }
    }
  }

  lemma PartsMakeWhole<T>(s: seq<T>, n: nat)
    requires n <= |s|
    ensures multiset(s[..n]) + multiset(s[n..]) == multiset(s)
  {
    assert s == s[..n] + s[n..];
  }

  lemma {:induction false} PassPermutes<T>(s: seq<T>, n: nat, cmp: (T, T) -> int)
    requires n > 0
    ensures multiset(Pass(s, n, cmp)) == multiset(s)
  {
    if n < |s| <= 2 * n {
      MergePermutes(s[..n], s[n..], cmp);
      PartsMakeWhole(s, n);
    } else if 2 * n < |s| {
      var both, rest := s[..2 * n], s[2 * n..];
      PassPermutes(rest, n, cmp);
      PartsMakeWhole(s, 2 * n);
      PartsMakeWhole(both, n);
      assert s[..n] == both[..n] && s[n..2 * n] == both[n..];
      MergePermutes(both[..n], both[n..], cmp);
      hide Pass, Merge;
      assert multiset(Merge(both[..n], both[n..], cmp) + Pass(rest, n, cmp)) == multiset(both) + multiset(rest);
    }
  }

  lemma {:induction false} SortFromPermutes<T>(s: seq<T>, n: nat, cmp: (T, T) -> int)
    requires n > 0
    ensures multiset(SortFrom(s, n, cmp)) == multiset(s)
    decreases |s| - n
  {
    PassPermutes(s, n, cmp);
    if 2 * n < |s| {
      SortFromPermutes(Pass(s, n, cmp), 2 * n, cmp);
    }
  }

  // ---------- sorted and stable ----------

  /** cmp orders the elements of s, ties allowed. */
  ghost predicate Orders<T>(cmp: (T, T) -> int, s: seq<T>)
  {
    && (forall a, b :: a in s && b in s ==> (cmp(a, b) < 0 <==> cmp(b, a) > 0))
    && (forall a, b, c :: a in s && b in s && c in s && cmp(a, b) <= 0 && cmp(b, c) <= 0 ==> cmp(a, c) <= 0)
  }

  /** a goes before b: it is smaller, or it ties and was earlier. */
  ghost predicate Before<T>(a: T, b: T, cmp: (T, T) -> int, rank: map<T, nat>)
  {
    cmp(a, b) < 0 || (cmp(a, b) == 0 && a in rank && b in rank && rank[a] < rank[b])
  }

  ghost predicate InOrder<T>(s: seq<T>, cmp: (T, T) -> int, rank: map<T, nat>)
  {
    forall i, j :: 0 <= i < j < |s| ==> Before(s[i], s[j], cmp, rank)
  }

  ghost predicate Earlier<T>(p: seq<T>, q: seq<T>, rank: map<T, nat>)
  {
    forall a, b :: a in p && b in q ==> a in rank && b in rank && rank[a] < rank[b]
  }

  /** Runs of n, each in order, and each made of elements that came earlier than those of the next. */
  ghost predicate Runs<T>(s: seq<T>, n: nat, cmp: (T, T) -> int, rank: map<T, nat>)
    requires n > 0
  {
    if |s| <= n then InOrder(s, cmp, rank)
    else InOrder(s[..n], cmp, rank) && Runs(s[n..], n, cmp, rank) && Earlier(s[..n], s[n..], rank)
  }

  lemma OrdersPart<T>(cmp: (T, T) -> int, s: seq<T>, t: seq<T>)
    requires Orders(cmp, s) && forall x :: x in t ==> x in s
    ensures Orders(cmp, t)
  {
  }

  lemma MergeHas<T>(p: seq<T>, q: seq<T>, cmp: (T, T) -> int, x: T)
    ensures x in Merge(p, q, cmp) <==> x in p || x in q
  {
    MergePermutes(p, q, cmp);
    assert x in multiset(Merge(p, q, cmp)) <==> x in multiset(p) + multiset(q);
  }

  lemma PassHas<T>(s: seq<T>, n: nat, cmp: (T, T) -> int, x: T)
    requires n > 0
    ensures x in Pass(s, n, cmp) <==> x in s
  {
    PassPermutes(s, n, cmp);
    assert x in multiset(Pass(s, n, cmp)) <==> x in multiset(s);
  }

  lemma InOrderCons<T>(x: T, s: seq<T>, cmp: (T, T) -> int, rank: map<T, nat>)
    requires InOrder(s, cmp, rank) && forall y :: y in s ==> Before(x, y, cmp, rank)
    ensures InOrder([x] + s, cmp, rank)
  {
  }

  lemma InOrderTail<T>(s: seq<T>, cmp: (T, T) -> int, rank: map<T, nat>)
    requires InOrder(s, cmp, rank) && s != []
    ensures InOrder(s[1..], cmp, rank) && forall y :: y in s[1..] ==> Before(s[0], y, cmp, rank)
  {
  }

  /** The smaller head goes before everything left in both runs; on a tie the first run's head does. */
  lemma HeadIsFirst<T>(p: seq<T>, q: seq<T>, cmp: (T, T) -> int, rank: map<T, nat>)
    requires p != [] && q != [] && Orders(cmp, p + q)
    requires InOrder(p, cmp, rank) && InOrder(q, cmp, rank) && Earlier(p, q, rank)
    ensures cmp(p[0], q[0]) <= 0 ==> forall y :: y in p[1..] || y in q ==> Before(p[0], y, cmp, rank)
    ensures cmp(p[0], q[0]) > 0 ==> forall y :: y in p || y in q[1..] ==> Before(q[0], y, cmp, rank)
  {
    InOrderTail(p, cmp, rank);
    InOrderTail(q, cmp, rank);
    forall y | y in p || y in q ensures y in p + q {
    }
    assert p[0] in p && q[0] in q;
  }

  lemma {:induction false} MergeInOrder<T>(p: seq<T>, q: seq<T>, cmp: (T, T) -> int, rank: map<T, nat>)
    requires Orders(cmp, p + q) && InOrder(p, cmp, rank) && InOrder(q, cmp, rank) && Earlier(p, q, rank)
    ensures InOrder(Merge(p, q, cmp), cmp, rank)
  {
    if p != [] && q != [] {
      HeadIsFirst(p, q, cmp, rank);
      InOrderTail(p, cmp, rank);
      InOrderTail(q, cmp, rank);
      if cmp(p[0], q[0]) <= 0 {
        OrdersPart(cmp, p + q, p[1..] + q);
        MergeInOrder(p[1..], q, cmp, rank);
        forall y | y in Merge(p[1..], q, cmp) ensures Before(p[0], y, cmp, rank) {
          MergeHas(p[1..], q, cmp, y);
        }
        InOrderCons(p[0], Merge(p[1..], q, cmp), cmp, rank);
      } else {
        OrdersPart(cmp, p + q, p + q[1..]);
        MergeInOrder(p, q[1..], cmp, rank);
        forall y | y in Merge(p, q[1..], cmp) ensures Before(q[0], y, cmp, rank) {
          MergeHas(p, q[1..], cmp, y);
        }
        InOrderCons(q[0], Merge(p, q[1..], cmp), cmp, rank);
      }
    }
  }

  lemma JoinRuns<T>(m: seq<T>, r: seq<T>, n: nat, cmp: (T, T) -> int, rank: map<T, nat>)
    requires n > 0 && |m| == n && r != [] && InOrder(m, cmp, rank) && Runs(r, n, cmp, rank) && Earlier(m, r, rank)
    ensures Runs(m + r, n, cmp, rank)
  {
    assert (m + r)[..n] == m && (m + r)[n..] == r;
  }

  lemma EarlierResults<T>(p: seq<T>, q: seq<T>, last: seq<T>, n: nat, cmp: (T, T) -> int, rank: map<T, nat>)
    requires n > 0 && Earlier(p, last, rank) && Earlier(q, last, rank)
    ensures Earlier(Merge(p, q, cmp), Pass(last, n, cmp), rank)
  {
    hide Merge, Pass;
    forall a, b | a in Merge(p, q, cmp) && b in Pass(last, n, cmp) ensures a in rank && b in rank && rank[a] < rank[b] {
      MergeHas(p, q, cmp, a);
      PassHas(last, n, cmp, b);
    }
  }

  lemma EarlierPart<T>(p: seq<T>, q: seq<T>, part: seq<T>, rank: map<T, nat>)
    requires Earlier(p, q, rank) && forall x :: x in part ==> x in q
    ensures Earlier(p, part, rank)
  {
  }

  /** The first two runs and the rest, as they go into a pass. */
  lemma TwoRunsAndRest<T>(s: seq<T>, n: nat, cmp: (T, T) -> int, rank: map<T, nat>)
    requires n > 0 && 2 * n < |s| && Runs(s, n, cmp, rank)
    ensures var p, q, last := s[..n], s[n..2 * n], s[2 * n..];
            && InOrder(p, cmp, rank) && InOrder(q, cmp, rank) && Runs(last, n, cmp, rank)
            && Earlier(p, q, rank) && Earlier(p, last, rank) && Earlier(q, last, rank)
  {
    PassParts(s, n);
    var p, rest := s[..n], s[n..];
    assert Earlier(p, rest, rank) && Runs(rest, n, cmp, rank);
    EarlierPart(p, rest, rest[..n], rank);
    EarlierPart(p, rest, rest[n..], rank);
    hide InOrder, Earlier;
  }

  lemma MergedRuns<T>(p: seq<T>, q: seq<T>, last: seq<T>, n: nat, cmp: (T, T) -> int, rank: map<T, nat>)
    requires n > 0 && |p| == n && |q| == n && last != [] && Orders(cmp, p + q)
    requires InOrder(p, cmp, rank) && InOrder(q, cmp, rank) && Earlier(p, q, rank) && Earlier(p, last, rank)
    requires Earlier(q, last, rank)
    requires Runs(Pass(last, n, cmp), 2 * n, cmp, rank)
    ensures Runs(Merge(p, q, cmp) + Pass(last, n, cmp), 2 * n, cmp, rank)
  {
    hide InOrder, Orders, Merge, Pass, Runs;
    EarlierResults(p, q, last, n, cmp, rank);
    MergeInOrder(p, q, cmp, rank);
    JoinRuns(Merge(p, q, cmp), Pass(last, n, cmp), 2 * n, cmp, rank);
  }

  /** A pass turns runs of n into runs of 2n. */
  lemma {:induction false} PassRuns<T>(s: seq<T>, n: nat, cmp: (T, T) -> int, rank: map<T, nat>)
    requires n > 0 && Orders(cmp, s) && Runs(s, n, cmp, rank)
    ensures Runs(Pass(s, n, cmp), 2 * n, cmp, rank)
  {
    if n < |s| <= 2 * n {
      assert s[..n] + s[n..] == s;
      MergeInOrder(s[..n], s[n..], cmp, rank);
    } else if 2 * n < |s| {
      hide InOrder, Orders, Merge, Earlier, Runs;
      var p, q, last := s[..n], s[n..2 * n], s[2 * n..];
      PassParts(s, n);
      TwoRunsAndRest(s, n, cmp, rank);
      OrdersPart(cmp, s, p + q);
      OrdersPart(cmp, s, last);
      PassRuns(last, n, cmp, rank);
      MergedRuns(p, q, last, n, cmp, rank);
    }
  }

  lemma PassParts<T>(s: seq<T>, n: nat)
    requires 2 * n < |s|
    ensures var rest := s[n..];
            rest[..n] == s[n..2 * n] && rest[n..] == s[2 * n..] && rest == rest[..n] + rest[n..]
            && (forall x :: x in s[..n] + rest[..n] ==> x in s) && (forall x :: x in rest[n..] ==> x in s)
  {
  }

  lemma {:induction false} SortFromInOrder<T>(s: seq<T>, n: nat, cmp: (T, T) -> int, rank: map<T, nat>)
    requires n > 0 && Orders(cmp, s) && Runs(s, n, cmp, rank)
    ensures InOrder(SortFrom(s, n, cmp), cmp, rank)
    decreases |s| - n
  {
    PassRuns(s, n, cmp, rank);
    if 2 * n < |s| {
      forall x | x in Pass(s, n, cmp) ensures x in s {
        PassHas(s, n, cmp, x);
      }
      OrdersPart(cmp, s, Pass(s, n, cmp));
      SortFromInOrder(Pass(s, n, cmp), 2 * n, cmp, rank);
    }
  }

  ghost predicate Ranked<T>(s: seq<T>, rank: map<T, nat>)
  {
    && (forall i :: 0 <= i < |s| ==> s[i] in rank)
    && (forall i, j :: 0 <= i < j < |s| ==> rank[s[i]] < rank[s[j]])
  }

  lemma RankedTail<T>(s: seq<T>, rank: map<T, nat>)
    requires Ranked(s, rank) && s != []
    ensures Ranked(s[1..], rank) && Earlier(s[..1], s[1..], rank)
  {
    var rest := s[1..];
    assert forall i :: 0 <= i < |rest| ==> rest[i] == s[i + 1];
  }

  /** Single elements in their original places are runs of one. */
  lemma {:induction false} SinglesAreRuns<T>(s: seq<T>, cmp: (T, T) -> int, rank: map<T, nat>)
    requires Ranked(s, rank)
    ensures Runs(s, 1, cmp, rank)
  {
    if |s| > 1 {
      RankedTail(s, rank);
      SinglesAreRuns(s[1..], cmp, rank);
    }
  }

  ghost predicate Distinct<T>(s: seq<T>)
  {
    forall i, j :: 0 <= i < j < |s| ==> s[i] != s[j]
  }

  /** The sort: a permutation, sorted, in which elements that tie keep their order. */
  lemma SortedAndStable<T>(s: seq<T>, cmp: (T, T) -> int)
    requires Distinct(s) && Orders(cmp, s)
    ensures var r := Sort(s, cmp);
            && multiset(r) == multiset(s)
            && (forall i, j :: 0 <= i < j < |r| ==> cmp(r[i], r[j]) <= 0)
            && (forall i, j, a, b ::
                  0 <= i < |s| && 0 <= j < |s| && 0 <= a < b < |r| && r[a] == s[i] && r[b] == s[j]
                  && cmp(s[i], s[j]) == 0
                  ==> i < j)
  {
    var rank: map<T, nat> := Ranks(s);
    SinglesAreRuns(s, cmp, rank);
    SortFromPermutes(s, 1, cmp);
    SortFromInOrder(s, 1, cmp, rank);
  }

  ghost function Ranks<T>(s: seq<T>): (m: map<T, nat>)
    requires Distinct(s)
    ensures forall i :: 0 <= i < |s| ==> s[i] in m && m[s[i]] == i
  {
    if s == [] then map[] else Ranks(s[..|s| - 1])[s[|s| - 1] := |s| - 1]
  }

  /** A permutation of distinct elements has the same elements, once each. */
  lemma PermutationDistinct<T>(s: seq<T>, r: seq<T>)
    requires Distinct(s) && multiset(r) == multiset(s)
    ensures Distinct(r) && |r| == |s| && forall x :: x in r <==> x in s
  {
    forall x ensures x in r <==> x in s {
      assert x in multiset(r) <==> x in multiset(s);
    }
    assert |r| == |multiset(r)| == |s|;
    forall i, j | 0 <= i < j < |r| ensures r[i] != r[j] {
      if r[i] == r[j] {
        assert r == r[..i] + [r[i]] + r[i + 1..j] + [r[j]] + r[j + 1..];
        assert multiset(r)[r[i]] >= 2;
        OncePerElement(s, r[i]);
        assert false;
      }
    }
  }

  lemma {:induction false} OncePerElement<T>(s: seq<T>, x: T)
    requires Distinct(s)
    ensures multiset(s)[x] <= 1
  {
    if s != [] {
      OncePerElement(s[1..], x);
      assert s == [s[0]] + s[1..];
    }
  }
}
