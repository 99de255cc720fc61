/** The list sort of src/uthash.h, relinking the items in place. */
module HashSort {
  import opened MergeSort
  import opened HashChains

  /** Forward links within s; where the last one points does not matter. */
  ghost predicate Forward(s: seq<Entry>)
    reads s`next
  {
    forall i :: 0 <= i < |s| - 1 ==> s[i].next == s[i + 1]
  }

  /** Forward links, ending in null. */
  ghost predicate ForwardToEnd(s: seq<Entry>)
    reads s`next
  {
    Forward(s) && (s != [] ==> s[|s| - 1].next == null)
  }

  /** A list under construction: all links are right but the last forward one. */
  ghost predicate Growing(s: seq<Entry>)
    reads s`prev, s`next
  {
    Forward(s) && forall i :: 0 <= i < |s| ==> s[i].prev == At(s, i - 1)
  }

  lemma ForwardTail(s: seq<Entry>)
    requires s != [] && Forward(s)
    ensures Forward(s[1..]) && (s[1..] != [] ==> s[0].next == s[1..][0])
    ensures ForwardToEnd(s) ==> ForwardToEnd(s[1..]) && s[0].next == First(s[1..])
  {
  }

  /** Every item is in one place. */
  ghost predicate Apart(a: seq<Entry>, b: seq<Entry>)
  {
    forall x :: x in a ==> x !in b
  }

  // ---------- appending to the output ----------

  /** The end of the merge loop's body. */
  method Append(list: Entry?, tail: Entry?, e: Entry, ghost out: seq<Entry>) returns (list': Entry?)
    requires Growing(out) && Distinct(out) && e !in out && list == First(out) && tail == Last(out)
    modifies out`next, e`prev
    ensures Growing(out + [e]) && Distinct(out + [e]) && list' == First(out + [e])
    ensures forall x :: x in out && x != Last(out) ==> x.next == old(x.next)
  {
    list' := list;
    if tail != null {
      tail.next := e;
    } else {
      list' := e;
    }
    e.prev := tail;
    ghost var out' := out + [e];
    forall i | 0 <= i < |out'| - 1 ensures out'[i].next == out'[i + 1] {
    }
    forall i | 0 <= i < |out'| ensures out'[i].prev == At(out', i - 1) {
    }
  }

  // ---------- merging two runs ----------

  ghost predicate Separate(out: seq<Entry>, p: seq<Entry>, q: seq<Entry>)
  {
    Distinct(out) && Distinct(p) && Distinct(q) && Apart(out, p) && Apart(out, q) && Apart(p, q)
  }

  lemma SeparateP(out: seq<Entry>, p: seq<Entry>, q: seq<Entry>)
    requires Separate(out, p, q) && p != []
    ensures p[0] !in out && p[0] !in p[1..] && p[0] !in q && Separate(out + [p[0]], p[1..], q)
  {
  }

  lemma SeparateQ(out: seq<Entry>, p: seq<Entry>, q: seq<Entry>)
    requires Separate(out, p, q) && q != []
    ensures q[0] !in out && q[0] !in p && q[0] !in q[1..] && Separate(out + [q[0]], p, q[1..])
  {
  }

  lemma MergeTakesP(out: seq<Entry>, p: seq<Entry>, q: seq<Entry>, m: nat, cmp: (Entry, Entry) -> int)
    requires p != [] && m <= |q| && (m == 0 || cmp(p[0], q[0]) <= 0)
    ensures out + Merge(p, q[..m], cmp) == (out + [p[0]]) + Merge(p[1..], q[..m], cmp)
  {
  }

  lemma MergeTakesQ(out: seq<Entry>, p: seq<Entry>, q: seq<Entry>, m: nat, cmp: (Entry, Entry) -> int)
    requires 0 < m <= |q| && (p == [] || cmp(p[0], q[0]) > 0)
    ensures out + Merge(p, q[..m], cmp) == (out + [q[0]]) + Merge(p, q[1..][..m - 1], cmp)
    ensures q[m..] == q[1..][m - 1..]
  {
    assert q[..m][1..] == q[1..][..m - 1];
  }

  function Least(a: nat, b: nat): nat { if a < b then a else b }

  ghost predicate Within(s: seq<Entry>, all: seq<Entry>)
  {
    forall i :: 0 <= i < |s| ==> s[i] in all
  }

  /** The merge loop: what is output, what remains of the two runs, and what lies beyond them. */
  ghost predicate Merging(out: seq<Entry>, p: seq<Entry>, q: seq<Entry>, qsize: nat, cmp: (Entry, Entry) -> int,
                          end: seq<Entry>, beyond: seq<Entry>, all: seq<Entry>)
  {
    var m := Least(qsize, |q|);
    && Separate(out, p, q) && Within(out, all) && Within(p, all) && Within(q, all)
    && out + Merge(p, q[..m], cmp) == end && q[m..] == beyond
  }

  lemma TakingP(out: seq<Entry>, p: seq<Entry>, q: seq<Entry>, qsize: nat, cmp: (Entry, Entry) -> int,
                end: seq<Entry>, beyond: seq<Entry>, all: seq<Entry>)
    requires Merging(out, p, q, qsize, cmp, end, beyond, all) && p != []
    requires qsize == 0 || q == [] || cmp(p[0], q[0]) <= 0
    ensures Merging(out + [p[0]], p[1..], q, qsize, cmp, end, beyond, all) && p[0] !in out
  {
    hide Merge, Separate, Within;
    SeparateP(out, p, q);
    MergeTakesP(out, p, q, Least(qsize, |q|), cmp);
    WithinMoved(out, p, all);
  }

  lemma TakingQ(out: seq<Entry>, p: seq<Entry>, q: seq<Entry>, qsize: nat, cmp: (Entry, Entry) -> int,
                end: seq<Entry>, beyond: seq<Entry>, all: seq<Entry>)
    requires Merging(out, p, q, qsize, cmp, end, beyond, all) && q != [] && qsize > 0
    requires p == [] || cmp(p[0], q[0]) > 0
    ensures Merging(out + [q[0]], p, q[1..], qsize - 1, cmp, end, beyond, all) && q[0] !in out
  {
    hide Merge, Separate, Within;
    SeparateQ(out, p, q);
    MergeTakesQ(out, p, q, Least(qsize, |q|), cmp);
    WithinMoved(out, q, all);
  }

  lemma MergingEnds(out: seq<Entry>, p: seq<Entry>, q: seq<Entry>, qsize: nat, cmp: (Entry, Entry) -> int,
                    end: seq<Entry>, beyond: seq<Entry>, all: seq<Entry>)
    requires Merging(out, p, q, qsize, cmp, end, beyond, all) && p == [] && (qsize == 0 || q == [])
    ensures out == end && q == beyond
  {
    MergeNothing([], cmp);
    assert q[..0] == [] && q[0..] == q && out + [] == out;
  }

  /** The output grows by an item taken from the front of a run; what is left of both runs keeps its links. */
  method Take(list: Entry?, tail: Entry?, e: Entry, ghost out: seq<Entry>, ghost p: seq<Entry>, ghost q: seq<Entry>,
              ghost qsize: nat, ghost cmp: (Entry, Entry) -> int,
              ghost end: seq<Entry>, ghost beyond: seq<Entry>, ghost all: seq<Entry>)
    returns (list': Entry?)
    requires Growing(out) && Forward(p) && ForwardToEnd(q) && e !in out && list == First(out) && tail == Last(out)
    requires Merging(out + [e], p, q, qsize, cmp, end, beyond, all)
    modifies all`next, all`prev
    ensures Growing(out + [e]) && Forward(p) && ForwardToEnd(q) && list' == First(out + [e]) && Last(out + [e]) == e
  {
    hide At, Growing, Merge;
    assert (out + [e])[..|out|] == out && (out + [e])[|out|] == e;
    assert forall i :: 0 <= i < |out| ==> (out + [e])[i] == out[i];
    assert forall i :: 0 <= i < |out| ==> out[i] in out + [e];
    list' := Append(list, tail, e, out);
  }

  /** The while loop that merges psize items from p with at most qsize items from q, appending to the output. */
  method MergeRuns(p0: Entry?, q0: Entry?, psize0: nat, qsize0: nat, list0: Entry?, tail0: Entry?,
                   cmp: (Entry, Entry) -> int, ghost run: seq<Entry>, ghost rest: seq<Entry>, ghost done: seq<Entry>,
                   ghost all: seq<Entry>)
    returns (q: Entry?, list: Entry?, tail: Entry?)
    requires psize0 == |run| && p0 == First(run) && q0 == First(rest) && list0 == First(done) && tail0 == Last(done)
    requires Forward(run) && ForwardToEnd(rest) && Growing(done) && Separate(done, run, rest)
    requires Within(done, all) && Within(run, all) && Within(rest, all)
    modifies all`next, all`prev
    ensures var m := Least(qsize0, |rest|);
            var out := done + Merge(run, rest[..m], cmp);
            && q == First(rest[m..]) && ForwardToEnd(rest[m..])
            && Growing(out) && list == First(out) && tail == Last(out)
  {
    hide Merge, First, Last, At, Forward, ForwardToEnd, Growing, Separate, Within;
    ghost var m0 := Least(qsize0, |rest|);
    ghost var end, beyond := done + Merge(run, rest[..m0], cmp), rest[m0..];
    ghost var p', q', out := run, rest, done;
    var p, psize, qsize := p0, psize0, qsize0;
    q, list, tail := q0, list0, tail0;
    FirstOf(run);
    assert Merging(out, p', q', qsize, cmp, end, beyond, all);
    hide Merging;
    while psize != 0 || (qsize != 0 && q != null)
      invariant psize == |p'| && (p' != [] ==> p == p'[0]) && q == First(q') && list == First(out) && tail == Last(out)
      invariant Forward(p') && ForwardToEnd(q') && Growing(out) && Merging(out, p', q', qsize, cmp, end, beyond, all)
      decreases psize + |q'|
    {
      var e: Entry;
      FirstOf(p');
      FirstOf(q');
      ForwardTails(p', q');
      ghost var qsize' := qsize;
      if psize == 0 {
        e := q;
        q := q.next;
        qsize := qsize - 1;
      } else if qsize == 0 || q == null {
        e := p;
        p := p.next;
        psize := psize - 1;
      } else if cmp(p, q) <= 0 {
        e := p;
        p := p.next;
        psize := psize - 1;
      } else {
        e := q;
        q := q.next;
        qsize := qsize - 1;
      }
      if psize < |p'| {
        TakingP(out, p', q', qsize', cmp, end, beyond, all);
        p' := p'[1..];
      } else {
        TakingQ(out, p', q', qsize', cmp, end, beyond, all);
        q' := q'[1..];
      }
      list := Take(list, tail, e, out, p', q', qsize, cmp, end, beyond, all);
      tail := e;
      out := out + [e];
    }
    FirstOf(q');
    MergingEnds(out, p', q', qsize, cmp, end, beyond, all);
  }

  lemma WithinMoved(out: seq<Entry>, p: seq<Entry>, all: seq<Entry>)
    requires p != [] && Within(out, all) && Within(p, all)
    ensures Within(out + [p[0]], all) && Within(p[1..], all)
  {
  }

  lemma FirstOf(s: seq<Entry>)
    ensures First(s) == null <==> s == []
    ensures s != [] ==> First(s) == s[0]
  {
  }

  lemma ForwardTails(p: seq<Entry>, q: seq<Entry>)
    requires Forward(p) && ForwardToEnd(q)
    ensures p != [] ==> Forward(p[1..]) && (p[1..] != [] ==> p[0].next == p[1..][0])
    ensures q != [] ==> ForwardToEnd(q[1..]) && q[0].next == First(q[1..])
  {
    if p != [] {
      ForwardTail(p);
    }
    if q != [] {
      ForwardTail(q);
    }
  }

  // ---------- one pass over the list ----------

  /** The for loop that steps q over at most insize items. */
  method StepOver(p: Entry, insize: nat, ghost s: seq<Entry>) returns (psize: nat, q: Entry?)
    requires s != [] && p == s[0] && ForwardToEnd(s) && insize > 0
    ensures psize == Least(insize, |s|) && q == First(s[psize..])
  {
    q := p;
    psize := 0;
    var i := 0;
    while i < insize
      invariant i == psize <= insize && psize < |s| && q == s[psize]
    {
      assert psize < |s| - 1 ==> s[psize].next == s[psize + 1];
      psize := psize + 1;
      q := q.next;
      if q == null {
        break;
      }
      i := i + 1;
    }
    assert psize < |s| ==> s[psize..][0] == s[psize];
  }

  lemma RunSlices(s: seq<Entry>, n: nat)
    ensures var psize := Least(n, |s|);
            var rest := s[psize..];
            var m := Least(n, |rest|);
            && rest[m..] == s[Least(2 * n, |s|)..]
            && (|s| <= n ==> s[..psize] == s && rest[..m] == [] && rest[m..] == [])
            && (n < |s| <= 2 * n ==> rest[..m] == s[n..] && rest[m..] == [])
            && (2 * n < |s| ==> rest[..m] == s[n..2 * n] && rest[m..] == s[2 * n..])
  {
  }

  lemma PassCases(s: seq<Entry>, n: nat, cmp: (Entry, Entry) -> int)
    requires n > 0
    ensures |s| <= n ==> Pass(s, n, cmp) == s
    ensures n < |s| <= 2 * n ==> Pass(s, n, cmp) == Merge(s[..n], s[n..], cmp)
    ensures 2 * n < |s| ==> Pass(s, n, cmp) == Merge(s[..n], s[n..2 * n], cmp) + Pass(s[2 * n..], n, cmp)
    ensures Pass<Entry>([], n, cmp) == []
  {
    hide Merge;
  }

  lemma PassStep(s: seq<Entry>, n: nat, cmp: (Entry, Entry) -> int)
    requires n > 0 && s != []
    ensures var psize := Least(n, |s|);
            var rest := s[psize..];
            var m := Least(n, |rest|);
            Pass(s, n, cmp) == Merge(s[..psize], rest[..m], cmp) + Pass(rest[m..], n, cmp)
            && rest[m..] == s[Least(2 * n, |s|)..]
  {
    hide Merge, Pass;
    RunSlices(s, n);
    PassCases(s, n, cmp);
    MergeNothing(s, cmp);
  }

  lemma MergeNothing(s: seq<Entry>, cmp: (Entry, Entry) -> int)
    ensures Merge(s, [], cmp) == s
  {
  }

  /** Merging moves items from the runs to the output and repeats none. */
  lemma SeparateMerged(done: seq<Entry>, run: seq<Entry>, rest: seq<Entry>, m: nat, cmp: (Entry, Entry) -> int)
    requires Separate(done, run, rest) && m <= |rest|
    ensures Separate(done + Merge(run, rest[..m], cmp), [], rest[m..])
  {
    hide Merge;
    var both := Merge(run, rest[..m], cmp);
    MergePermutes(run, rest[..m], cmp);
    assert multiset(run + rest[..m]) == multiset(run) + multiset(rest[..m]);
    DistinctJoin(run, rest[..m]);
    PermutationDistinct(run + rest[..m], both);
    forall x | x in both ensures x in run || x in rest[..m] {
      MergeHas(run, rest[..m], cmp, x);
    }
    assert forall x :: x in rest[m..] ==> x in rest && x !in rest[..m];
    DistinctJoin(done, both);
  }

  lemma DistinctJoin(a: seq<Entry>, b: seq<Entry>)
    requires Distinct(a) && Distinct(b) && Apart(a, b)
    ensures Distinct(a + b)
  {
    var c := a + b;
    forall i, j | 0 <= i < j < |c| ensures c[i] != c[j] {
      if i < |a| <= j {
        assert c[i] in a && c[j] in b;
      }
    }
  }

  lemma WithinMerged(done: seq<Entry>, run: seq<Entry>, rest: seq<Entry>, m: nat, cmp: (Entry, Entry) -> int,
                     all: seq<Entry>)
    requires Within(done, all) && Within(run, all) && Within(rest, all) && m <= |rest|
    ensures Within(done + Merge(run, rest[..m], cmp), all) && Within(rest[m..], all)
  {
    hide Merge;
    var both := Merge(run, rest[..m], cmp);
    forall i | 0 <= i < |both| ensures both[i] in all {
      MergeHas(run, rest[..m], cmp, both[i]);
    }
  }

  /** A run cut off the list. */
  lemma CutRun(done: seq<Entry>, s: seq<Entry>, k: nat, all: seq<Entry>)
    requires Separate(done, [], s) && ForwardToEnd(s) && Within(s, all) && k <= |s|
    ensures Separate(done, s[..k], s[k..]) && Forward(s[..k]) && ForwardToEnd(s[k..])
    ensures Within(s[..k], all) && Within(s[k..], all)
  {
  }

  /** What MergeRuns leaves, given the runs StepOver finds. */
  lemma RunsOf(done: seq<Entry>, s: seq<Entry>, n: nat, cmp: (Entry, Entry) -> int, all: seq<Entry>)
    requires n > 0 && s != [] && ForwardToEnd(s) && Separate(done, [], s) && Within(done, all) && Within(s, all)
    ensures var psize := Least(n, |s|);
            var run, rest := s[..psize], s[psize..];
            var m := Least(n, |rest|);
            var done' := done + Merge(run, rest[..m], cmp);
            && run != [] && run[0] == s[0] && Separate(done, run, rest) && Forward(run) && ForwardToEnd(rest)
            && Within(run, all) && Within(rest, all) && rest[m..] == s[Least(2 * n, |s|)..]
            && Separate(done', [], rest[m..]) && Within(done', all) && Within(rest[m..], all)
            && done' + Pass(rest[m..], n, cmp) == done + Pass(s, n, cmp)
  {
    hide Merge, Pass, Forward, ForwardToEnd, Separate, Within;
    var psize := Least(n, |s|);
    var run, rest := s[..psize], s[psize..];
    var m := Least(n, |rest|);
    CutRun(done, s, psize, all);
    PassStep(s, n, cmp);
    SeparateMerged(done, run, rest, m, cmp);
    WithinMerged(done, run, rest, m, cmp, all);
  }

  /** The body of the pass loop: two runs merged. */
  method MergeNext(p: Entry, insize: nat, list0: Entry?, tail0: Entry?, cmp: (Entry, Entry) -> int,
                   ghost done: seq<Entry>, ghost s: seq<Entry>, ghost all: seq<Entry>)
    returns (q: Entry?, list: Entry?, tail: Entry?, ghost done': seq<Entry>)
    requires insize > 0 && s != [] && p == s[0] && ForwardToEnd(s) && Separate(done, [], s)
    requires Growing(done) && list0 == First(done) && tail0 == Last(done) && Within(done, all) && Within(s, all)
    modifies all`next, all`prev
    ensures var s' := s[Least(2 * insize, |s|)..];
            && q == First(s') && ForwardToEnd(s') && Separate(done', [], s') && Within(done', all) && Within(s', all)
            && done' + Pass(s', insize, cmp) == done + Pass(s, insize, cmp)
            && Growing(done') && list == First(done') && tail == Last(done')
  {
    hide Merge, Pass, First, Last, At, Forward, ForwardToEnd, Growing, Separate, Within;
    var psize;
    psize, q := StepOver(p, insize, s);
    RunsOf(done, s, insize, cmp, all);
    ghost var run, rest := s[..psize], s[psize..];
    FirstOf(run);
    done' := done + Merge(run, rest[..Least(insize, |rest|)], cmp);
    q, list, tail := MergeRuns(p, q, psize, insize, list0, tail0, cmp, run, rest, done, all);
  }

  method OnePass(list0: Entry?, insize: nat, cmp: (Entry, Entry) -> int, ghost s: seq<Entry>)
    returns (list: Entry?, tail: Entry?, nmerges: nat)
    requires s != [] && insize > 0 && AppLinked(s) && list0 == First(s)
    modifies s`next, s`prev
    ensures AppLinked(Pass(s, insize, cmp)) && list == First(Pass(s, insize, cmp)) && tail == Last(Pass(s, insize, cmp))
    ensures nmerges <= 1 <==> |s| <= 2 * insize
  {
    hide Merge, Pass, First, Last, At, Forward, ForwardToEnd, Growing, Separate, Within, AppLinked;
    var p := list0;
    list, tail, nmerges := null, null, 0;
    ghost var done, s' := [], s;
    StartPass(s);
    while p != null
      invariant p == First(s') && ForwardToEnd(s') && Separate(done, [], s') && Within(done, s) && Within(s', s)
      invariant done + Pass(s', insize, cmp) == Pass(s, insize, cmp)
      invariant Growing(done) && list == First(done) && tail == Last(done)
      invariant nmerges == 0 ==> s' == s
      invariant nmerges == 1 ==> s' == s[Least(2 * insize, |s|)..]
      invariant nmerges >= 2 ==> |s| > 2 * insize
      decreases |s'|
    {
      FirstOf(s');
      p, list, tail, done := MergeNext(p, insize, list, tail, cmp, done, s', s);
      s' := s'[Least(2 * insize, |s'|)..];
      nmerges := nmerges + 1;
    }
    FirstOf(s');
    EndPass(done, insize, cmp);
    CloseList(tail, done, s);
  }

  method CloseList(tail: Entry?, ghost done: seq<Entry>, ghost s: seq<Entry>)
    requires Growing(done) && Separate(done, [], []) && tail == Last(done) && Within(done, s)
    modifies s`next
    ensures AppLinked(done)
  {
    if tail != null {
      assert tail in s;
      tail.next := null;
    }
  }

  lemma StartPass(s: seq<Entry>)
    requires AppLinked(s)
    ensures ForwardToEnd(s) && Separate([], [], s) && Within([], s) && Within(s, s) && Growing([])
    ensures First([]) == null && Last([]) == null
  {
  }

  lemma EndPass(done: seq<Entry>, n: nat, cmp: (Entry, Entry) -> int)
    requires n > 0
    ensures done + Pass([], n, cmp) == done
  {
  }

  // ---------- the sort ----------

  lemma SortStep(s: seq<Entry>, n: nat, cmp: (Entry, Entry) -> int)
    requires n > 0
    ensures SortFrom(s, n, cmp) == if |s| <= 2 * n then Pass(s, n, cmp) else SortFrom(Pass(s, n, cmp), 2 * n, cmp)
  {
  }

  lemma PassWithin(s: seq<Entry>, n: nat, cmp: (Entry, Entry) -> int, all: seq<Entry>)
    requires n > 0 && Within(s, all)
    ensures Within(Pass(s, n, cmp), all)
  {
    hide Pass;
    var r := Pass(s, n, cmp);
    forall i | 0 <= i < |r| ensures r[i] in all {
      PassHas(s, n, cmp, r[i]);
    }
  }

  /** HASH_SRT on a list that is not empty. */
  method SortList(head: Entry, cmp: (Entry, Entry) -> int, ghost s: seq<Entry>) returns (list: Entry?, tail: Entry?)
    requires AppLinked(s) && s != [] && head == s[0]
    modifies s`next, s`prev
    ensures AppLinked(Sort(s, cmp)) && list == First(Sort(s, cmp)) && tail == Last(Sort(s, cmp))
  {
    hide Pass, SortFrom, First, Last, AppLinked;
    FirstOf(s);
    list, tail := head, null;
    var insize, looping := 1, true;
    ghost var t := s;
    while looping
      invariant insize > 0 && |t| == |s| && Within(t, s) && AppLinked(t) && list == First(t)
      invariant looping ==> SortFrom(t, insize, cmp) == Sort(s, cmp)
      invariant !looping ==> t == Sort(s, cmp) && tail == Last(t)
      decreases looping, |s| - insize
    {
      var nmerges;
      SortStep(t, insize, cmp);
      PassWithin(t, insize, cmp, s);
      list, tail, nmerges := OnePass(list, insize, cmp, t);
      t := Pass(t, insize, cmp);
      if nmerges <= 1 {
        looping := false;
      }
      insize := insize * 2;
    }
  }
}
