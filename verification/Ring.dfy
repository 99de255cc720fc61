/** The ring of src/queue.c, called by one thread at a time. */
module Ring {
  import opened Bits

  /** queue_position, for a ring of 2^k slots. */
  function Position(p: nat, k: nat): nat
  {
    And(p, Pow2(k) - 1)
  }

  /** The mask wraps the one index that can leave the ring. */
  lemma PositionWraps(p: nat, k: nat)
    requires p <= Pow2(k)
    ensures Position(p, k) == if p < Pow2(k) then p else 0
  {
    AndMask(p, k);
    LowSmall(p, k);
  }

  function Wrap(i: nat, size: nat): nat
    requires i < 2 * size
    ensures Wrap(i, size) < size
  {
    if i < size then i else i - size
  }

  /** The ring starting at head holds q, and tail is the slot after it. */
  ghost predicate Holds<T>(data: seq<T>, head: nat, tail: nat, q: seq<T>)
  {
    && head < |data| && |q| < |data| && tail == Wrap(head + |q|, |data|)
    && forall i :: 0 <= i < |q| ==> data[Wrap(head + i, |data|)] == q[i]
  }

  lemma HoldsPushed<T>(data: seq<T>, head: nat, tail: nat, q: seq<T>, v: T, k: nat)
    requires Holds(data, head, tail, q) && |data| == Pow2(k) && |q| + 1 < |data|
    ensures Holds(data[tail := v], head, tail, q)
    ensures Holds(data[tail := v], head, Position(tail + 1, k), q + [v])
  {
    PositionWraps(tail + 1, k);
  }

  lemma HoldsPopped<T>(data: seq<T>, head: nat, tail: nat, q: seq<T>, k: nat)
    requires Holds(data, head, tail, q) && |data| == Pow2(k) && q != []
    ensures data[head] == q[0] && Holds(data, Position(head + 1, k), tail, q[1..])
  {
    PositionWraps(head + 1, k);
    var head' := Position(head + 1, k);
    forall i | 0 <= i < |q[1..]| ensures data[Wrap(head' + i, |data|)] == q[1..][i] {
      assert Wrap(head' + i, |data|) == Wrap(head + (i + 1), |data|);
    }
  }

  /** The two tests of queue_push_open and queue_pop_open: full and empty. */
  lemma FullAndEmpty<T>(data: seq<T>, head: nat, tail: nat, q: seq<T>, k: nat)
    requires Holds(data, head, tail, q) && |data| == Pow2(k)
    ensures Position(tail + 1, k) == head <==> |q| == |data| - 1
    ensures head == tail <==> q == []
  {
    PositionWraps(tail + 1, k);
  }

  class Queue<T(0)> {
    const k: nat
    var head: int
    var tail: int
    const data: array<T>
    ghost var contents: seq<T>

    ghost predicate Valid()
      reads this, data
    {
      data.Length == Pow2(k) && 0 <= head && 0 <= tail && Holds(data[..], head, tail, contents)
    }

    /** queue_new: the size is a power of two. */
    constructor (k: nat)
      ensures Valid() && contents == [] && this.k == k && fresh(data)
    {
      this.k, head, tail, contents := k, 0, 0, [];
      data := new T[Pow2(k)];
    }

    /** queue_push_ptr; true means the ring was full. */
    method PushPtr(v: T) returns (full: bool)
      requires Valid()
      modifies this, data
      ensures Valid()
      ensures full == (|old(contents)| == Pow2(k) - 1)
      ensures contents == if full then old(contents) else old(contents) + [v]
    {
      var t := tail;
      FullAndEmpty(data[..], head, t, contents, k);
      if Position(t + 1, k) == head {
        return true;
      }
      HoldsPushed(data[..], head, t, contents, v, k);
      data[t] := v;
      assert data[..] == old(data[..])[t := v];
      tail := Position(t + 1, k);
      contents := contents + [v];
      return false;
    }

    /** queue_pop_ptr; None is the null it returns when the ring is empty. */
    method PopPtr() returns (r: Option<T>)
      requires Valid()
      modifies this, data
      ensures Valid()
      ensures if old(contents) == [] then r == None && contents == []
              else r == Some(old(contents)[0]) && contents == old(contents)[1..]
    {
      var h := head;
      FullAndEmpty(data[..], h, tail, contents, k);
      if h == tail {
        return None;
      }
      HoldsPopped(data[..], h, tail, contents, k);
      r := Some(data[h]);
      head := Position(h + 1, k);
      contents := contents[1..];
    }

    /** queue_length */
    method Length() returns (n: int)
      requires Valid()
      ensures n == |contents|
    {
      n := tail - head;
      if n < 0 {
        n := n + data.Length;
      }
    }
  }
}
