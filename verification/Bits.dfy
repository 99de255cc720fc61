/** Bytes, powers of two, bit masks and little-endian integers: what the other modules share. */
module Bits {

  type byte = b: int | 0 <= b < 256

  datatype Option<+T> = None | Some(value: T)

  // ---------- sequences ----------

  lemma ConcatAssoc<T>(a: seq<T>, b: seq<T>, c: seq<T>)
    ensures a + b + c == a + (b + c)
  {
  }

  lemma TakeNext<T>(s: seq<T>, i: nat)
    requires i < |s|
    ensures s[..i + 1] == s[..i] + [s[i]]
  {
  }

  lemma TakeAll<T>(s: seq<T>)
    ensures s[..|s|] == s
  {
  }

  lemma SliceJoin<T>(s: seq<T>, i: nat, j: nat)
    requires i <= j <= |s|
    ensures s[..i] + s[i..j] == s[..j]
  {
  }

  lemma PrefixTransitive<T>(a: seq<T>, b: seq<T>, c: seq<T>)
    requires a <= b <= c
    ensures a <= c
  {
  }

  lemma SnocSplit<T>(a: seq<T>)
    requires a != []
    ensures a == a[..|a| - 1] + [a[|a| - 1]]
  {
  }

  // ---------- powers of two and masks ----------

  function Pow2(k: nat): (p: nat)
    ensures p > 0
  {
    if k == 0 then 1 else 2 * Pow2(k - 1)
  }

  /** The bitwise and of two unsigned integers. */
  function And(a: nat, b: nat): nat
  {
    if a == 0 || b == 0 then 0 else (a % 2) * (b % 2) + 2 * And(a / 2, b / 2)
  }

  /** The k low-order bits of p: what is left of p after masking with 2^k - 1. */
  function Low(p: nat, k: nat): (r: nat)
    ensures r < Pow2(k)
  {
    if k == 0 then 0 else p % 2 + 2 * Low(p / 2, k - 1)
  }

  lemma {:induction false} AndMask(p: nat, k: nat)
    ensures And(p, Pow2(k) - 1) == Low(p, k)
  {
    if k != 0 {
      var m := Pow2(k - 1);
      assert (2 * m - 1) / 2 == m - 1 && (2 * m - 1) % 2 == 1;
      AndMask(p / 2, k - 1);
      if p == 0 {
        LowSmall(0, k);
      }
    }
  }

  /** The k low-order bits are the remainder by 2^k. */
  lemma {:induction false} LowIsRemainder(p: nat, k: nat)
    ensures Low(p, k) == p % Pow2(k) && And(p, Pow2(k) - 1) == p % Pow2(k)
  {
    AndMask(p, k);
    if k != 0 {
      LowIsRemainder(p / 2, k - 1);
      HalfRemainder(p, Pow2(k - 1));
    }
  }

  lemma HalfRemainder(p: nat, m: nat)
    requires m > 0
    ensures p % (2 * m) == p % 2 + 2 * (p / 2 % m)
  {
    var h, r := p / 2, p / 2 % m;
    var q := h / m;
    assert h == q * m + r;
    assert p == q * (2 * m) + (2 * r + p % 2);
    RemainderIs(p, 2 * m, q, 2 * r + p % 2);
  }

  lemma RemainderIs(p: int, m: int, q: int, r: int)
    requires m > 0 && p == q * m + r && 0 <= r < m
    ensures p % m == r
  {
    var q' := p / m;
    assert p == q' * m + p % m;
    assert (q' - q) * m == r - p % m;
    assert q' - q >= 1 ==> (q' - q) * m >= m;
    assert q' - q <= -1 ==> (q' - q) * m <= -m;
  }

  /** Masking leaves the numbers below 2^k alone and takes 2^k itself back to zero. */
  lemma {:induction false} LowSmall(p: nat, k: nat)
    requires p <= Pow2(k)
    ensures Low(p, k) == if p < Pow2(k) then p else 0
  {
    if k != 0 {
      LowSmall(p / 2, k - 1);
    }
  }

  /** One more mask bit leaves the masked value alone or adds 2^k to it. */
  lemma {:induction false} LowSplit(p: nat, k: nat)
    ensures Low(p, k + 1) == Low(p, k) || Low(p, k + 1) == Low(p, k) + Pow2(k)
  {
    if k != 0 {
      LowSplit(p / 2, k - 1);
    }
  }

  /** The test `(x & (x-1)) == 0` of src/queue.c accepts, of the positive numbers, the powers of two. */
  lemma {:induction false} IsPow2Test(x: nat)
    requires x > 0
    ensures And(x, x - 1) == 0 <==> exists k: nat :: x == Pow2(k)
  {
    if And(x, x - 1) == 0 {
      var k := Pow2Exponent(x);
    }
    if k: nat :| x == Pow2(k) {
      Pow2Test(k);
    }
  }

  lemma {:induction false} Pow2Exponent(x: nat) returns (k: nat)
    requires x > 0 && And(x, x - 1) == 0
    ensures x == Pow2(k)
  {
    if x == 1 {
      k := 0;
    } else if x % 2 == 1 {
      assert (x - 1) / 2 == x / 2 && (x - 1) % 2 == 0;
      assert And(x, x - 1) == 2 * And(x / 2, x / 2);
      AndSelf(x / 2);
      assert false;
    } else {
      assert (x - 1) / 2 == x / 2 - 1 && (x - 1) % 2 == 1;
      assert And(x, x - 1) == 2 * And(x / 2, x / 2 - 1);
      k := Pow2Exponent(x / 2);
      k := k + 1;
    }
  }

  lemma {:induction false} Pow2Test(k: nat)
    ensures And(Pow2(k), Pow2(k) - 1) == 0
  {
    if k > 0 {
      var m := Pow2(k - 1);
      assert (2 * m - 1) / 2 == m - 1 && (2 * m) / 2 == m && (2 * m) % 2 == 0;
      Pow2Test(k - 1);
    }
  }

  lemma AndSelf(a: nat)
    ensures And(a, a) == a
  {
  }

  // ---------- little-endian integers ----------

  function Pow256(n: nat): (p: nat)
    ensures p > 0
  {
    if n == 0 then 1 else 256 * Pow256(n - 1)
  }

  /** The n low-order bytes of x, least significant first. */
  function LE(x: nat, n: nat): (s: seq<byte>)
    ensures |s| == n
  {
    if n == 0 then [] else [x % 256] + LE(x / 256, n - 1)
  }

  function UnLE(s: seq<byte>): nat
  {
    if s == [] then 0 else s[0] + 256 * UnLE(s[1..])
  }

  lemma {:induction false} UnLEofLE(x: nat, n: nat)
    requires x < Pow256(n)
    ensures UnLE(LE(x, n)) == x
  {
    if n > 0 {
      UnLEofLE(x / 256, n - 1);
      assert LE(x, n)[1..] == LE(x / 256, n - 1);
    }
  }

  lemma {:induction false} UnLEBound(s: seq<byte>)
    ensures UnLE(s) < Pow256(|s|)
  {
    if s != [] {
      UnLEBound(s[1..]);
    }
  }

  /** Two's complement: the unsigned w-byte image of an integer, and the signed reading of it. */
  function Unsigned(v: int, w: nat): (u: nat)
    ensures u < Pow256(w)
  {
    v % Pow256(w)
  }

  function Signed(u: nat, w: nat): int
  {
    if 2 * u < Pow256(w) then u else u - Pow256(w)
  }
}
