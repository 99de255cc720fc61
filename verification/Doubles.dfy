/** What a 64-bit pattern stands for as a number, and that the conversions to and from integers respect it. */
module Doubles {
  import opened Bits
  import opened LuaValues

  // ---------- the number a double stands for ----------

  function Scale(k: int): (s: real)
    ensures s > 0.0
  {
    if k >= 0 then Pow2(k) as real else 1.0 / Pow2(-k) as real
  }

  /** IEEE 754 binary64: a sign bit, eleven bits of exponent, 52 bits of mantissa. */
  function ValueOf(d: Word): real
  {
    var e, m := d / 0x10_0000_0000_0000 % 0x800, d % 0x10_0000_0000_0000;
    var magnitude := if e == 0 then m as real * Scale(-1074) else (0x10_0000_0000_0000 + m) as real * Scale(e - 1075);
    if d >= 0x8000_0000_0000_0000 then -magnitude else magnitude
  }

  /** Toward zero. */
  function Truncated(x: real): int
  {
    if x >= 0.0 then x.Floor else -(-x).Floor
  }

  // ---------- shifts are divisions and multiplications ----------

  lemma NextProduct(a: int, b: int, p: int)
    requires p > 0
    ensures a < b ==> (a + 1) * p <= b * p
  {
  }

  lemma QuotientIs(n: int, p: int, q: int)
    requires p > 0 && q * p <= n < (q + 1) * p
    ensures n / p == q
  {
    QuotientBounds(n, p);
    NextProduct(n / p, q, p);
    NextProduct(q, n / p, p);
  }

  lemma QuotientBounds(n: int, p: int)
    requires p > 0
    ensures n / p * p <= n < (n / p + 1) * p
  {
  }

  lemma HalfOfQuotient(n: nat, p: nat)
    requires p > 0
    ensures n / p / 2 == n / (2 * p)
  {
    var q := n / p;
    var h := q / 2;
    QuotientBounds(n, p);
    assert h * (2 * p) == 2 * h * p;
    assert 2 * h * p <= q * p && (q + 1) * p <= (2 * h + 2) * p;
    assert (2 * h + 2) * p == (h + 1) * (2 * p);
    QuotientIs(n, 2 * p, h);
  }

  lemma {:induction false} HalveDivides(n: nat, k: nat)
    ensures Halve(n, k) == n / Pow2(k)
  {
    if k > 0 {
      HalveDivides(n, k - 1);
      HalfOfQuotient(n, Pow2(k - 1));
    }
  }

  lemma TimesPow2(n: nat, k: nat)
    ensures 2 * n * Pow2(k) == n * Pow2(k + 1)
  {
    assert Pow2(k + 1) == 2 * Pow2(k);
  }

  lemma {:induction false} TwiceMultiplies(n: nat, k: nat)
    ensures Twice(n, k) == n * Pow2(k)
    decreases k
  {
    if k > 0 {
      TwiceMultiplies(2 * n, k - 1);
      TimesPow2(n, k - 1);
    }
  }

  lemma FloorOfQuotient(n: nat, p: nat)
    requires p > 0
    ensures (n as real * (1.0 / p as real)).Floor == n / p
  {
    var q, x, y := n / p, n as real, p as real;
    QuotientBounds(n, p);
    QuotientInReals(x, y, q as real);
    assert (q * p) as real == q as real * y && ((q + 1) * p) as real == (q as real + 1.0) * y;
  }

  lemma QuotientInReals(x: real, y: real, q: real)
    requires y > 0.0
    ensures q * y <= x ==> q <= x * (1.0 / y)
    ensures x < (q + 1.0) * y ==> x * (1.0 / y) < q + 1.0
  {
    var z := x * (1.0 / y);
    assert z * y == x;
    if z < q {
      assert z * y < q * y;
    }
    if z >= q + 1.0 {
      assert z * y >= (q + 1.0) * y;
    }
  }

  lemma {:induction false} Pow2Grows(a: nat, b: nat)
    requires a <= b
    ensures Pow2(a) <= Pow2(b)
    decreases b
  {
    if a < b {
      Pow2Grows(a, b - 1);
    }
  }

  // ---------- lua_tointeger truncates ----------

  /** Without its sign. */
  function MagnitudeOf(e: nat, m: nat): real
  {
    if e == 0 then m as real * Scale(-1074) else (TWO_52 + m) as real * Scale(e - 1075)
  }

  lemma BelowOne(m: nat)
    requires m < TWO_52
    ensures 0.0 <= MagnitudeOf(0, m) < 1.0
  {
    Pow2Of52();
    Pow2Grows(52, 1074);
    QuotientInReals(m as real, Pow2(1074) as real, 0.0);
  }

  lemma ShiftedDown(e: nat, m: nat)
    requires 0 < e <= 1075 && m < TWO_52
    ensures MagnitudeOf(e, m) >= 0.0 && MagnitudeOf(e, m).Floor == Halve(TWO_52 + m, 1075 - e)
  {
    hide Halve, Pow2;
    HalveDivides(TWO_52 + m, 1075 - e);
    FloorOfQuotient(TWO_52 + m, Pow2(1075 - e));
    if e == 1075 {
      assert Pow2(0) == 1 by { ZeroShift(); }
    }
  }

  lemma ZeroShift()
    ensures Pow2(0) == 1
  {
  }

  lemma ShiftedUp(e: nat, m: nat)
    requires 1075 < e
    ensures MagnitudeOf(e, m) >= 0.0 && MagnitudeOf(e, m) == Twice(TWO_52 + m, e - 1075) as real
  {
    hide Twice, Pow2;
    TwiceMultiplies(TWO_52 + m, e - 1075);
  }

  /** Of either sign, below 2^63 in magnitude; beyond, the least 64-bit integer. */
  lemma ToIntegerTruncates(d: Word)
    ensures ToInteger(d) == if d / 0x10_0000_0000_0000 % 0x800 < 1086 then Truncated(ValueOf(d))
                            else -0x8000_0000_0000_0000
  {
    hide Halve, Twice, Scale;
    var e, m := Exponent(d), Mantissa(d);
    assert ValueOf(d) == if d >= TWO_63 then -MagnitudeOf(e, m) else MagnitudeOf(e, m);
    if e == 0 {
      BelowOne(m);
    } else if e <= 1075 {
      ShiftedDown(e, m);
    } else if e < 1086 {
      ShiftedUp(e, m);
    }
  }

  // ---------- lua_pushinteger rounds to nearest, ties to even ----------

  lemma {:induction false} ShiftUpScales(n: nat, j: nat)
    requires j <= 52 && Pow2(j) <= n < TWO_53
    ensures ShiftUp(n, j).0 == n * Pow2(ShiftUp(n, j).1 - j)
    decreases 52 - j
  {
    if n >= TWO_52 {
      ZeroShift();
    } else if j == 52 {
      Pow2Of52();
    } else {
      ShiftUpScales(2 * n, j + 1);
      hide Pow2;
      var r := ShiftUp(2 * n, j + 1);
      TimesPow2(n, r.1 - (j + 1));
    }
  }

  /** m * 2^k as a double, also where m has been rounded up to 2^53. */
  lemma ValueOfParts(m: nat, k: int, d: Word)
    requires TWO_52 <= m <= TWO_53 && -52 <= k <= 12 && d == (1075 + k) * TWO_52 + (m - TWO_52)
    ensures ValueOf(d) == m as real * Scale(k) && d < TWO_63
    ensures ValueOf(d + TWO_63) == -(m as real * Scale(k))
    ensures Exponent(d) <= 1076 + k && Exponent(d + TWO_63) <= 1076 + k
  {
    hide Scale;
    FieldsOfParts(m, k, d);
    if m == TWO_53 {
      ScaleStep(k);
    }
  }

  lemma FieldsOfParts(m: nat, k: int, d: Word)
    requires TWO_52 <= m <= TWO_53 && -52 <= k <= 12 && d == (1075 + k) * TWO_52 + (m - TWO_52)
    ensures d < TWO_63
    ensures var e, f := if m == TWO_53 then 1076 + k else 1075 + k, if m == TWO_53 then 0 else m - TWO_52;
            Exponent(d) == Exponent(d + TWO_63) == e && Mantissa(d) == Mantissa(d + TWO_63) == f
  {
  }

  lemma ScaleStep(k: int)
    ensures Scale(k + 1) == 2.0 * Scale(k)
  {
    if k < 0 {
      assert Pow2(-k) == 2 * Pow2(-(k + 1));
    }
  }

  /** n / 2^k to the nearest integer, ties to even; `sticky` adds a little something to n. */
  function Nearest(n: int, k: nat, sticky: bool): int
    requires k > 0
  {
    RoundedUp(n / Pow2(k), n % Pow2(k), Pow2(k - 1), sticky)
  }

  function RoundedUp(q: int, low: int, half: int, sticky: bool): int
  {
    if low > half || (low == half && (sticky || q % 2 == 1)) then q + 1 else q
  }

  lemma LowBits(n: nat, p: nat)
    requires p > 0
    ensures n / (2 * p) == n / 2 / p && n % (2 * p) == 2 * (n / 2 % p) + n % 2
  {
    var h := n / 2;
    var q := h / p;
    var r := h % p;
    assert h == q * p + r && n == 2 * h + n % 2;
    assert n == q * (2 * p) + (2 * r + n % 2);
    assert (q + 1) * (2 * p) == q * (2 * p) + 2 * p;
    QuotientIs(n, 2 * p, q);
  }

  lemma {:induction false} ShiftDownRounds(n: nat, j: nat, sticky: bool)
    requires n >= TWO_53
    ensures var r := ShiftDown(n, j, sticky);
            && r.0 == Nearest(n, r.1 - j, sticky)
            && TWO_53 * Pow2(r.1 - j - 1) <= n < TWO_53 * Pow2(r.1 - j)
    decreases n
  {
    if n < 2 * TWO_53 {
      assert Pow2(1) == 2 && Pow2(0) == 1;
    } else {
      var s := sticky || n % 2 == 1;
      ShiftDownRounds(n / 2, j + 1, s);
      var k := ShiftDown(n / 2, j + 1, s).1 - (j + 1);
      LowBits(n, Pow2(k));
      assert Pow2(k) == 2 * Pow2(k - 1) && Pow2(k + 1) == 2 * Pow2(k);
      HalfBetween(n, Pow2(k - 1));
    }
  }

  lemma HalfBetween(n: nat, p: nat)
    requires TWO_53 * p <= n / 2 < TWO_53 * (2 * p)
    ensures TWO_53 * (2 * p) <= n < TWO_53 * (4 * p)
  {
  }

  /** q * p is one of the multiples of p nearest to n, and q is even if there are two. */
  predicate NearestMultiple(n: int, p: int, q: int)
  {
    p > 0 && -p <= 2 * (q * p - n) <= p && (2 * (q * p - n) == p || 2 * (q * p - n) == -p ==> q % 2 == 0)
  }

  lemma NearestIsNear(n: nat, k: nat)
    requires k > 0
    ensures NearestMultiple(n, Pow2(k), Nearest(n, k, false))
  {
    NextPow2(k - 1);
    hide Pow2, RoundedUp, NearestMultiple;
    QuotientAndRest(n, Pow2(k));
    RoundedQuotient(n, Pow2(k - 1), n / Pow2(k), n % Pow2(k));
  }

  lemma NextPow2(k: nat)
    ensures Pow2(k + 1) == 2 * Pow2(k)
  {
  }

  lemma QuotientAndRest(n: int, p: int)
    requires p > 0
    ensures n == n / p * p + n % p && 0 <= n % p < p
  {
  }

  lemma RoundedQuotient(n: int, half: int, q: int, low: int)
    requires half > 0 && n == q * (2 * half) + low && 0 <= low < 2 * half
    ensures NearestMultiple(n, 2 * half, RoundedUp(q, low, half, false))
  {
    assert (q + 1) * (2 * half) == q * (2 * half) + 2 * half;
  }

  /** d and its negative stand for x and -x, and their exponents are in the range of integers. */
  predicate StandsFor(d: nat, x: real)
  {
    && d < TWO_63 && ValueOf(d) == x && Exponent(d) < 1086
    && ValueOf(d + TWO_63) == -x && Exponent(d + TWO_63) < 1086
  }

  lemma OfMagnitudeSmall(n: nat)
    requires 0 < n <= TWO_53
    ensures StandsFor(OfMagnitude(n), n as real)
  {
    hide ValueOf, Exponent, ShiftUp, ShiftDown, Scale, Pow2, StandsFor, OfMagnitude;
    ZeroShift();
    if n == TWO_53 {
      ScaledTwoTo53();
      PartsStandFor(TWO_52, 1, n);
    } else {
      var (m, j) := ShiftUp(n, 0);
      ShiftUpScales(n, 0);
      ScaledBack(n, j, m);
      PartsStandFor(m, 0 - j, n);
    }
  }

  lemma PartsStandFor(m: nat, k: int, n: nat)
    requires 0 < n <= TWO_53 && TWO_52 <= m <= TWO_53 && -52 <= k <= 1 && m as real * Scale(k) == n as real
    requires Pow2(0) <= n
    requires n < TWO_53 ==> k <= 0 && ShiftUp(n, 0) == (m, -k)
    requires n == TWO_53 ==> ShiftDown(n, 0, false) == (m, k)
    ensures StandsFor(OfMagnitude(n), n as real)
  {
    hide ShiftUp, ShiftDown, Scale, Pow2, ValueOf, Exponent;
    var d := OfMagnitude(n);
    assert d == (1075 + k) * TWO_52 + (m - TWO_52);
    PartsInWord(m, k, d);
    ValueOfParts(m, k, d);
  }

  lemma PartsInWord(m: nat, k: int, d: nat)
    requires TWO_52 <= m <= TWO_53 && -52 <= k <= 1 && d == (1075 + k) * TWO_52 + (m - TWO_52)
    ensures d < TWO_63
  {
  }

  lemma ZeroIsZero()
    ensures ValueOf(0) == 0.0 && Exponent(0) == 0
  {
    hide Scale;
  }

  lemma ScaledTwoTo53()
    ensures ShiftDown(TWO_53, 0, false) == (TWO_52, 1) && TWO_52 as real * Scale(1) == TWO_53 as real
  {
    assert Pow2(0) == 1 && Pow2(1) == 2;
  }

  lemma ScaledBack(n: nat, j: nat, m: nat)
    requires m == n * Pow2(j)
    ensures m as real * Scale(0 - j) == n as real
  {
    var p := Pow2(j) as real;
    assert m as real == n as real * p;
    assert p * (1.0 / p) == 1.0;
    if j > 0 {
      assert m as real * Scale(0 - j) == n as real * (p * (1.0 / p));
    }
  }

  /** Every integer up to 2^53 in magnitude is a double, and comes back. */
  lemma OfIntegerExact(i: int)
    requires -0x20_0000_0000_0000 <= i <= 0x20_0000_0000_0000
    ensures ValueOf(OfInteger(i)) == i as real && ToInteger(OfInteger(i)) == i
  {
    hide OfMagnitude, ValueOf, ToInteger;
    ZeroIsZero();
    if i != 0 {
      OfMagnitudeSmall(if i < 0 then -i else i);
    } else {
      assert OfMagnitude(0) == 0 by { MagnitudeZero(); }
    }
    ToIntegerTruncates(OfInteger(i));
  }

  lemma MagnitudeZero()
    ensures OfMagnitude(0) == 0
  {
  }

  /** Any other 64-bit integer becomes the nearest multiple of the last of its 53 leading bits. */
  lemma OfIntegerRounds(i: int) returns (q: int, k: nat)
    requires -0x8000_0000_0000_0000 <= i < 0x8000_0000_0000_0000
    requires i < -0x20_0000_0000_0000 || 0x20_0000_0000_0000 < i
    ensures var n := if i < 0 then -i else i;
            && k > 0 && 0x10_0000_0000_0000 * Pow2(k) <= n < 0x20_0000_0000_0000 * Pow2(k)
            && NearestMultiple(n, Pow2(k), q)
            && ValueOf(OfInteger(i)) == (if i < 0 then -(q * Pow2(k)) else q * Pow2(k)) as real
  {
    hide ValueOf, ShiftDown, Nearest, NearestMultiple, Exponent, Pow2;
    var n := if i < 0 then -i else i;
    ShiftDownRounds(n, 0, false);
    q, k := ShiftDown(n, 0, false).0, ShiftDown(n, 0, false).1;
    NextPow2(k - 1);
    FewShifts(n, k);
    NearestIsNear(n, k);
    ValueOfParts(q, k, OfMagnitude(n));
    ProductInReals(q, k);
  }

  lemma FewShifts(n: nat, k: nat)
    requires k > 0 && TWO_53 * Pow2(k - 1) <= n < TWO_64
    ensures k <= 12
  {
    if k > 12 {
      Pow2Grows(12, k - 1);
      assert Pow2(4) == 16;
      assert false;
    }
  }

  lemma ProductInReals(q: int, k: nat)
    ensures q as real * Scale(k) == (q * Pow2(k)) as real && -(q as real * Scale(k)) == (-(q * Pow2(k))) as real
  {
  }

  // ---------- doubles are told apart by their values ----------

  lemma {:induction false} ScaleGrows(a: int, b: int)
    requires a <= b
    ensures Scale(a) <= Scale(b)
    decreases b - a
  {
    if a < b {
      ScaleGrows(a, b - 1);
      ScaleStep(b - 1);
    }
  }

  /** A larger exponent makes a larger number. */
  lemma LargerExponent(e: nat, m: nat, e': nat, m': nat)
    requires 0 < e < e' && m < TWO_52
    ensures MagnitudeOf(e, m) < MagnitudeOf(e', m')
  {
    hide Scale;
    var x, y := Scale(e - 1075), Scale(e' - 1075);
    ScaleStep(e - 1075);
    ScaleGrows(e - 1074, e' - 1075);
    assert (TWO_52 + m) as real < 2.0 * TWO_52 as real;
    Products((TWO_52 + m) as real, TWO_52 as real, (TWO_52 + m') as real, x, y);
  }

  lemma Products(a: real, b: real, c: real, x: real, y: real)
    requires 0.0 < a < 2.0 * b && b <= c && 0.0 < x && 2.0 * x <= y
    ensures a * x < c * y
  {
    assert a * x < 2.0 * b * x;
    assert 2.0 * b * x == b * (2.0 * x) <= b * y <= c * y;
  }

  /** Two positive doubles of which one is at least the least normal number differ in value. */
  lemma ValueInjective(d: Word, d': Word)
    requires d < TWO_63 && d' < TWO_63 && Exponent(d) > 0 && Exponent(d') > 0 && ValueOf(d) == ValueOf(d')
    ensures d == d'
  {
    hide Scale;
    var e, m, e', m' := Exponent(d), Mantissa(d), Exponent(d'), Mantissa(d');
    LargerOrEqual(e, m, e', m');
    assert d == e * TWO_52 + m && d' == e' * TWO_52 + m';
  }

  lemma LargerOrEqual(e: nat, m: nat, e': nat, m': nat)
    requires 0 < e && 0 < e' && m < TWO_52 && m' < TWO_52 && MagnitudeOf(e, m) == MagnitudeOf(e', m')
    ensures e == e' && m == m'
  {
    hide Scale;
    if e < e' {
      LargerExponent(e, m, e', m');
    } else if e' < e {
      LargerExponent(e', m', e, m);
    } else {
      var x := Scale(e - 1075);
      assert (m - m') as real * x == 0.0;
    }
  }

  // ---------- numbers between 1 and a border ----------

  predicate Whole(x: real) { x == x.Floor as real }

  lemma ScaleOf11()
    ensures Scale(11) == 2048.0
  {
    assert Pow2(4) == 16 && Pow2(8) == 256;
  }

  /** What has no integer part below 2^63 is at least as large as that. */
  lemma FarAway(d: Word)
    requires Exponent(d) >= 1086
    ensures ValueOf(d) >= TWO_63 as real || ValueOf(d) < 0.0
  {
    hide Scale;
    var e, m := Exponent(d), Mantissa(d);
    ScaleGrows(11, e - 1075);
    ScaleOf11();
    assert (TWO_52 + m) as real * Scale(e - 1075) >= TWO_52 as real * 2048.0;
  }

  /** The integer part lies in 1..border exactly when the number lies in [1, border + 1). */
  lemma IntegerPartWithin(d: Word, border: nat)
    requires border < TWO_31
    ensures 0 < ToInteger(d) <= border <==> 1.0 <= ValueOf(d) < border as real + 1.0
  {
    hide ValueOf, ToInteger;
    ToIntegerTruncates(d);
    if Exponent(d) >= 1086 {
      FarAway(d);
    }
  }

  /** It is the number itself exactly when the number is whole. */
  lemma IntegerPartIsAll(d: Word, border: nat)
    requires border < TWO_31 && 0 < ToInteger(d) <= border
    ensures d == OfInteger(ToInteger(d)) <==> Whole(ValueOf(d))
  {
    hide ValueOf, ToInteger, OfInteger;
    var i := ToInteger(d);
    IntegerPartWithin(d, border);
    ToIntegerTruncates(d);
    OfIntegerExact(i);
    PositiveNormal(d);
    PositiveNormal(OfInteger(i));
    if Whole(ValueOf(d)) {
      ValueInjective(d, OfInteger(i));
    }
  }

  lemma PositiveNormal(d: Word)
    requires ValueOf(d) >= 1.0
    ensures d < TWO_63 && Exponent(d) > 0
  {
    hide Scale;
    if Exponent(d) == 0 {
      BelowOne(Mantissa(d));
    }
  }
}
