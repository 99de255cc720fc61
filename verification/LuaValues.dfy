/** Lua values, tables and heaps as the serializer meets them, and the table store of the reader. */
module LuaValues {
  import opened Bits

  const TWO_52 := 0x10_0000_0000_0000
  const TWO_53 := 0x20_0000_0000_0000
  const TWO_31 := 0x8000_0000
  const TWO_32 := 0x1_0000_0000
  const TWO_63 := 0x8000_0000_0000_0000
  const TWO_64 := 0x1_0000_0000_0000_0000

  /** Eight bytes: a double in IEEE 754 binary64 form, or a pointer. */
  type Word = w: int | 0 <= w < 0x1_0000_0000_0000_0000

  /** Unsupported stands for everything pack_one refuses: closures, full userdata, threads. */
  datatype Value =
    | Nil
    | Boolean(b: bool)
    | Number(bits: Word)
    | Str(chars: seq<byte>)
    | Pointer(address: Word)
    | CFunction(address: Word)
    | Table(id: nat)
    | Unsupported(token: nat)

  // ---------- doubles ----------

  function Exponent(d: Word): nat { (d / TWO_52) % 2048 }

  function Mantissa(d: Word): nat { d % TWO_52 }

  predicate IsNaN(d: Word) { Exponent(d) == 2047 && Mantissa(d) != 0 }

  const MINUS_ZERO: Word := 0x8000_0000_0000_0000

  function Halve(n: nat, times: nat): nat
    decreases times
  {
    if times == 0 then n else Halve(n, times - 1) / 2
  }

  function Twice(n: nat, times: nat): nat
    decreases times
  {
    if times == 0 then n else Twice(2 * n, times - 1)
  }

  /** lua_tointeger on a number: truncation toward zero. C leaves values of 2^63 and beyond, infinities and
      NaNs undefined; x86-64 turns them into the least 64-bit integer. */
  function ToInteger(d: Word): int
  {
    var e := Exponent(d);
    if e >= 1086 then -TWO_63
    else if e == 0 then 0
    else
      var m := TWO_52 + Mantissa(d);
      var magnitude := if e <= 1075 then Halve(m, 1075 - e) else Twice(m, e - 1075);
      if d >= TWO_63 then -magnitude else magnitude
  }

  lemma Pow2Of52()
    ensures Pow2(52) == TWO_52
  {
    assert Pow2(10) == 0x400;
    assert Pow2(20) == 0x10_0000;
    assert Pow2(30) == 0x4000_0000;
    assert Pow2(40) == 0x100_0000_0000;
  }

  /** n shifted left until its leading bit is bit 52, after j shifts already made. */
  function ShiftUp(n: nat, j: nat): (r: (nat, nat))
    requires j <= 52 && Pow2(j) <= n < TWO_53
    ensures TWO_52 <= r.0 < TWO_53 && j <= r.1 <= 52
    ensures Halve(r.0, r.1 - j) == n
    decreases 52 - j
  {
    if n >= TWO_52 then (n, j)
    else
      assert j != 52 by { Pow2Of52(); }
      ShiftUp(2 * n, j + 1)
  }

  /** n shifted right to 53 bits, rounding to nearest, ties to even; sticky says a non-zero bit was dropped. */
  function ShiftDown(n: nat, j: nat, sticky: bool): (r: (nat, nat))
    requires n >= TWO_53
    ensures TWO_52 <= r.0 <= TWO_53 && r.1 > j
    decreases n
  {
    if n < 2 * TWO_53 then
      var half := n / 2;
      (if n % 2 == 1 && (sticky || half % 2 == 1) then half + 1 else half, j + 1)
    else ShiftDown(n / 2, j + 1, sticky || n % 2 == 1)
  }

  function OfMagnitude(n: nat): nat
  {
    if n == 0 then 0
    else if n < TWO_53 then
      var (m, j) := ShiftUp(n, 0);
      (1075 - j) * TWO_52 + (m - TWO_52)
    else
      var (m, j) := ShiftDown(n, 0, false);
      (1075 + j) * TWO_52 + (m - TWO_52)
  }

  /** The double lua_pushinteger and lua_rawseti make of an integer; only 64-bit integers are ever passed. */
  function OfInteger(i: int): Word
  {
    if i < 0 then (TWO_63 + OfMagnitude(-i)) % TWO_64 else OfMagnitude(i) % TWO_64
  }

  /** A double whose exponent says that j bits of its mantissa are a fraction. */
  lemma ToIntegerOfParts(m: nat, j: nat, d: Word)
    requires TWO_52 <= m < TWO_53 && j <= 52 && d == (1075 - j) * TWO_52 + (m - TWO_52)
    ensures Exponent(d) == 1075 - j && ToInteger(d) == Halve(m, j)
  {
    hide Halve, Twice;
    assert d / TWO_52 == 1075 - j && d % TWO_52 == m - TWO_52;
  }

  /** Every array index survives the trip through a double, so distinct indices are distinct keys. */
  lemma ToIntegerOfIndex(i: nat)
    requires 0 < i < TWO_31
    ensures ToInteger(OfInteger(i)) == i
    ensures !IsNaN(OfInteger(i)) && OfInteger(i) != MINUS_ZERO
  {
    hide ToInteger, Halve, ShiftUp;
    var (m, j) := ShiftUp(i, 0);
    var d := (1075 - j) * TWO_52 + (m - TWO_52);
    assert OfInteger(i) == d;
    ToIntegerOfParts(m, j, d);
  }

  // ---------- tables ----------

  /** A table: a border as the length operator may report it, and its entries in the order lua_next yields them.
      Any order and any border are allowed. */
  datatype TableObj = TableObj(border: nat, pairs: seq<(Value, Value)>)

  type LuaHeap = map<nat, TableObj>

  function RawGet(pairs: seq<(Value, Value)>, k: Value): Value
  {
    if pairs == [] then Nil else if pairs[0].0 == k then pairs[0].1 else RawGet(pairs[1..], k)
  }

  function IndexKey(i: int): Value { Number(OfInteger(i)) }

  predicate ValidValue(h: LuaHeap, v: Value) { v.Table? ==> v.id in h }

  /** What Lua itself never stores as a key: nil, NaN, and minus zero, which it turns into zero. */
  predicate ValidKey(k: Value) { !k.Nil? && (k.Number? ==> !IsNaN(k.bits) && k.bits != MINUS_ZERO) }

  ghost predicate DistinctKeys(pairs: seq<(Value, Value)>)
  {
    forall i, j :: 0 <= i < j < |pairs| ==> pairs[i].0 != pairs[j].0
  }

  ghost predicate ValidPairs(h: LuaHeap, pairs: seq<(Value, Value)>)
  {
    && DistinctKeys(pairs)
    && forall i :: 0 <= i < |pairs| ==>
         ValidKey(pairs[i].0) && !pairs[i].1.Nil? && ValidValue(h, pairs[i].0) && ValidValue(h, pairs[i].1)
  }

  /** What Lua guarantees of its heap: references lead to tables, keys are distinct and legal, sizes fit an int. */
  ghost predicate ValidHeap(h: LuaHeap)
  {
    forall id :: id in h ==> h[id].border < TWO_31 && ValidPairs(h, h[id].pairs)
  }

  ghost predicate ValidValues(h: LuaHeap, vs: seq<Value>)
  {
    forall i :: 0 <= i < |vs| ==> ValidValue(h, vs[i])
  }

  lemma {:induction false} RawGetValid(h: LuaHeap, pairs: seq<(Value, Value)>, k: Value)
    requires ValidPairs(h, pairs)
    ensures ValidValue(h, RawGet(pairs, k))
    ensures !RawGet(pairs, k).Nil? ==> (k, RawGet(pairs, k)) in pairs
    ensures forall i :: 0 <= i < |pairs| && pairs[i].0 == k ==> pairs[i].1 == RawGet(pairs, k)
  {
    if pairs != [] && pairs[0].0 != k {
      RawGetValid(h, pairs[1..], k);
    }
  }

  // ---------- stores made by the reader ----------

  /** The entries of a table being built. */
  type Entries = map<Value, Value>

  /** lua_rawset and lua_rawseti: minus zero is the key zero, and storing nil removes the entry. */
  function RawSet(m: Entries, k: Value, v: Value): Entries
  {
    var key := if k == Number(MINUS_ZERO) then Number(0) else k;
    if v.Nil? then m - {key} else m[key := v]
  }
}
