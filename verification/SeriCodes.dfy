/** The byte format in plain numbers: what each code is on the wire, and which byte strings the reader takes. */
module SeriCodes {
  import opened Bits
  import opened LuaValues
  import opened SeriFormat
  import opened SeriWalk
  import opened SeriRead
  import opened SeriSimulation

  // ---------- little-endian ----------

  function Two(n: nat): seq<byte> { [n % 256, n / 0x100 % 256] }

  function Four(n: nat): seq<byte> { [n % 256, n / 0x100 % 256, n / 0x1_0000 % 256, n / 0x100_0000 % 256] }

  function Eight(n: nat): seq<byte>
  {
    [n % 256, n / 0x100 % 256, n / 0x1_0000 % 256, n / 0x100_0000 % 256, n / 0x1_0000_0000 % 256,
     n / 0x100_0000_0000 % 256, n / 0x1_0000_0000_0000 % 256, n / 0x100_0000_0000_0000 % 256]
  }

  lemma LittleEndian2(n: nat)
    ensures LE(n, 1) == [n % 256] && LE(n, 2) == Two(n)
  {
    LastByte(n);
    LastByte(n / 0x100);
    assert LE(n, 2) == [n % 256] + LE(n / 0x100, 1);
  }

  lemma LastByte(n: nat)
    ensures LE(n, 1) == [n % 256]
  {
    assert LE(n / 256, 0) == [];
  }

  lemma LittleEndian4(n: nat)
    ensures LE(n, 4) == Four(n)
  {
    LittleEndian2(n / 0x1_0000);
    assert n / 0x100 / 0x100 == n / 0x1_0000 && n / 0x1_0000 / 0x100 == n / 0x100_0000;
    assert LE(n / 0x100, 3) == [n / 0x100 % 256] + LE(n / 0x1_0000, 2);
    assert LE(n, 4) == [n % 256] + LE(n / 0x100, 3);
  }

  lemma LittleEndian8(n: nat)
    ensures LE(n, 8) == Eight(n)
  {
    var h := n / 0x1_0000_0000;
    LittleEndian4(h);
    HighBytes(n);
    hide Four, LE;
    LittleEndianParts(n);
    LittleEndian4(n);
    FourAndFour(n);
  }

  lemma HighBytes(n: nat)
    ensures n / 0x100 / 0x100 / 0x100 / 0x100 == n / 0x1_0000_0000
  {
    assert n / 0x100 / 0x100 == n / 0x1_0000;
    assert n / 0x1_0000 / 0x100 == n / 0x100_0000;
  }

  lemma LittleEndianParts(n: nat)
    ensures LE(n, 8) == LE(n, 4) + LE(n / 0x1_0000_0000, 4)
  {
    HighBytes(n);
    var a, b, c := n / 0x100, n / 0x100 / 0x100, n / 0x100 / 0x100 / 0x100;
    var h := LE(c / 0x100, 4);
    assert LE(c, 5) == [c % 256] + h && LE(b, 6) == [b % 256] + LE(c, 5);
    assert LE(a, 7) == [a % 256] + LE(b, 6) && LE(n, 8) == [n % 256] + LE(a, 7);
    assert LE(c, 1) == [c % 256] by { LastByte(c); }
    assert LE(b, 2) == [b % 256] + LE(c, 1) && LE(a, 3) == [a % 256] + LE(b, 2) && LE(n, 4) == [n % 256] + LE(a, 3);
  }

  lemma FourAndFour(n: nat)
    ensures Four(n) + Four(n / 0x1_0000_0000) == Eight(n)
  {
    var h := n / 0x1_0000_0000;
    assert h / 0x100 == n / 0x100_0000_0000;
    assert h / 0x1_0000 == n / 0x1_0000_0000_0000;
    assert h / 0x100_0000 == n / 0x100_0000_0000_0000;
  }

  // ---------- what is written ----------

  /** A 64-bit integer in the shortest of its forms. */
  function IntegerCode(v: int): seq<byte>
    requires -0x8000_0000_0000_0000 <= v < 0x8000_0000_0000_0000
  {
    if v == 0 then [1]
    else if 0 < v <= 0xFF then [9, v]
    else if 0x100 <= v <= 0xFFFF then [17] + Two(v)
    else if 0x1_0000 <= v <= 0x7FFF_FFFF then [33] + Four(v)
    else if -0x8000_0000 <= v < 0 then [33] + Four(v + 0x1_0000_0000)
    else if v < 0 then [49] + Eight(v + 0x1_0000_0000_0000_0000)
    else [49] + Eight(v)
  }

  /** A value that is not a table. */
  function AtomCode(v: Value): seq<byte>
    requires !v.Table? && !v.Unsupported? && (v.Str? ==> |v.chars| < 0x1_0000_0000)
  {
    match v
    case Nil => [0]
    case Boolean(b) => if b then [16] else [8]
    case Number(d) => [65] + Eight(d)
    case Pointer(p) => [2] + Eight(p)
    case CFunction(p) => [10] + Eight(p)
    case Str(s) =>
      if |s| <= 31 then [3 + 8 * |s|] + s
      else if |s| <= 0xFFFF then [20] + Two(|s|) + s
      else [36] + Four(|s|) + s
  }

  /** The tag of a table, its array size included; marked says that an extended reference leads to it. */
  function TableCode(size: nat, marked: bool): seq<byte>
    requires size < 0x8000_0000
  {
    if size <= 30 then [(if marked then 6 else 5) + 8 * size]
    else [if marked then 254 else 253] + IntegerCode(size)
  }

  lemma TwosComplement(v: int)
    ensures -TWO_31 <= v < TWO_31 ==> Unsigned(v, 4) == if v < 0 then v + TWO_32 else v
    ensures -TWO_63 <= v < TWO_63 ==> Unsigned(v, 8) == if v < 0 then v + TWO_64 else v
  {
    assert Pow256(4) == TWO_32;
    assert Pow256(8) == TWO_64;
  }

  lemma IntegerOnWire(v: int)
    requires -0x8000_0000_0000_0000 <= v < 0x8000_0000_0000_0000
    ensures IntegerBytes(v) == IntegerCode(v)
  {
    hide LE, Two, Four, Eight, Pow256, Unsigned;
    TwosComplement(v);
    LittleEndian2(if v < 0 then 0 else v);
    LittleEndian4(Unsigned(v, 4));
    LittleEndian4(if v < 0 then 0 else v);
    LittleEndian8(Unsigned(v, 8));
    if 0 < v < 0x100 {
      assert v % 256 == v;
    }
  }

  lemma AtomOnWire(v: Value)
    requires !v.Table? && !v.Unsupported? && (v.Str? ==> |v.chars| < 0x1_0000_0000)
    ensures AtomBytes(v) == AtomCode(v)
  {
    hide LE, Two, Four, Eight;
    match v
    case Number(d) => LittleEndian8(d);
    case Pointer(p) => LittleEndian8(p);
    case CFunction(p) => LittleEndian8(p);
    case Str(s) =>
      LittleEndian2(|s|);
      LittleEndian4(|s|);
    case _ =>
  }

  /** Every item the writer puts out. */
  lemma ItemOnWire(i: Item, marks: set<nat>)
    requires i.Plain? ==> !i.v.Table? && !i.v.Unsupported? && (i.v.Str? ==> |i.v.chars| < 0x1_0000_0000)
    requires i.Open? ==> i.size < 0x8000_0000
    requires i.Short? ==> i.index <= 30
    requires i.Ext? ==> i.target < 0x7FFF_FFFF
    ensures ItemBytes(i, marks) == match i
                                   case Plain(v) => AtomCode(v)
                                   case Open(num, size) => TableCode(size, num in marks)
                                   case Short(index) => [7 + 8 * index]
                                   case Ext(target) => [255] + IntegerCode(target + 1)
                                   case Fail => []
  {
    hide IntegerBytes, IntegerCode, AtomBytes, AtomCode;
    match i
    case Plain(v) => AtomOnWire(v);
    case Open(_, size) => IntegerOnWire(size);
    case Ext(target) => IntegerOnWire(target + 1);
    case _ =>
  }

  // ---------- what is taken ----------

  function Number2(s: seq<byte>): (n: nat)
    requires |s| >= 2
    ensures n < 0x1_0000
  {
    s[0] as int + 0x100 * s[1] as int
  }

  function Number4(s: seq<byte>): (n: nat)
    requires |s| >= 4
    ensures n < 0x1_0000_0000
  {
    s[0] as int + 0x100 * s[1] as int + 0x1_0000 * s[2] as int + 0x100_0000 * s[3] as int
  }

  function Number8(s: seq<byte>): (n: nat)
    requires |s| >= 8
    ensures n < 0x1_0000_0000_0000_0000
  {
    Number4(s) + 0x1_0000_0000 * Number4(s[4..])
  }

  function FromTwosComplement(n: nat, limit: nat): int { if n < limit / 2 then n else n - limit }

  /** The integers after the tags 1, 9, 17, 33 and 49: their values, and how many bytes they take. */
  function IntegerTaken(t: byte, more: seq<byte>): (r: Option<(int, nat)>)
    ensures r.Some? ==> r.value.1 <= |more|
  {
    if t == 1 then Some((0, 0))
    else if t == 9 && |more| >= 1 then Some((more[0], 1))
    else if t == 17 && |more| >= 2 then Some((Number2(more), 2))
    else if t == 33 && |more| >= 4 then Some((FromTwosComplement(Number4(more), 0x1_0000_0000), 4))
    else if t == 49 && |more| >= 8 then Some((FromTwosComplement(Number8(more), 0x1_0000_0000_0000_0000), 8))
    else None
  }

  /** What the reader makes of a tag that is neither a table's nor a reference's, and of what follows it. */
  function AtomTaken(t: byte, more: seq<byte>): Option<(Value, nat)>
  {
    if t == 0 then Some((Nil, 0))
    else if t == 8 then Some((Boolean(false), 0))
    else if t == 16 then Some((Boolean(true), 0))
    else if t == 65 && |more| >= 8 then Some((Number(Number8(more)), 8))
    else if t == 2 && |more| >= 8 then Some((Pointer(Number8(more)), 8))
    else if t == 10 && |more| >= 8 then Some((CFunction(Number8(more)), 8))
    else if t % 8 == 3 && |more| >= t / 8 then Some((Str(more[..t / 8]), t / 8))
    else if t == 20 && |more| >= 2 && |more| >= 2 + Number2(more) then
      Some((Str(more[2..2 + Number2(more)]), 2 + Number2(more)))
    else if t == 36 && |more| >= 4 && Number4(more) < 0x8000_0000 && |more| >= 4 + Number4(more) then
      Some((Str(more[4..4 + Number4(more)]), 4 + Number4(more)))
    else
      match IntegerTaken(t, more)
      case None => None
      case Some((v, n)) => Some((Number(OfInteger(v)), n))
  }

  lemma Value1(s: seq<byte>)
    requires |s| == 1
    ensures UnLE(s) == s[0]
  {
    assert UnLE(s[1..]) == 0;
  }

  lemma Value2(s: seq<byte>)
    requires |s| == 2
    ensures UnLE(s) == Number2(s)
  {
    Value1(s[1..]);
  }

  lemma Value4(s: seq<byte>)
    requires |s| == 4
    ensures UnLE(s) == Number4(s)
  {
    Value2(s[2..]);
    assert s[1..][1..] == s[2..];
    assert UnLE(s[1..]) == s[1] + 256 * UnLE(s[2..]);
  }

  lemma Value8(s: seq<byte>)
    requires |s| == 8
    ensures UnLE(s) == Number8(s)
  {
    Value4(s[4..]);
    assert s[1..][1..] == s[2..] && s[2..][1..] == s[3..] && s[3..][1..] == s[4..];
    assert UnLE(s[3..]) == s[3] + 256 * UnLE(s[4..]);
    assert UnLE(s[2..]) == s[2] + 256 * UnLE(s[3..]);
    assert UnLE(s[1..]) == s[1] + 256 * UnLE(s[2..]);
  }

  lemma IntegerIsTaken(t: byte, more: seq<byte>)
    requires t % 8 == 1 && t != 65
    ensures GetInteger(t / 8, more) == match IntegerTaken(t, more)
                                       case None => Bad
                                       case Some((v, n)) => Got(v, more[n..])
  {
    assert Pow256(4) == TWO_32;
    assert Pow256(8) == TWO_64;
    hide UnLE, Pow256;
    assert more[0..] == more;
    if t == 9 && |more| >= 1 {
      Value1(more[..1]);
    } else if t == 17 && |more| >= 2 {
      Value2(more[..2]);
    } else if t == 33 && |more| >= 4 {
      Value4(more[..4]);
    } else if t == 49 && |more| >= 8 {
      Value8(more[..8]);
      assert more[..8][4..] == more[4..8] && more[4..][..4] == more[4..8];
      SameNumber8(more);
    }
  }

  lemma SameNumber8(more: seq<byte>)
    requires |more| >= 8
    ensures Number8(more[..8]) == Number8(more)
  {
  }

  /** The reader takes exactly the byte strings above, for exactly those values, and no more of them than it says. */
  lemma AtomIsTaken(t: byte, more: seq<byte>, g: Guard, st: RState)
    requires t % 8 < 5 && |st.ancestor| == MAX_DEPTH && st.rest == [t] + more
    ensures UnpackOne(g, st) == match AtomTaken(t, more)
                                case None => Failed
                                case Some((v, n)) => Done(Push(st.(rest := more[n..]), v))
  {
    hide UnpackOne, UnpackTable, UnpackRef, GetInteger, UnLE, Number2, Number4, Number8, OfInteger, GetString;
    FirstByte(t, more, g, st);
    assert more[0..] == more;
    if t % 8 == 1 && t != 65 {
      IntegerIsTaken(t, more);
    } else if t % 8 == 3 {
      StringIsTaken(t / 8, more);
    } else if t == 20 && |more| >= 2 {
      Value2(more[..2]);
      SameNumber4(more);
      StringIsTaken(Number2(more), more[2..]);
      StringBehind(more, 2, Number2(more));
    } else if t == 36 && |more| >= 4 {
      Value4(more[..4]);
      SameNumber4(more);
      StringIsTaken(Number4(more), more[4..]);
      StringBehind(more, 4, Number4(more));
    } else if |more| >= 8 {
      Value8(more[..8]);
      SameNumber8(more);
    }
  }

  lemma SameNumber4(more: seq<byte>)
    ensures |more| >= 2 ==> Number2(more[..2]) == Number2(more)
    ensures |more| >= 4 ==> Number4(more[..4]) == Number4(more)
  {
  }

  lemma StringIsTaken(len: nat, more: seq<byte>)
    ensures GetString(len, more)
            == if len >= 0x8000_0000 || |more| < len then Bad else Got(Str(more[..len]), more[len..])
  {
  }

  lemma StringBehind(more: seq<byte>, from: nat, len: nat)
    requires from <= |more|
    ensures |more| >= from + len ==>
              more[from..][..len] == more[from..from + len] && more[from..][len..] == more[from + len..]
  {
  }

  /** The 32-bit integer behind an extended tag: only the codes of integers are taken, and the high bits are dropped. */
  function ExtendedTaken(more: seq<byte>): Option<(int, nat)>
  {
    if more == [] || more[0] % 8 != 1 || more[0] == 65 then None
    else
      match IntegerTaken(more[0], more[1..])
      case None => None
      case Some((v, n)) => Some((FromTwosComplement(v % 0x1_0000_0000, 0x1_0000_0000), n + 1))
  }

  lemma ExtendedIsTaken(more: seq<byte>)
    ensures GetExtendInteger(more) == match ExtendedTaken(more)
                                      case None => Bad
                                      case Some((v, n)) => Got(v, more[n..])
  {
    hide GetInteger, IntegerTaken;
    assert Pow256(4) == TWO_32;
    if more != [] && more[0] % 8 == 1 && more[0] != 65 {
      IntegerIsTaken(more[0], more[1..]);
      if IntegerTaken(more[0], more[1..]).Some? {
        SliceOfSlice(more, IntegerTaken(more[0], more[1..]).value.1);
      }
    }
  }

  lemma SliceOfSlice(more: seq<byte>, n: nat)
    requires 1 + n <= |more|
    ensures more[1..][n..] == more[n + 1..]
  {
  }

  /** The array size of a table: the upper five bits of its tag up to 30, an integer of its own for 31. */
  function SizeTaken(t: byte, more: seq<byte>): Option<(int, nat)>
  {
    if t / 8 <= 30 then Some((t / 8, 0)) else ExtendedTaken(more)
  }

  /** Tags 5, 13, .. 253 open a table, and 6, 14, .. 254 one that is registered under the next object number. */
  lemma TableIsTaken(t: byte, more: seq<byte>, g: Guard, st: RState)
    requires (t % 8 == 5 || t % 8 == 6) && |st.ancestor| == MAX_DEPTH && st.rest == [t] + more
    ensures match SizeTaken(t, more)
            case None => UnpackOne(g, st) == Failed
            case Some((size, n)) =>
              var st1 := OpenTable(st.(rest := more[n..]), t % 8);
              && UnpackOne(g, st) == (match UnpackArray(g, st1, |st.tables|, 1, size)
                                      case Failed => Failed
                                      case Done(st2) => UnpackHash(g, st2.(depth := st2.depth - 1), |st.tables|))
              && st1.tables == st.tables + [map[]] && st1.stack == st.stack + [Table(|st.tables|)]
              && st1.depth == st.depth + 1
              && (t % 8 == 5 ==> st1.refs == st.refs)
              && (t % 8 == 6 ==> st1.refs.Some? && |st.tables| + 1 in st1.refs.value
                                 && st1.refs.value[|st.tables| + 1] == |st.tables|)
  {
    hide UnpackOne, UnpackRef, UnpackArray, UnpackHash, GetAtom, GetExtendInteger, ExtendedTaken;
    FirstByte(t, more, g, st);
    assert more[0..] == more;
    ExtendedIsTaken(more);
  }

  /** Tags 7, 15, .. 247 lead to one of the 31 outermost open tables, and 255 to a registered one by its number. */
  lemma ReferenceIsTaken(t: byte, more: seq<byte>, g: Guard, st: RState)
    requires t % 8 == 7 && |st.ancestor| == MAX_DEPTH && st.rest == [t] + more
    ensures UnpackOne(g, st)
            == if t != 255 then
                 if t / 8 >= st.depth then Failed
                 else Done(Push(st.(rest := more), StackAt(st.stack, st.ancestor[t / 8])))
               else
                 match ExtendedTaken(more)
                 case None => Failed
                 case Some((id, n)) =>
                   if st.refs.None? then Failed
                   else if g == Intended then
                     if id !in st.refs.value then Failed
                     else Done(Push(st.(rest := more[n..]), Table(st.refs.value[id])))
                   else if id in st.refs.value then Failed
                   else Done(Push(st.(rest := more[n..]), Nil))
  {
    hide UnpackOne, UnpackTable, GetAtom, GetExtendInteger, ExtendedTaken;
    FirstByte(t, more, g, st);
    ExtendedIsTaken(more);
  }
}
