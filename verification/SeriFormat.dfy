/** The byte format of src/lua-seri.c: tags, integer and length codes, and what one written item looks like. */
module SeriFormat {
  import opened Bits
  import opened LuaValues

  const TYPE_BOOLEAN := 0
  const TYPE_NUMBER := 1
  const TYPE_USERDATA := 2
  const TYPE_SHORT_STRING := 3
  const TYPE_LONG_STRING := 4
  const TYPE_TABLE := 5
  const TYPE_TABLE_MARK := 6
  const TYPE_REF := 7

  const BOOLEAN_NIL := 0
  const BOOLEAN_FALSE := 1
  const BOOLEAN_TRUE := 2

  const NUMBER_ZERO := 0
  const NUMBER_BYTE := 1
  const NUMBER_WORD := 2
  const NUMBER_DWORD := 4
  const NUMBER_QWORD := 6
  const NUMBER_REAL := 8

  const USERDATA_POINTER := 0
  const USERDATA_CFUNCTION := 1

  const MAX_COOKIE := 32
  const EXTEND_NUMBER := 31
  const MAX_DEPTH := 31
  const MAX_REFERENCE := 32
  const BLOCK_SIZE := 128

  /** COMBINE_TYPE: three bits of type below five bits of cookie. */
  function Tag(kind: nat, cookie: nat): byte
    requires kind < 8 && cookie < MAX_COOKIE
  {
    kind + 8 * cookie
  }

  // ---------- writing ----------

  function IntegerBytes(v: int): seq<byte>
  {
    if v == 0 then [Tag(TYPE_NUMBER, NUMBER_ZERO)]
    else if !(-TWO_31 <= v < TWO_31) then [Tag(TYPE_NUMBER, NUMBER_QWORD)] + LE(Unsigned(v, 8), 8)
    else if v < 0 then [Tag(TYPE_NUMBER, NUMBER_DWORD)] + LE(Unsigned(v, 4), 4)
    else if v < 0x100 then [Tag(TYPE_NUMBER, NUMBER_BYTE)] + LE(v, 1)
    else if v < 0x10000 then [Tag(TYPE_NUMBER, NUMBER_WORD)] + LE(v, 2)
    else [Tag(TYPE_NUMBER, NUMBER_DWORD)] + LE(v, 4)
  }

  function StringBytes(s: seq<byte>): seq<byte>
  {
    if |s| < MAX_COOKIE then [Tag(TYPE_SHORT_STRING, |s|)] + s
    else if |s| < 0x10000 then [Tag(TYPE_LONG_STRING, 2)] + LE(|s|, 2) + s
    else [Tag(TYPE_LONG_STRING, 4)] + LE(|s|, 4) + s
  }

  /** What one call on a value that is not a table writes; tables and unsupported values have no such bytes. */
  function AtomBytes(v: Value): seq<byte>
  {
    match v
    case Nil => [Tag(TYPE_BOOLEAN, BOOLEAN_NIL)]
    case Boolean(b) => [Tag(TYPE_BOOLEAN, if b then BOOLEAN_TRUE else BOOLEAN_FALSE)]
    case Number(d) => [Tag(TYPE_NUMBER, NUMBER_REAL)] + LE(d, 8)
    case Str(s) => StringBytes(s)
    case Pointer(p) => [Tag(TYPE_USERDATA, USERDATA_POINTER)] + LE(p, 8)
    case CFunction(p) => [Tag(TYPE_USERDATA, USERDATA_CFUNCTION)] + LE(p, 8)
    case _ => []
  }

  /** What the writer puts out, one decision of pack_one at a time. Open, Short and Ext are the three forms of
      a table: first visit number num with its array size, ancestor index, and extended reference. Fail stands
      for the error raised on a value that cannot be serialized. */
  datatype Item =
    | Plain(v: Value)
    | Open(num: nat, size: nat)
    | Short(index: nat)
    | Ext(target: nat)
    | Fail

  function OpenBytes(size: nat, marked: bool): seq<byte>
  {
    var kind := if marked then TYPE_TABLE_MARK else TYPE_TABLE;
    if size >= EXTEND_NUMBER then [Tag(kind, EXTEND_NUMBER)] + IntegerBytes(size) else [Tag(kind, size)]
  }

  /** The bytes of an item, given the tables whose tag carries the mark. */
  function ItemBytes(i: Item, marks: set<nat>): seq<byte>
  {
    match i
    case Plain(v) => AtomBytes(v)
    case Open(num, size) => OpenBytes(size, num in marks)
    case Short(index) => if index < EXTEND_NUMBER then [Tag(TYPE_REF, index)] else []
    case Ext(target) => [Tag(TYPE_REF, EXTEND_NUMBER)] + IntegerBytes(target + 1)
    case Fail => []
  }

  function Bytes(items: seq<Item>, marks: set<nat>): seq<byte>
  {
    if items == [] then [] else Bytes(items[..|items| - 1], marks) + ItemBytes(items[|items| - 1], marks)
  }

  lemma BytesSnoc(a: seq<Item>, i: Item, marks: set<nat>)
    ensures Bytes(a + [i], marks) == Bytes(a, marks) + ItemBytes(i, marks)
  {
    assert (a + [i])[..|a + [i]| - 1] == a;
  }

  lemma {:induction false} BytesConcat(a: seq<Item>, b: seq<Item>, marks: set<nat>)
    ensures Bytes(a + b, marks) == Bytes(a, marks) + Bytes(b, marks)
    decreases |b|
  {
    if b == [] {
      assert a + b == a;
    } else {
      var b', last := b[..|b| - 1], b[|b| - 1];
      BytesConcat(a, b', marks);
      ConcatAssoc(a, b', [last]);
      SnocSplit(b);
      BytesSnoc(a + b', last, marks);
      ConcatAssoc(Bytes(a, marks), Bytes(b', marks), ItemBytes(last, marks));
    }
  }

  lemma SingleFail(items: seq<Item>)
    ensures items == [Fail] ==> Fail in items
  {
  }

  /** The tables some extended reference leads to. */
  function ExtTargets(items: seq<Item>): set<nat>
  {
    set i | 0 <= i < |items| && items[i].Ext? :: items[i].target
  }

  lemma ExtTargetsConcat(a: seq<Item>, b: seq<Item>)
    ensures ExtTargets(a + b) == ExtTargets(a) + ExtTargets(b)
  {
    forall t | t in ExtTargets(a) + ExtTargets(b) ensures t in ExtTargets(a + b) {
      if i :| 0 <= i < |a| && a[i].Ext? && a[i].target == t {
        assert (a + b)[i] == a[i];
      } else {
        var j :| 0 <= j < |b| && b[j].Ext? && b[j].target == t;
        assert (a + b)[|a| + j] == b[j];
      }
    }
  }

  // ---------- reading ----------

  datatype Parsed<+T> = Got(value: T, rest: seq<byte>) | Bad

  /** rb_read: the next n bytes, or nothing at all when fewer are left. */
  function Take(rest: seq<byte>, n: nat): (r: Parsed<seq<byte>>)
    ensures r.Got? ==> |r.value| == n && r.value + r.rest == rest
  {
    if |rest| < n then Bad else Got(rest[..n], rest[n..])
  }

  /** get_integer */
  function GetInteger(cookie: nat, rest: seq<byte>): (r: Parsed<int>)
    ensures r.Got? ==> |r.rest| <= |rest|
  {
    if cookie == NUMBER_ZERO then Got(0, rest)
    else if cookie == NUMBER_BYTE then GetUnsigned(1, rest)
    else if cookie == NUMBER_WORD then GetUnsigned(2, rest)
    else if cookie == NUMBER_DWORD then GetSigned(4, rest)
    else if cookie == NUMBER_QWORD then GetSigned(8, rest)
    else Bad
  }

  function GetUnsigned(width: nat, rest: seq<byte>): (r: Parsed<int>)
    ensures r.Got? ==> |r.rest| <= |rest|
  {
    match Take(rest, width)
    case Bad => Bad
    case Got(b, rest') => Got(UnLE(b), rest')
  }

  function GetSigned(width: nat, rest: seq<byte>): (r: Parsed<int>)
    ensures r.Got? ==> |r.rest| <= |rest|
  {
    match Take(rest, width)
    case Bad => Bad
    case Got(b, rest') => Got(Signed(UnLE(b), width), rest')
  }

  /** The conversion of a 64-bit integer to a 32-bit int. */
  function ToInt32(v: int): int { Signed(Unsigned(v, 4), 4) }

  /** get_extend_integer */
  function GetExtendInteger(rest: seq<byte>): (r: Parsed<int>)
    ensures r.Got? ==> |r.rest| < |rest|
  {
    if rest == [] then Bad
    else
      var kind, cookie := rest[0] % 8, rest[0] / 8;
      if kind != TYPE_NUMBER || cookie == NUMBER_REAL then Bad
      else
        match GetInteger(cookie, rest[1..])
        case Bad => Bad
        case Got(v, rest') => Got(ToInt32(v), rest')
  }

  /** get_buffer on an int length. lua_pushlstring refuses a length that turned negative. */
  function GetString(len: nat, rest: seq<byte>): (r: Parsed<Value>)
    ensures r.Got? ==> |r.rest| <= |rest|
  {
    if len >= TWO_31 then Bad
    else
      match Take(rest, len)
      case Bad => Bad
      case Got(s, rest') => Got(Str(s), rest')
  }

  function GetWord(rest: seq<byte>): (r: Parsed<Word>)
    ensures r.Got? ==> |r.rest| <= |rest|
  {
    match Take(rest, 8)
    case Bad => Bad
    case Got(b, rest') => UnLEBound(b); Got(UnLE(b), rest')
  }

  /** push_value on every tag but the table and reference ones. */
  function GetAtom(kind: nat, cookie: nat, rest: seq<byte>): (r: Parsed<Value>)
    ensures r.Got? ==> |r.rest| <= |rest|
  {
    if kind == TYPE_BOOLEAN then
      if cookie == BOOLEAN_NIL then Got(Nil, rest)
      else if cookie == BOOLEAN_FALSE then Got(Boolean(false), rest)
      else if cookie == BOOLEAN_TRUE then Got(Boolean(true), rest)
      else Bad
    else if kind == TYPE_NUMBER then
      if cookie == NUMBER_REAL then
        match GetWord(rest)
        case Bad => Bad
        case Got(w, rest') => Got(Number(w), rest')
      else
        match GetInteger(cookie, rest)
        case Bad => Bad
        case Got(v, rest') => Got(Number(OfInteger(v)), rest')
    else if kind == TYPE_USERDATA then
      match GetWord(rest)
      case Bad => Bad
      case Got(w, rest') =>
        if cookie == USERDATA_POINTER then Got(Pointer(w), rest')
        else if cookie == USERDATA_CFUNCTION then Got(CFunction(w), rest')
        else Bad
    else if kind == TYPE_SHORT_STRING then GetString(cookie, rest)
    else if kind == TYPE_LONG_STRING && (cookie == 2 || cookie == 4) then
      match Take(rest, cookie)
      case Bad => Bad
      case Got(b, rest') => GetString(UnLE(b), rest')
    else Bad
  }

  // ---------- what is written is read back ----------

  /** A width that holds the unsigned image gives the integer back; the sign bit decides which one. */
  lemma SignedOfUnsigned(v: int, w: nat)
    requires (w == 4 && -TWO_31 <= v < TWO_31) || (w == 8 && -TWO_63 <= v < TWO_63)
    ensures Signed(Unsigned(v, w), w) == v
  {
    assert Pow256(4) == TWO_32;
    assert Pow256(8) == TWO_64;
  }

  lemma TakeBack(s: seq<byte>, rest: seq<byte>)
    ensures Take(s + rest, |s|) == Got(s, rest)
  {
    assert (s + rest)[..|s|] == s && (s + rest)[|s|..] == rest;
  }

  /** get_integer undoes wb_integer on every 64-bit integer, whatever follows. */
  lemma GetIntegerOfBytes(v: int, rest: seq<byte>)
    requires -TWO_63 <= v < TWO_63
    ensures var b := IntegerBytes(v);
            b[0] % 8 == TYPE_NUMBER && b[0] / 8 != NUMBER_REAL && b + rest == [b[0]] + (b[1..] + rest)
            && GetInteger(b[0] / 8, b[1..] + rest) == Got(v, rest)
  {
    var b := IntegerBytes(v);
    assert b + rest == [b[0]] + (b[1..] + rest);
    TakeBack(b[1..], rest);
    assert Pow256(1) == 0x100 && Pow256(2) == 0x10000 && Pow256(4) == TWO_32;
    assert Pow256(8) == TWO_64;
    if v == 0 {
      assert b[1..] + rest == rest;
    } else if !(-TWO_31 <= v < TWO_31) {
      UnLEofLE(Unsigned(v, 8), 8);
      SignedOfUnsigned(v, 8);
    } else if v < 0 {
      UnLEofLE(Unsigned(v, 4), 4);
      SignedOfUnsigned(v, 4);
    } else if v < 0x100 {
      UnLEofLE(v, 1);
    } else if v < 0x10000 {
      UnLEofLE(v, 2);
    } else {
      UnLEofLE(v, 4);
      SignedOfUnsigned(v, 4);
    }
  }

  /** Array sizes and object numbers below 2^31 survive, on both sides of every width boundary. */
  lemma GetExtendIntegerOfBytes(v: int, rest: seq<byte>)
    requires -TWO_31 <= v < TWO_31
    ensures GetExtendInteger(IntegerBytes(v) + rest) == Got(v, rest)
  {
    GetIntegerOfBytes(v, rest);
    var b := IntegerBytes(v);
    assert (b + rest)[1..] == b[1..] + rest && (b + rest)[0] == b[0];
    SignedOfUnsigned(v, 4);
  }

  lemma GetWordOfBytes(w: Word, rest: seq<byte>)
    ensures GetWord(LE(w, 8) + rest) == Got(w, rest)
  {
    assert Pow256(8) == TWO_64;
    TakeBack(LE(w, 8), rest);
    UnLEofLE(w, 8);
  }

  lemma GetStringOfBytes(s: seq<byte>, rest: seq<byte>)
    requires |s| < TWO_31
    ensures var b := StringBytes(s);
            b + rest == [b[0]] + (b[1..] + rest) && GetAtom(b[0] % 8, b[0] / 8, b[1..] + rest) == Got(Str(s), rest)
  {
    hide LE, UnLE, Pow256;
    var b := StringBytes(s);
    assert b + rest == [b[0]] + (b[1..] + rest);
    TakeBack(s, rest);
    if |s| < MAX_COOKIE {
      assert b[1..] == s;
    } else {
      var w := if |s| < 0x10000 then 2 else 4;
      WidthsOf(|s|, w);
      UnLEofLE(|s|, w);
      assert b[1..] + rest == LE(|s|, w) + (s + rest);
      TakeBack(LE(|s|, w), s + rest);
    }
  }

  lemma WidthsOf(n: nat, w: nat)
    requires (w == 2 && n < 0x10000) || (w == 4 && n < TWO_31)
    ensures n < Pow256(w)
  {
    assert Pow256(2) == 0x10000 && Pow256(4) == TWO_32;
  }

  /** Every value that is not a table comes back as it was, and exactly its bytes are consumed. */
  lemma GetAtomOfBytes(v: Value, rest: seq<byte>)
    requires !v.Table? && !v.Unsupported? && (v.Str? ==> |v.chars| < TWO_31)
    ensures var b := AtomBytes(v);
            b != [] && b[0] % 8 < TYPE_TABLE && b + rest == [b[0]] + (b[1..] + rest)
            && GetAtom(b[0] % 8, b[0] / 8, b[1..] + rest) == Got(v, rest)
  {
    var b := AtomBytes(v);
    assert b + rest == [b[0]] + (b[1..] + rest);
    match v
    case Number(w) => GetWordOfBytes(w, rest); assert b[1..] == LE(w, 8);
    case Pointer(w) => GetWordOfBytes(w, rest); assert b[1..] == LE(w, 8);
    case CFunction(w) => GetWordOfBytes(w, rest); assert b[1..] == LE(w, 8);
    case Str(s) => GetStringOfBytes(s, rest);
    case Nil => assert b[1..] + rest == rest;
    case Boolean(_) => assert b[1..] + rest == rest;
  }
}
