/** The reader of src/lua-seri.c, step by step, and that it computes the function of SeriRead. */
module SeriReader {
  import opened Bits
  import opened LuaValues
  import opened SeriFormat
  import R = SeriRead

  class ReadBlock {
    const guard: R.Guard
    const buffer: seq<byte>
    var ptr: int
    var len: int
    var depth: int
    var objectid: int
    const ancestor: array<nat>
    /** The Lua side: the tables created, the table of marked objects, and the Lua stack. */
    var tables: seq<Entries>
    var refs: Option<map<int, nat>>
    var stack: seq<Value>

    ghost predicate Valid()
      reads this, ancestor
    {
      && 0 <= ptr && 0 <= len && ptr + len == |buffer|
      && 0 <= depth && objectid == |tables| && ancestor.Length == MAX_DEPTH
    }

    ghost function State(): R.RState
      requires Valid()
      reads this, ancestor
    {
      R.RState(buffer[ptr..], tables, refs, depth, ancestor[..], stack)
    }

    constructor (g: R.Guard, bytes: seq<byte>, garbage: seq<nat>)
      requires |garbage| == MAX_DEPTH
      ensures Valid() && fresh(ancestor) && guard == g && buffer == bytes
      ensures State() == R.Start(bytes, garbage)
    {
      guard, buffer, ptr, len := g, bytes, 0, |bytes|;
      depth, objectid := 0, 0;
      ancestor := new nat[MAX_DEPTH](i requires 0 <= i < MAX_DEPTH => garbage[i]);
      tables, refs, stack := [], None, [];
      new;
      assert ancestor[..] == garbage && buffer[0..] == bytes;
    }

    /** rb_read */
    method Read(sz: nat) returns (r: Option<seq<byte>>)
      requires Valid()
      modifies this`ptr, this`len
      ensures Valid()
      ensures match Take(old(State().rest), sz)
              case Bad => r == None && State() == old(State())
              case Got(b, rest) => r == Some(b) && State() == old(State()).(rest := rest)
    {
      if len < sz {
        return None;
      }
      r := Some(buffer[ptr..ptr + sz]);
      assert buffer[ptr..][..sz] == buffer[ptr..ptr + sz] && buffer[ptr..][sz..] == buffer[ptr + sz..];
      ptr := ptr + sz;
      len := len - sz;
    }

    /** get_integer; None is invalid_stream. */
    method GetIntegerCode(cookie: nat) returns (r: Option<int>)
      requires Valid()
      modifies this`ptr, this`len
      ensures Valid()
      ensures match GetInteger(cookie, old(State().rest))
              case Bad => r == None
              case Got(v, rest) => r == Some(v) && State() == old(State()).(rest := rest)
    {
      if cookie == NUMBER_ZERO {
        return Some(0);
      } else if cookie == NUMBER_BYTE || cookie == NUMBER_WORD {
        var b := Read(if cookie == NUMBER_BYTE then 1 else 2);
        r := if b.None? then None else Some(UnLE(b.value));
      } else if cookie == NUMBER_DWORD || cookie == NUMBER_QWORD {
        var w := if cookie == NUMBER_DWORD then 4 else 8;
        var b := Read(w);
        r := if b.None? then None else Some(Signed(UnLE(b.value), w));
      } else {
        return None;
      }
    }

    /** get_extend_integer */
    method GetExtended() returns (r: Option<int>)
      requires Valid()
      modifies this`ptr, this`len
      ensures Valid()
      ensures match GetExtendInteger(old(State().rest))
              case Bad => r == None
              case Got(v, rest) => r == Some(v) && State() == old(State()).(rest := rest)
    {
      hide UnLE, Signed;
      var t := Read(1);
      if t.None? {
        return None;
      }
      var kind, cookie := t.value[0] % 8, t.value[0] / 8;
      if kind != TYPE_NUMBER || cookie == NUMBER_REAL {
        return None;
      }
      r := GetIntegerCode(cookie);
      r := if r.None? then None else Some(ToInt32(r.value));
    }

    /** The scalar cases of push_value. */
    method PushAtom(kind: nat, cookie: nat) returns (ok: bool)
      requires Valid()
      modifies this`ptr, this`len, this`stack
      ensures Valid()
      ensures match GetAtom(kind, cookie, old(State().rest))
              case Bad => !ok
              case Got(v, rest) => ok && State() == R.Push(old(State()).(rest := rest), v)
    {
      hide UnLE, Signed, OfInteger, GetInteger;
      var v;
      ok, v := true, Nil;
      if kind == TYPE_BOOLEAN {
        if cookie == BOOLEAN_FALSE || cookie == BOOLEAN_TRUE {
          v := Boolean(cookie == BOOLEAN_TRUE);
        } else {
          ok := cookie == BOOLEAN_NIL;
        }
      } else if kind == TYPE_NUMBER && cookie != NUMBER_REAL {
        var i := GetIntegerCode(cookie);
        ok := i.Some?;
        if ok {
          v := Number(OfInteger(i.value));
        }
      } else if kind == TYPE_NUMBER || kind == TYPE_USERDATA {
        var w := GetWordCode();
        ok := w.Some? && (kind == TYPE_NUMBER || cookie == USERDATA_POINTER || cookie == USERDATA_CFUNCTION);
        if ok {
          v := if kind == TYPE_NUMBER then Number(w.value)
               else if cookie == USERDATA_POINTER then Pointer(w.value) else CFunction(w.value);
        }
      } else if kind == TYPE_SHORT_STRING {
        ok, v := GetBuffer(cookie);
      } else if kind == TYPE_LONG_STRING && (cookie == 2 || cookie == 4) {
        var b := Read(cookie);
        ok := b.Some?;
        if ok {
          ok, v := GetBuffer(UnLE(b.value));
        }
      } else {
        ok := false;
      }
      if ok {
        stack := stack + [v];
      }
    }

    /** get_real and get_pointer */
    method GetWordCode() returns (r: Option<Word>)
      requires Valid()
      modifies this`ptr, this`len
      ensures Valid()
      ensures match GetWord(old(State().rest))
              case Bad => r == None
              case Got(w, rest) => r == Some(w) && State() == old(State()).(rest := rest)
    {
      var b := Read(8);
      if b.None? {
        return None;
      }
      UnLEBound(b.value);
      return Some(UnLE(b.value));
    }

    /** get_buffer */
    method GetBuffer(n: nat) returns (ok: bool, v: Value)
      requires Valid()
      modifies this`ptr, this`len
      ensures Valid()
      ensures match GetString(n, old(State().rest))
              case Bad => !ok
              case Got(s, rest) => ok && v == s && State() == old(State()).(rest := rest)
    {
      v := Nil;
      if n >= TWO_31 {
        return false, v;
      }
      var b := Read(n);
      if b.None? {
        return false, v;
      }
      return true, Str(b.value);
    }

    // ---------- tables and references ----------

    /** unpack_one */
    method UnpackOne() returns (ok: bool)
      requires Valid()
      modifies this, ancestor
      ensures Valid()
      ensures match R.UnpackOne(guard, old(State()))
              case Failed => !ok
              case Done(st) => ok && State() == st
      decreases len, 0
    {
      hide R.PushValue;
      var t := Read(1);
      if t.None? {
        return false;
      }
      ok := PushValue(t.value[0] % 8, t.value[0] / 8);
    }

    /** push_value */
    method PushValue(kind: nat, cookie: nat) returns (ok: bool)
      requires Valid()
      modifies this, ancestor
      ensures Valid()
      ensures match R.PushValue(guard, old(State()), kind, cookie)
              case Failed => !ok
              case Done(st) => ok && State() == st
      decreases len, 4
    {
      hide R.UnpackTable, R.UnpackRef, GetAtom;
      if kind == TYPE_TABLE || kind == TYPE_TABLE_MARK {
        ok := UnpackTable(cookie, kind);
      } else if kind == TYPE_REF {
        ok := UnpackRef(cookie);
      } else {
        ok := PushAtom(kind, cookie);
      }
    }

    /** unpack_ref */
    method UnpackRef(ref: nat) returns (ok: bool)
      requires Valid()
      modifies this`ptr, this`len, this`stack
      ensures Valid()
      ensures match R.UnpackRef(guard, old(State()), ref)
              case Failed => !ok
              case Done(st) => ok && State() == st
    {
      hide GetExtendInteger;
      if ref == EXTEND_NUMBER {
        var id := GetExtended();
        if id.None? || refs.None? {
          return false;
        }
        var found := id.value in refs.value;
        match guard
        case Intended =>
          if !found {
            return false;
          }
          stack := stack + [Table(refs.value[id.value])];
        case AsWritten =>
          if found {
            return false;
          }
          stack := stack + [Nil];
      } else {
        if ref >= depth || ref >= MAX_DEPTH {
          return false;
        }
        stack := stack + [R.StackAt(stack, ancestor[ref])];
      }
      return true;
    }

    /** unpack_table up to the loops: size, new table, registration, push on the ancestor stack. */
    method OpenTable(cookie: nat, kind: nat) returns (size: Option<int>)
      requires Valid()
      modifies this, ancestor
      ensures Valid()
      ensures match R.ArraySize(cookie, old(State().rest))
              case Bad => size == None
              case Got(n, rest) => size == Some(n) && State() == R.OpenTable(old(State()).(rest := rest), kind)
      ensures size.Some? ==> len <= old(len) && |tables| == old(|tables|) + 1 && depth == old(depth) + 1
    {
      hide GetExtendInteger;
      if cookie == EXTEND_NUMBER {
        size := GetExtended();
        if size.None? {
          return;
        }
      } else {
        size := Some(cookie);
      }
      var id := objectid + 1;
      objectid := id;
      tables := tables + [map[]];
      if kind == TYPE_TABLE_MARK {
        if refs.None? {
          refs := Some(map[]);
        }
        refs := Some(refs.value[id := id - 1]);
      }
      if depth < MAX_DEPTH {
        ancestor[depth] := |stack|;
      }
      depth := depth + 1;
      stack := stack + [Table(id - 1)];
    }

    /** lua_rawseti or lua_rawset on the table at position top - 1, and the pop of what lies above it. */
    method StoreAt(tid: nat, k: Value, v: Value, top: nat)
      requires Valid() && tid < |tables| && top <= |stack|
      modifies this`tables, this`stack
      ensures Valid() && State() == R.Store(old(State()), tid, k, v, top)
    {
      tables := tables[tid := RawSet(tables[tid], k, v)];
      stack := stack[..top];
    }

    /** unpack_table */
    method UnpackTable(cookie: nat, kind: nat) returns (ok: bool)
      requires Valid()
      modifies this, ancestor
      ensures Valid()
      ensures match R.UnpackTable(guard, old(State()), cookie, kind)
              case Failed => !ok
              case Done(st) => ok && State() == st
      decreases len, 3
    {
      hide R.ArraySize, R.UnpackArray, R.UnpackHash, R.OpenTable;
      var tid := |tables|;
      var size := OpenTable(cookie, kind);
      if size.None? {
        return false;
      }
      ok := ArrayLoop(tid, size.value);
      if !ok {
        return;
      }
      depth := depth - 1;
      ok := HashLoop(tid);
    }

    /** The loop over the array part. */
    method ArrayLoop(tid: nat, size: int) returns (ok: bool)
      requires Valid() && tid < |tables|
      modifies this, ancestor
      ensures Valid()
      ensures match R.UnpackArray(guard, old(State()), tid, 1, size)
              case Failed => !ok
              case Done(st) => ok && State() == st
      ensures ok ==> len <= old(len) && |tables| >= old(|tables|) && depth == old(depth)
      decreases len, 1
    {
      hide R.UnpackOne, R.PushValue;
      ghost var st0 := State();
      var i := 1;
      while i <= size
        invariant Valid() && tid < |tables| && len <= old(len) && depth == old(depth) && |tables| >= old(|tables|)
        invariant R.UnpackArray(guard, State(), tid, i, size) == R.UnpackArray(guard, st0, tid, 1, size)
      {
        var top := |stack|;
        ok := UnpackOne();
        if !ok {
          return;
        }
        StoreAt(tid, IndexKey(i), stack[top], top);
        i := i + 1;
      }
      return true;
    }

    /** One turn of the loop over the pairs. */
    method HashStep(tid: nat) returns (ok: bool, more: bool)
      requires Valid() && tid < |tables|
      modifies this, ancestor
      ensures Valid() && (ok && more ==> tid < |tables| && len < old(len))
      ensures R.UnpackHash(guard, old(State()), tid) ==
              if !ok then R.Failed else if more then R.UnpackHash(guard, State(), tid) else R.Done(State())
      decreases len, 1
    {
      hide R.UnpackOne, R.PushValue, RawSet, IsNaN;
      var top := |stack|;
      more := true;
      ok := UnpackOne();
      if !ok {
        return;
      }
      var k := stack[top];
      if k.Nil? {
        stack := stack[..top];
        return true, false;
      }
      depth := depth + 1;
      ok := UnpackOne();
      if !ok {
        return;
      }
      depth := depth - 1;
      if k.Number? && IsNaN(k.bits) {
        return false, true;
      }
      StoreAt(tid, k, stack[top + 1], top);
    }

    /** The loop over the pairs, ended by a nil key. */
    method HashLoop(tid: nat) returns (ok: bool)
      requires Valid() && tid < |tables|
      modifies this, ancestor
      ensures Valid()
      ensures match R.UnpackHash(guard, old(State()), tid)
              case Failed => !ok
              case Done(st) => ok && State() == st
      decreases len, 2
    {
      hide R.UnpackHash;
      ghost var st0 := State();
      var more := true;
      ok := true;
      while ok && more
        invariant Valid() && (ok && more ==> tid < |tables| && len <= old(len))
        invariant R.UnpackHash(guard, st0, tid) ==
                  if !ok then R.Failed else if more then R.UnpackHash(guard, State(), tid) else R.Done(State())
        decreases ok, more, len
      {
        ok, more := HashStep(tid);
      }
    }

    /** The loop of seri_unpack. */
    method UnpackAll() returns (ok: bool)
      requires Valid()
      modifies this, ancestor
      ensures Valid()
      ensures match R.UnpackAll(guard, old(State()))
              case Failed => !ok
              case Done(st) => ok && State() == st
    {
      hide R.UnpackOne, R.PushValue;
      ghost var st0 := State();
      while len > 0
        invariant Valid()
        invariant R.UnpackAll(guard, State()) == R.UnpackAll(guard, st0)
        decreases len
      {
        ok := UnpackOne();
        if !ok {
          return;
        }
      }
      return true;
    }
  }
}
