/** The reader of src/lua-seri.c as a function of the bytes: total on every byte string, valid or not. */
module SeriRead {
  import opened Bits
  import opened LuaValues
  import opened SeriFormat

  /** The test on an extended reference: as the code has it, and as the commented-out original had it. */
  datatype Guard = Intended | AsWritten

  /** The bytes left, the tables created so far (position = object number minus one), the table of marked
      objects once it exists, and the ancestor stack, whose slots are positions in the Lua stack. */
  datatype RState = RState(
    rest: seq<byte>,
    tables: seq<Entries>,
    refs: Option<map<int, nat>>,
    depth: nat,
    ancestor: seq<nat>,
    stack: seq<Value>)

  datatype Outcome = Done(st: RState) | Failed

  function Push(st: RState, v: Value): RState { st.(stack := st.stack + [v]) }

  /** Everything below the top of the Lua stack is as before, and one value has been added. */
  ghost predicate PushedOne(st: RState, st': RState)
  {
    && |st'.stack| == |st.stack| + 1 && st.stack <= st'.stack
    && Grown(st, st')
  }

  ghost predicate Grown(st: RState, st': RState)
  {
    && st'.depth == st.depth
    && |st.tables| <= |st'.tables|
    && |st'.ancestor| == |st.ancestor|
  }

  /** unpack_one */
  function UnpackOne(g: Guard, st: RState): (r: Outcome)
    requires |st.ancestor| == MAX_DEPTH
    ensures r.Done? ==> |r.st.rest| < |st.rest| && PushedOne(st, r.st)
    decreases |st.rest|, 0
  {
    if st.rest == [] then Failed
    else PushValue(g, st.(rest := st.rest[1..]), st.rest[0] % 8, st.rest[0] / 8)
  }

  /** push_value */
  function PushValue(g: Guard, st: RState, kind: nat, cookie: nat): (r: Outcome)
    requires |st.ancestor| == MAX_DEPTH
    ensures r.Done? ==> |r.st.rest| <= |st.rest| && PushedOne(st, r.st)
    decreases |st.rest|, 3
  {
    if kind == TYPE_TABLE || kind == TYPE_TABLE_MARK then UnpackTable(g, st, cookie, kind)
    else if kind == TYPE_REF then UnpackRef(g, st, cookie)
    else
      match GetAtom(kind, cookie, st.rest)
      case Bad => Failed
      case Got(v, rest) => Done(Push(st.(rest := rest), v))
  }

  /** The array size: the cookie itself, or an integer after it. */
  function ArraySize(cookie: nat, rest: seq<byte>): (r: Parsed<int>)
    ensures r.Got? ==> |r.rest| <= |rest|
  {
    if cookie == EXTEND_NUMBER then GetExtendInteger(rest) else Got(cookie, rest)
  }

  /** A new table is created, registered if its tag carries the mark, pushed, and made the innermost ancestor. */
  function OpenTable(st: RState, kind: nat): (st': RState)
    requires |st.ancestor| == MAX_DEPTH
    ensures |st'.ancestor| == MAX_DEPTH
  {
    var tid := |st.tables|;
    st.(tables := st.tables + [map[]],
        refs := if kind != TYPE_TABLE_MARK then st.refs
                else if st.refs.None? then Some(map[tid + 1 := tid])
                else Some(st.refs.value[tid + 1 := tid]),
        ancestor := if st.depth < MAX_DEPTH then st.ancestor[st.depth := |st.stack|] else st.ancestor,
        depth := st.depth + 1,
        stack := st.stack + [Table(tid)])
  }

  /** unpack_table */
  function UnpackTable(g: Guard, st: RState, cookie: nat, kind: nat): (r: Outcome)
    requires |st.ancestor| == MAX_DEPTH
    ensures r.Done? ==> |r.st.rest| <= |st.rest| && PushedOne(st, r.st)
    decreases |st.rest|, 2
  {
    match ArraySize(cookie, st.rest)
    case Bad => Failed
    case Got(size, rest) =>
      var st1 := OpenTable(st.(rest := rest), kind);
      match UnpackArray(g, st1, |st.tables|, 1, size)
      case Failed => Failed
      case Done(st2) => UnpackHash(g, st2.(depth := st2.depth - 1), |st.tables|)
  }

  /** lua_rawseti or lua_rawset on table tid, then the stack cut back to its first `top` values. */
  function Store(st: RState, tid: nat, k: Value, v: Value, top: nat): RState
    requires tid < |st.tables| && top <= |st.stack|
  {
    st.(tables := st.tables[tid := RawSet(st.tables[tid], k, v)], stack := st.stack[..top])
  }

  /** The loop over the array part of table tid, which is on top of the stack. */
  function UnpackArray(g: Guard, st: RState, tid: nat, i: int, size: int): (r: Outcome)
    requires |st.ancestor| == MAX_DEPTH && tid < |st.tables|
    ensures r.Done? ==> |r.st.rest| <= |st.rest| && r.st.stack == st.stack && Grown(st, r.st)
    decreases |st.rest|, 1
  {
    if i > size then Done(st)
    else
      match UnpackOne(g, st)
      case Failed => Failed
      case Done(st1) =>
        UnpackArray(g, Store(st1, tid, IndexKey(i), st1.stack[|st.stack|], |st.stack|), tid, i + 1, size)
  }

  /** The loop over the key-value pairs of table tid, up to the nil that ends them. */
  function UnpackHash(g: Guard, st: RState, tid: nat): (r: Outcome)
    requires |st.ancestor| == MAX_DEPTH && tid < |st.tables|
    ensures r.Done? ==> |r.st.rest| <= |st.rest| && r.st.stack == st.stack && Grown(st, r.st)
    decreases |st.rest|, 1
  {
    var top := |st.stack|;
    match UnpackOne(g, st)
    case Failed => Failed
    case Done(st1) =>
      var k := st1.stack[top];
      if k.Nil? then Done(st1.(stack := st1.stack[..top]))
      else
        match UnpackOne(g, st1.(depth := st1.depth + 1))
        case Failed => Failed
        case Done(st2) =>
          if k.Number? && IsNaN(k.bits) then Failed
          else UnpackHash(g, Store(st2.(depth := st2.depth - 1), tid, k, st2.stack[top + 1], top), tid)
  }

  /** A Lua stack position, or nil beyond the top. */
  function StackAt(stack: seq<Value>, i: nat): Value
  {
    if i < |stack| then stack[i] else Nil
  }

  /** unpack_ref. With the guard as written, a registered table is the error and anything else goes through
      as nil. */
  function UnpackRef(g: Guard, st: RState, ref: nat): (r: Outcome)
    requires |st.ancestor| == MAX_DEPTH
    ensures r.Done? ==> |r.st.rest| <= |st.rest| && PushedOne(st, r.st)
  {
    if ref == EXTEND_NUMBER then
      match GetExtendInteger(st.rest)
      case Bad => Failed
      case Got(id, rest) =>
        if st.refs.None? then Failed
        else
          var found := id in st.refs.value;
          match g
          case Intended => if found then Done(Push(st.(rest := rest), Table(st.refs.value[id]))) else Failed
          case AsWritten => if found then Failed else Done(Push(st.(rest := rest), Nil))
    else if ref >= st.depth || ref >= MAX_DEPTH then Failed
    else Done(Push(st, StackAt(st.stack, st.ancestor[ref])))
  }

  /** seri_unpack: values are read until no byte is left. */
  function UnpackAll(g: Guard, st: RState): (r: Outcome)
    requires |st.ancestor| == MAX_DEPTH
    ensures r.Done? ==> r.st.rest == [] && st.stack <= r.st.stack
    decreases |st.rest|
  {
    if st.rest == [] then Done(st)
    else
      match UnpackOne(g, st)
      case Failed => Failed
      case Done(st1) => UnpackAll(g, st1)
  }

  /** The state seri_unpack starts from; the ancestor slots hold whatever was in memory. */
  function Start(payload: seq<byte>, garbage: seq<nat>): RState
  {
    RState(payload, [], None, 0, garbage, [])
  }
}
