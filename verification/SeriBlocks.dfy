/** The output buffer of src/lua-seri.c: a chain of 128-byte blocks that behaves as one flat byte sequence. */
module SeriBlocks {
  import opened Bits
  import opened LuaValues
  import opened SeriFormat

  class Block {
    var next: Block?
    const buffer: array<byte>

    constructor ()
      ensures next == null && fresh(buffer) && buffer.Length == BLOCK_SIZE
    {
      next := null;
      buffer := new byte[BLOCK_SIZE];
    }
  }

  /** A pointer into a block, as wb_address returns it. */
  datatype Address = Address(block: Block, off: nat)

  class BlockChain {
    const head: Block
    var current: Block
    var len: int
    var ptr: int
    ghost var blocks: seq<Block>
    ghost var contents: seq<byte>
    ghost var Repr: set<object>

    ghost predicate Valid()
      reads this, Repr
      ensures Valid() ==> this in Repr
    {
      && this in Repr
      && Shape()
      && len == |contents| == BLOCK_SIZE * (|blocks| - 1) + ptr
      && 0 <= ptr <= BLOCK_SIZE
      && forall i :: 0 <= i < len ==> contents[i] == blocks[i / BLOCK_SIZE].buffer[i % BLOCK_SIZE]
    }

    ghost predicate Shape()
      reads this, Repr
    {
      && blocks != [] && blocks[0] == head && blocks[|blocks| - 1] == current
      && (forall i {:trigger blocks[i]} :: 0 <= i < |blocks| ==>
            blocks[i] in Repr && blocks[i].buffer in Repr && blocks[i].buffer.Length == 128)
      && (forall i {:trigger blocks[i].next} :: 0 <= i < |blocks| ==>
            blocks[i].next == if i + 1 < |blocks| then blocks[i + 1] else null)
      && (forall i, j :: 0 <= i < j < |blocks| ==> blocks[i] != blocks[j] && blocks[i].buffer != blocks[j].buffer)
    }

    /** The address denotes this position of the flat contents. */
    ghost predicate Points(a: Address, pos: nat)
      reads this
    {
      pos / BLOCK_SIZE < |blocks| && blocks[pos / BLOCK_SIZE] == a.block && pos % BLOCK_SIZE == a.off
    }

    /** wb_init */
    constructor ()
      ensures Valid() && fresh(Repr) && contents == []
    {
      var b := new Block();
      head, current, len, ptr := b, b, 0, 0;
      blocks, contents := [b], [];
      new;
      Repr := {this, b, b.buffer};
    }

    /** The step at `_again`: a new block is linked in and filled from its start. */
    method NewBlock()
      requires Valid() && ptr == BLOCK_SIZE
      modifies Repr
      ensures Valid() && fresh(Repr - old(Repr)) && old(Repr) <= Repr
      ensures ptr == 0 && contents == old(contents) && old(blocks) <= blocks
    {
      var b := new Block();
      current.next := b;
      current := b;
      ptr := 0;
      blocks := blocks + [b];
      Repr := Repr + {b, b.buffer};
    }

    /** The memcpy of a part that fits the current block. */
    method Fill(part: seq<byte>)
      requires Valid() && ptr + |part| <= BLOCK_SIZE
      modifies Repr
      ensures Valid() && Repr == old(Repr)
      ensures contents == old(contents) + part && ptr == old(ptr) + |part| && blocks == old(blocks)
    {
      var buffer, from := current.buffer, ptr;
      forall k | 0 <= k < |part| {
        buffer[from + k] := part[k];
      }
      ptr := ptr + |part|;
      len := len + |part|;
      ghost var before := contents;
      contents := contents + part;
      ghost var c := |blocks| - 1;
      forall i | 0 <= i < len ensures contents[i] == blocks[i / BLOCK_SIZE].buffer[i % BLOCK_SIZE] {
        if i < |before| {
          assert i / BLOCK_SIZE == c ==> i % BLOCK_SIZE < from;
        } else {
          assert i / BLOCK_SIZE == c && i % BLOCK_SIZE == from + (i - |before|);
        }
      }
    }

    /** wb_push: any number of bytes, across any number of blocks. */
    method Push(bytes: seq<byte>)
      requires Valid()
      modifies Repr
      ensures Valid() && fresh(Repr - old(Repr)) && old(Repr) <= Repr
      ensures contents == old(contents) + bytes && old(blocks) <= blocks
    {
      var rest := bytes;
      if ptr == BLOCK_SIZE {
        NewBlock();
      }
      while |rest| > BLOCK_SIZE - ptr
        invariant Valid() && fresh(Repr - old(Repr)) && old(Repr) <= Repr
        invariant contents + rest == old(contents) + bytes && old(blocks) <= blocks
        invariant ptr < BLOCK_SIZE
        decreases |rest|
      {
        var copy := BLOCK_SIZE - ptr;
        ghost var before := contents;
        Fill(rest[..copy]);
        ConcatAssoc(before, rest[..copy], rest[copy..]);
        assert rest[..copy] + rest[copy..] == rest;
        rest := rest[copy..];
        NewBlock();
      }
      Fill(rest);
    }

    /** wb_address: where the next byte pushed will land. */
    method NextAddress() returns (a: Address)
      requires Valid()
      modifies Repr
      ensures Valid() && fresh(Repr - old(Repr)) && old(Repr) <= Repr
      ensures contents == old(contents) && old(blocks) <= blocks
      ensures Points(a, |contents|)
    {
      if ptr == BLOCK_SIZE {
        NewBlock();
      }
      assert len / BLOCK_SIZE == |blocks| - 1 && len % BLOCK_SIZE == ptr;
      a := Address(current, ptr);
    }

    /** change_mark: one byte already written goes from TABLE to TABLE_MARK; the assertion is its precondition. */
    method ChangeMark(a: Address, ghost pos: nat)
      requires Valid() && pos < |contents| && Points(a, pos) && contents[pos] % 8 == TYPE_TABLE
      modifies Repr
      ensures Valid() && Repr == old(Repr) && blocks == old(blocks)
      ensures contents == old(contents)[pos := Tag(TYPE_TABLE_MARK, old(contents)[pos] / 8)]
    {
      var tag := a.block.buffer[a.off];
      a.block.buffer[a.off] := Tag(TYPE_TABLE_MARK, tag / 8);
      contents := contents[pos := Tag(TYPE_TABLE_MARK, tag / 8)];
      forall i | 0 <= i < len ensures contents[i] == blocks[i / BLOCK_SIZE].buffer[i % BLOCK_SIZE] {
        if i / BLOCK_SIZE == pos / BLOCK_SIZE && i % BLOCK_SIZE == pos % BLOCK_SIZE {
          assert i == pos;
        }
      }
    }

    /** seri: the chain copied out behind a four-byte length. */
    method Seri() returns (out: seq<byte>)
      requires Valid()
      ensures out == LE(len, 4) + contents
    {
      hide LE;
      out := [];
      var b: Block? := head;
      var left := len;
      ghost var n := 0;
      while left > 0
        invariant 0 <= left && BLOCK_SIZE * n + left == len
        invariant b == if n < |blocks| then blocks[n] else null
        invariant out == contents[..BLOCK_SIZE * n]
        decreases left
      {
        var k := if left >= BLOCK_SIZE then BLOCK_SIZE else left;
        CopyOut(n, k);
        out := out + b.buffer[..k];
        if left < BLOCK_SIZE {
          return LE(len, 4) + out;
        }
        left := left - BLOCK_SIZE;
        b := b.next;
        n := n + 1;
      }
      TakeAll(contents);
      out := LE(len, 4) + out;
    }

    /** Block n holds the contents from 128 n on, and leads to block n + 1. */
    lemma CopyOut(n: nat, k: nat)
      requires Valid() && 0 < k <= BLOCK_SIZE && BLOCK_SIZE * n + k <= len
      ensures n < |blocks| && blocks[n].buffer.Length == BLOCK_SIZE
      ensures contents[..BLOCK_SIZE * n] + blocks[n].buffer[..k] == contents[..BLOCK_SIZE * n + k]
      ensures BLOCK_SIZE * n + k == len ==> contents[..BLOCK_SIZE * n + k] == contents
    {
      var from := BLOCK_SIZE * n;
      assert n < |blocks|;
      forall j | 0 <= j < k ensures blocks[n].buffer[j] == contents[from + j] {
        assert (from + j) / BLOCK_SIZE == n && (from + j) % BLOCK_SIZE == j;
      }
      assert blocks[n].buffer[..k] == contents[from..from + k];
      SliceJoin(contents, from, from + k);
    }
  }
}
