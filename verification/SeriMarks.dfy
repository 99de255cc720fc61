/** Marking a tag already written is the one byte by which the two renderings of the items differ. */
module SeriMarks {
  import opened Bits
  import opened LuaValues
  import opened SeriFormat

  /** Every first visit has its own number, below n. */
  ghost predicate OpensOnce(items: seq<Item>, n: nat)
  {
    && (forall i :: 0 <= i < |items| && items[i].Open? ==> items[i].num < n)
    && (forall i, j :: 0 <= i < j < |items| && items[i].Open? && items[j].Open? ==> items[i].num != items[j].num)
  }

  /** The tag of first visit num is the byte at this position, under whatever marks. */
  ghost predicate TagAt(items: seq<Item>, num: nat, pos: nat)
  {
    exists k :: 0 <= k < |items| && items[k].Open? && items[k].num == num && |Bytes(items[..k], {})| == pos
  }

  lemma ItemLength(i: Item, m1: set<nat>, m2: set<nat>)
    ensures |ItemBytes(i, m1)| == |ItemBytes(i, m2)|
  {
  }

  lemma {:induction false} BytesLength(items: seq<Item>, m1: set<nat>, m2: set<nat>)
    ensures |Bytes(items, m1)| == |Bytes(items, m2)|
  {
    if items != [] {
      BytesLength(items[..|items| - 1], m1, m2);
      ItemLength(items[|items| - 1], m1, m2);
    }
  }

  lemma OpensOnceSnoc(items: seq<Item>, n: nat, i: Item)
    requires OpensOnce(items, n)
    ensures !i.Open? ==> OpensOnce(items + [i], n)
    ensures i.Open? && i.num == n ==> OpensOnce(items + [i], n + 1)
  {
  }

  lemma TagAtSnoc(items: seq<Item>, num: nat, pos: nat, i: Item)
    requires TagAt(items, num, pos)
    ensures TagAt(items + [i], num, pos)
  {
    var k :| 0 <= k < |items| && items[k].Open? && items[k].num == num && |Bytes(items[..k], {})| == pos;
    assert (items + [i])[..k] == items[..k] && (items + [i])[k] == items[k];
  }

  lemma TagAtNew(items: seq<Item>, num: nat, size: nat)
    ensures TagAt(items + [Open(num, size)], num, |Bytes(items, {})|)
  {
    assert (items + [Open(num, size)])[..|items|] == items && (items + [Open(num, size)])[|items|] == Open(num, size);
  }

  /** Changing the mark of a table that has not been written changes nothing. */
  lemma {:induction false} UnmarkedElsewhere(items: seq<Item>, marks: set<nat>, num: nat)
    requires forall i :: 0 <= i < |items| && items[i].Open? ==> items[i].num != num
    ensures Bytes(items, marks + {num}) == Bytes(items, marks)
  {
    hide AtomBytes, IntegerBytes;
    if items != [] {
      UnmarkedElsewhere(items[..|items| - 1], marks, num);
    }
  }

  lemma MarkItem(num: nat, size: nat, marks: set<nat>)
    requires num !in marks
    ensures var b := ItemBytes(Open(num, size), marks);
            b != [] && b[0] % 8 == TYPE_TABLE
            && ItemBytes(Open(num, size), marks + {num}) == [Tag(TYPE_TABLE_MARK, b[0] / 8)] + b[1..]
  {
  }

  lemma UpdateLeft(a: seq<byte>, b: seq<byte>, pos: nat, x: byte)
    requires pos < |a|
    ensures (a + b)[pos := x] == a[pos := x] + b && (a + b)[pos] == a[pos]
  {
  }

  lemma UpdateRight(a: seq<byte>, b: seq<byte>, x: byte)
    requires b != []
    ensures (a + b)[|a| := x] == a + ([x] + b[1..]) && (a + b)[|a|] == b[0]
  {
  }

  /** change_mark finds an unmarked tag at the address kept for the table, and its one-byte update turns the
      rendering without this mark into the rendering with it. */
  lemma {:induction false} MarkPatch(items: seq<Item>, n: nat, marks: set<nat>, num: nat, pos: nat)
    requires OpensOnce(items, n) && TagAt(items, num, pos) && num !in marks
    ensures var b := Bytes(items, marks);
            pos < |b| && b[pos] % 8 == TYPE_TABLE
            && Bytes(items, marks + {num}) == b[pos := Tag(TYPE_TABLE_MARK, b[pos] / 8)]
  {
    hide ItemBytes;
    var k :| 0 <= k < |items| && items[k].Open? && items[k].num == num && |Bytes(items[..k], {})| == pos;
    var init, last := items[..|items| - 1], items[|items| - 1];
    BytesLength(items[..k], {}, marks);
    if k == |items| - 1 {
      UnmarkedElsewhere(init, marks, num);
      MarkItem(num, last.size, marks);
      UpdateRight(Bytes(init, marks), ItemBytes(last, marks), Tag(TYPE_TABLE_MARK, ItemBytes(last, marks)[0] / 8));
    } else {
      assert init[..k] == items[..k] && init[k] == items[k];
      assert TagAt(init, num, pos);
      MarkPatch(init, n, marks, num, pos);
      assert items[k].num != num || !last.Open? || last.num != num;
      ItemUnmarked(last, marks, num);
      UpdateLeft(Bytes(init, marks), ItemBytes(last, marks), pos, Tag(TYPE_TABLE_MARK, Bytes(init, marks)[pos] / 8));
    }
  }

  lemma ItemUnmarked(i: Item, marks: set<nat>, num: nat)
    requires i.Open? ==> i.num != num
    ensures ItemBytes(i, marks + {num}) == ItemBytes(i, marks)
  {
  }
}
