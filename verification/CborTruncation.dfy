/** Cutting a buffer behind the cursor: what has been read does not depend on what follows. */
module CborTruncation {
  import opened Basics
  import opened Cbor

  lemma {:induction false} ValueKept(utf8: Utf8, data: seq<byte>, pos: nat, m: nat)
    requires m <= |data|
    ensures var r := ReadValue(utf8, data, pos);
            r.Done? && r.pos <= m ==> ReadValue(utf8, data[..m], pos) == r
    decreases Left(data, pos), 0, 0
  {
    if m == |data| {
      assert data[..m] == data;
    } else if pos < m && ReadHead(data, pos).Ok? {
      var head := ReadHead(data, pos).value;
      var after := pos + 1 + head.length;
      if after <= m {
        HeadKept(data, pos, m);
        BodyKept(utf8, data, after, m, head);
      }
    }
  }

  lemma HeadKept(data: seq<byte>, pos: nat, m: nat)
    requires pos < m <= |data| && ReadHead(data, pos).Ok?
    requires pos + 1 + ReadHead(data, pos).value.length <= m
    ensures ReadHead(data[..m], pos) == ReadHead(data, pos)
  {
    var k := ReadHead(data, pos).value.length;
    assert data[..m][pos] == data[pos];
    assert data[..m][pos + 1..pos + 1 + k] == data[pos + 1..pos + 1 + k];
  }

  lemma SliceKept(data: seq<byte>, from: nat, to: nat, m: nat)
    requires from <= to <= m <= |data|
    ensures Slice(data[..m], from, to) == Slice(data, from, to)
  {
  }

  lemma {:induction false} BodyKept(utf8: Utf8, data: seq<byte>, pos: nat, m: nat, head: Head)
    requires m < |data|
    ensures var r := ReadBody(utf8, data, pos, head);
            r.Done? && r.pos <= m ==> ReadBody(utf8, data[..m], pos, head) == r
    decreases Left(data, pos), 3, 0
  {
    match (head.major, head.argument)
    case (2, None) => ByteChunksKept(utf8, data, pos, m, "");
    case (2, Some(n)) => if pos + n <= m { SliceKept(data, pos, pos + n, m); }
    case (3, None) => TextChunksKept(utf8, data, pos, m, "");
    case (3, Some(n)) => if pos + n <= m { SliceKept(data, pos, pos + n, m); }
    case (4, None) => ItemsToBreakKept(utf8, data, pos, m, []);
    case (4, Some(n)) => CountedItemsKept(utf8, data, pos, m, n, []);
    case (5, None) => EntriesToBreakKept(utf8, data, pos, m, []);
    case (5, Some(n)) => CountedEntriesKept(utf8, data, pos, m, n, []);
    case _ =>
  }

  lemma {:induction false} ByteChunksKept(
    utf8: Utf8, data: seq<byte>, pos: nat, m: nat, acc: string)
    requires m < |data|
    ensures var r := ReadByteChunks(utf8, data, pos, acc);
            r.Done? && r.pos <= m ==> ReadByteChunks(utf8, data[..m], pos, acc) == r
    decreases Left(data, pos), 1, 0
  {
    if pos < |data| && data[pos] != 0xff {
      ValueKept(utf8, data, pos, m);
      var r := ReadValue(utf8, data, pos);
      if r.Done? && ZeroAsText(r.value).Ok? {
        ByteChunksKept(utf8, data, r.pos, m, acc + ZeroAsText(r.value).value);
      }
    }
  }

  lemma {:induction false} TextChunksKept(
    utf8: Utf8, data: seq<byte>, pos: nat, m: nat, acc: string)
    requires m < |data|
    ensures var r := ReadTextChunks(utf8, data, pos, acc);
            r.Done? && r.pos <= m ==> ReadTextChunks(utf8, data[..m], pos, acc) == r
    decreases Left(data, pos), 1, 0
  {
    if pos < |data| && data[pos] != 0xff {
      ValueKept(utf8, data, pos, m);
      var r := ReadValue(utf8, data, pos);
      if r.Done? && r.value.PyStr? {
        TextChunksKept(utf8, data, r.pos, m, acc + r.value.str);
      }
    }
  }

  lemma {:induction false} CountedItemsKept(
    utf8: Utf8, data: seq<byte>, pos: nat, m: nat, n: nat, acc: seq<Value>)
    requires m < |data|
    ensures var r := ReadItems(utf8, data, pos, n, acc);
            r.Done? && r.pos <= m ==> ReadItems(utf8, data[..m], pos, n, acc) == r
    decreases Left(data, pos), 1, n
  {
    if n > 0 {
      ValueKept(utf8, data, pos, m);
      var r := ReadValue(utf8, data, pos);
      if r.Done? {
        CountedItemsKept(utf8, data, r.pos, m, n - 1, acc + [r.value]);
      }
    }
  }

  lemma {:induction false} ItemsToBreakKept(
    utf8: Utf8, data: seq<byte>, pos: nat, m: nat, acc: seq<Value>)
    requires m < |data|
    ensures var r := ReadItemsToBreak(utf8, data, pos, acc);
            r.Done? && r.pos <= m ==> ReadItemsToBreak(utf8, data[..m], pos, acc) == r
    decreases Left(data, pos), 1, 0
  {
    if pos < |data| && data[pos] != 0xff {
      ValueKept(utf8, data, pos, m);
      var r := ReadValue(utf8, data, pos);
      if r.Done? {
        ItemsToBreakKept(utf8, data, r.pos, m, acc + [r.value]);
      }
    }
  }

  lemma {:induction false} EntryKept(
    utf8: Utf8, data: seq<byte>, pos: nat, m: nat, acc: seq<Entry>)
    requires m < |data|
    ensures var r := ReadEntry(utf8, data, pos, acc);
            r.Ok? && r.value.1 <= m ==> ReadEntry(utf8, data[..m], pos, acc) == r
    decreases Left(data, pos), 1, 0
  {
    ValueKept(utf8, data, pos, m);
    var key := ReadValue(utf8, data, pos);
    if key.Done? {
      ValueKept(utf8, data, key.pos, m);
    }
  }

  lemma {:induction false} CountedEntriesKept(
    utf8: Utf8, data: seq<byte>, pos: nat, m: nat, n: nat, acc: seq<Entry>)
    requires m < |data|
    ensures var r := ReadEntries(utf8, data, pos, n, acc);
            r.Done? && r.pos <= m ==> ReadEntries(utf8, data[..m], pos, n, acc) == r
    decreases Left(data, pos), 2, n
  {
    if n > 0 {
      EntryKept(utf8, data, pos, m, acc);
      var r := ReadEntry(utf8, data, pos, acc);
      if r.Ok? {
        CountedEntriesKept(utf8, data, r.value.1, m, n - 1, r.value.0);
      }
    }
  }

  lemma {:induction false} EntriesToBreakKept(
    utf8: Utf8, data: seq<byte>, pos: nat, m: nat, acc: seq<Entry>)
    requires m < |data|
    ensures var r := ReadEntriesToBreak(utf8, data, pos, acc);
            r.Done? && r.pos <= m ==> ReadEntriesToBreak(utf8, data[..m], pos, acc) == r
    decreases Left(data, pos), 2, 0
  {
    if pos < |data| && data[pos] != 0xff {
      EntryKept(utf8, data, pos, m, acc);
      var r := ReadEntry(utf8, data, pos, acc);
      if r.Ok? {
        EntriesToBreakKept(utf8, data, r.value.1, m, r.value.0);
      }
    }
  }
}
