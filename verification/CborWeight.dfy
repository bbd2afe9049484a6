/** How much of a buffer a value must have used: reading never makes more of the bytes than there
    were. */
module CborWeight {
  import opened Basics
  import opened Cbor
  import opened CborRoundTrip

  /** How many bytes a character takes: from one to four in UTF-8. */
  type CharSize = char -> nat

  function TextSize(size: CharSize, s: string): nat {
    if s == "" then 0 else size(s[0]) + TextSize(size, s[1..])
  }

  /** Text never takes more bytes than it was decoded from; in UTF-8 it takes exactly those. */
  ghost predicate Compact(utf8: Utf8, size: CharSize) {
    forall raw :: utf8(raw).Some? ==> TextSize(size, utf8(raw).value) <= |raw|
  }

  /** The bytes a value cannot do without: nothing for null, otherwise one for its kind and those
      of its contents. */
  function Weight(size: CharSize, v: Value): nat {
    match v
    case PyNone => 0
    case PyBool(_) => 1
    case PyInt(_) => 1
    case PyBytes(bytes) => 1 + |bytes|
    case PyStr(str) => 1 + TextSize(size, str)
    case PyList(items) => 1 + Sum(Weights(size, items))
    case PyDict(entries) => 1 + Sum(EntryWeights(size, entries))
  }

  function Weights(size: CharSize, items: seq<Value>): (w: seq<nat>)
    ensures |w| == |items|
  {
    seq(|items|, i requires 0 <= i < |items| => Weight(size, items[i]))
  }

  function EntryWeights(size: CharSize, entries: seq<Entry>): (w: seq<nat>)
    ensures |w| == |entries|
  {
    seq(|entries|, i requires 0 <= i < |entries| => EntryWeight(size, entries[i]))
  }

  function EntryWeight(size: CharSize, e: Entry): nat {
    Weight(size, e.key) + Weight(size, e.value)
  }

  function Sum(w: seq<nat>): nat {
    if w == [] then 0 else w[0] + Sum(w[1..])
  }

  /** How many bytes of the buffer lie between two positions. */
  function Used(data: seq<byte>, from: nat, to: nat): int {
    Left(data, from) - Left(data, to)
  }

  // ---------- sums ----------

  lemma {:induction false} TextAdds(size: CharSize, s: string, t: string)
    ensures TextSize(size, s + t) == TextSize(size, s) + TextSize(size, t)
  {
    if s == "" {
      assert s + t == t;
    } else {
      TextAdds(size, s[1..], t);
      assert (s + t)[1..] == s[1..] + t;
    }
  }

  lemma {:induction false} SumSnoc(w: seq<nat>, x: nat)
    ensures Sum(w + [x]) == Sum(w) + x
  {
    if w == [] {
      assert [x][1..] == [];
    } else {
      SumSnoc(w[1..], x);
      assert (w + [x])[1..] == w[1..] + [x];
    }
  }

  lemma ItemAddsWeight(size: CharSize, items: seq<Value>, v: Value)
    ensures Sum(Weights(size, items + [v])) == Sum(Weights(size, items)) + Weight(size, v)
  {
    SumSnoc(Weights(size, items), Weight(size, v));
    assert Weights(size, items + [v]) == Weights(size, items) + [Weight(size, v)];
  }

  lemma {:induction false} ItemsWeigh(size: CharSize, items: seq<Value>, i: nat)
    requires i < |items|
    ensures Weight(size, items[i]) <= Sum(Weights(size, items))
  {
    assert Weights(size, items)[1..] == Weights(size, items[1..]);
    if i > 0 {
      ItemsWeigh(size, items[1..], i - 1);
    }
  }

  lemma EntriesFirst(size: CharSize, entries: seq<Entry>)
    requires entries != []
    ensures Sum(EntryWeights(size, entries)) ==
            EntryWeight(size, entries[0]) + Sum(EntryWeights(size, entries[1..]))
  {
    assert EntryWeights(size, entries)[1..] == EntryWeights(size, entries[1..]);
  }

  /** Putting an entry adds at most its own weight, whether it replaces one or not. */
  lemma {:induction false} PutAddsWeight(size: CharSize, entries: seq<Entry>, key: Value, value: Value)
    ensures Sum(EntryWeights(size, Put(entries, key, value))) <=
            Sum(EntryWeights(size, entries)) + Weight(size, key) + Weight(size, value)
  {
    var after := Put(entries, key, value);
    EntriesFirst(size, after);
    if entries == [] {
      assert after[1..] == [];
    } else {
      EntriesFirst(size, entries);
      if SameKey(entries[0].key, key) {
        assert after[1..] == entries[1..];
      } else {
        PutAddsWeight(size, entries[1..], key, value);
        assert after[1..] == Put(entries[1..], key, value);
      }
    }
  }

  lemma {:induction false} FoundWeighs(size: CharSize, entries: seq<Entry>, key: Value)
    ensures Lookup(entries, key).Some? ==>
              Weight(size, Lookup(entries, key).value) <= Sum(EntryWeights(size, entries))
  {
    if entries != [] {
      EntriesFirst(size, entries);
      FoundWeighs(size, entries[1..], key);
    }
  }

  /** The text taken out of a value is shorter than the value is heavy. */
  lemma TextWeighs(size: CharSize, v: Value)
    ensures ZeroAsText(v).Ok? ==> TextSize(size, ZeroAsText(v).value) <= Weight(size, v)
  {
    match v
    case PyStr(s) =>
      if s != "" {
        assert [s[0]][1..] == "" && TextSize(size, [s[0]]) == size(s[0]);
      }
    case PyList(items) =>
      if items != [] {
        ItemsWeigh(size, items, 0);
      }
    case PyDict(entries) => FoundWeighs(size, entries, PyInt(0));
    case _ =>
  }

  // ---------- reading ----------

  /** What is read from one position to another weighs at most the bytes between them. */
  lemma {:induction false} ValueWeighs(utf8: Utf8, size: CharSize, data: seq<byte>, pos: nat)
    requires Compact(utf8, size)
    ensures var r := ReadValue(utf8, data, pos);
            r.Done? ==> Weight(size, r.value) <= Used(data, pos, r.pos)
    decreases Left(data, pos), 0, 0
  {
    if pos < |data| && ReadHead(data, pos).Ok? {
      var head := ReadHead(data, pos).value;
      BodyWeighs(utf8, size, data, pos + 1 + head.length, head);
    }
  }

  lemma {:induction false} BodyWeighs(utf8: Utf8, size: CharSize, data: seq<byte>, pos: nat, head: Head)
    requires Compact(utf8, size)
    ensures var r := ReadBody(utf8, data, pos, head);
            r.Done? ==> Weight(size, r.value) <= 1 + Used(data, pos, r.pos)
    decreases Left(data, pos), 3, 0
  {
    match (head.major, head.argument)
    case (2, None) => ByteChunksWeigh(utf8, size, data, pos, "");
    case (2, Some(n)) => assert |Slice(data, pos, pos + n)| == Used(data, pos, pos + n);
    case (3, None) => TextChunksWeigh(utf8, size, data, pos, "");
    case (3, Some(n)) => assert |Slice(data, pos, pos + n)| == Used(data, pos, pos + n);
    case (4, None) => ItemsToBreakWeigh(utf8, size, data, pos, []);
    case (4, Some(n)) => CountedItemsWeigh(utf8, size, data, pos, n, []);
    case (5, None) => EntriesToBreakWeigh(utf8, size, data, pos, []);
    case (5, Some(n)) => CountedEntriesWeigh(utf8, size, data, pos, n, []);
    case _ =>
  }

  lemma {:induction false} ByteChunksWeigh(
    utf8: Utf8, size: CharSize, data: seq<byte>, pos: nat, acc: string)
    requires Compact(utf8, size)
    ensures var r := ReadByteChunks(utf8, data, pos, acc);
            r.Done? ==> Weight(size, r.value) <= 1 + TextSize(size, acc) + Used(data, pos, r.pos)
    decreases Left(data, pos), 1, 0
  {
    if pos < |data| && data[pos] != 0xff {
      ValueWeighs(utf8, size, data, pos);
      var r := ReadValue(utf8, data, pos);
      if r.Done? && ZeroAsText(r.value).Ok? {
        TextWeighs(size, r.value);
        TextAdds(size, acc, ZeroAsText(r.value).value);
        ByteChunksWeigh(utf8, size, data, r.pos, acc + ZeroAsText(r.value).value);
      }
    }
  }

  lemma {:induction false} TextChunksWeigh(
    utf8: Utf8, size: CharSize, data: seq<byte>, pos: nat, acc: string)
    requires Compact(utf8, size)
    ensures var r := ReadTextChunks(utf8, data, pos, acc);
            r.Done? ==> Weight(size, r.value) <= 1 + TextSize(size, acc) + Used(data, pos, r.pos)
    decreases Left(data, pos), 1, 0
  {
    if pos < |data| && data[pos] != 0xff {
      ValueWeighs(utf8, size, data, pos);
      var r := ReadValue(utf8, data, pos);
      if r.Done? && r.value.PyStr? {
        TextAdds(size, acc, r.value.str);
        TextChunksWeigh(utf8, size, data, r.pos, acc + r.value.str);
      }
    }
  }

  lemma {:induction false} CountedItemsWeigh(
    utf8: Utf8, size: CharSize, data: seq<byte>, pos: nat, n: nat, acc: seq<Value>)
    requires Compact(utf8, size)
    ensures var r := ReadItems(utf8, data, pos, n, acc);
            r.Done? ==> Weight(size, r.value) <= 1 + Sum(Weights(size, acc)) + Used(data, pos, r.pos)
    decreases Left(data, pos), 1, n
  {
    if n > 0 {
      ValueWeighs(utf8, size, data, pos);
      var r := ReadValue(utf8, data, pos);
      if r.Done? {
        ItemAddsWeight(size, acc, r.value);
        CountedItemsWeigh(utf8, size, data, r.pos, n - 1, acc + [r.value]);
      }
    }
  }

  lemma {:induction false} ItemsToBreakWeigh(
    utf8: Utf8, size: CharSize, data: seq<byte>, pos: nat, acc: seq<Value>)
    requires Compact(utf8, size)
    ensures var r := ReadItemsToBreak(utf8, data, pos, acc);
            r.Done? ==> Weight(size, r.value) <= 1 + Sum(Weights(size, acc)) + Used(data, pos, r.pos)
    decreases Left(data, pos), 1, 0
  {
    if pos < |data| && data[pos] != 0xff {
      ValueWeighs(utf8, size, data, pos);
      var r := ReadValue(utf8, data, pos);
      if r.Done? {
        ItemAddsWeight(size, acc, r.value);
        ItemsToBreakWeigh(utf8, size, data, r.pos, acc + [r.value]);
      }
    }
  }

  lemma {:induction false} EntryWeighs(
    utf8: Utf8, size: CharSize, data: seq<byte>, pos: nat, acc: seq<Entry>)
    requires Compact(utf8, size)
    ensures var r := ReadEntry(utf8, data, pos, acc);
            r.Ok? ==> Sum(EntryWeights(size, r.value.0)) <=
                      Sum(EntryWeights(size, acc)) + Used(data, pos, r.value.1)
    decreases Left(data, pos), 1, 0
  {
    ValueWeighs(utf8, size, data, pos);
    var key := ReadValue(utf8, data, pos);
    if key.Done? {
      ValueWeighs(utf8, size, data, key.pos);
      var value := ReadValue(utf8, data, key.pos);
      if value.Done? {
        PutAddsWeight(size, acc, key.value, value.value);
      }
    }
  }

  lemma {:induction false} CountedEntriesWeigh(
    utf8: Utf8, size: CharSize, data: seq<byte>, pos: nat, n: nat, acc: seq<Entry>)
    requires Compact(utf8, size)
    ensures var r := ReadEntries(utf8, data, pos, n, acc);
            r.Done? ==>
              Weight(size, r.value) <= 1 + Sum(EntryWeights(size, acc)) + Used(data, pos, r.pos)
    decreases Left(data, pos), 2, n
  {
    if n > 0 {
      EntryWeighs(utf8, size, data, pos, acc);
      var r := ReadEntry(utf8, data, pos, acc);
      if r.Ok? {
        CountedEntriesWeigh(utf8, size, data, r.value.1, n - 1, r.value.0);
      }
    }
  }

  lemma {:induction false} EntriesToBreakWeigh(
    utf8: Utf8, size: CharSize, data: seq<byte>, pos: nat, acc: seq<Entry>)
    requires Compact(utf8, size)
    ensures var r := ReadEntriesToBreak(utf8, data, pos, acc);
            r.Done? ==>
              Weight(size, r.value) <= 1 + Sum(EntryWeights(size, acc)) + Used(data, pos, r.pos)
    decreases Left(data, pos), 2, 0
  {
    if pos < |data| && data[pos] != 0xff {
      EntryWeighs(utf8, size, data, pos, acc);
      var r := ReadEntry(utf8, data, pos, acc);
      if r.Ok? {
        EntriesToBreakWeigh(utf8, size, data, r.value.1, r.value.0);
      }
    }
  }

  /** No encoding is shorter than its value is heavy. */
  lemma EncodingsAreHeavyEnough(utf8: Utf8, size: CharSize, item: Item)
    requires Compact(utf8, size) && WellFormed(utf8, item)
    ensures Weight(size, ValueOf(utf8, item)) <= |Encode(utf8, item)|
    ensures Weight(size, ValueOf(utf8, item)) == 0 <==> item.Null?
  {
    var code := Encode(utf8, item);
    EncodingsDecode(utf8, item);
    assert At(code, 0, code);
    ValueWeighs(utf8, size, code, 0);
  }
}
