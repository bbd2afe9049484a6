/** Encodings in the sense of RFC 8949 (sections 3, 3.1 and 3.2), and the proof that the parser
    reads each of them back, wherever it stands in a buffer. */
module CborRoundTrip {
  import opened Basics
  import opened Cbor

  /** How many bytes the argument of a head takes; shorter forms are not preferred. */
  datatype Width = Direct | One | Two | Four | Eight

  /** A data item with all the choices its encoding leaves open. Lengths of `None` are
      indefinite; text is given by its UTF-8 bytes. */
  datatype Item =
    | Unsigned(n: nat, width: Width)
    | Negative(n: nat, width: Width)
    | Bytes(raw: seq<byte>, width: Width)
    | Text(raw: seq<byte>, width: Width)
    | ChunkedText(chunks: seq<Chunk>)
    | Array(items: seq<Item>, length: Option<Width>)
    | Map(pairs: seq<Pair>, length: Option<Width>)
    | Bool(flag: bool)
    | Null

  datatype Chunk = Chunk(raw: seq<byte>, width: Width)

  datatype Pair = Pair(key: Item, value: Item)

  // ---------- encoding ----------

  function Size(w: Width): nat {
    match w case Direct => 0 case One => 1 case Two => 2 case Four => 4 case Eight => 8
  }

  predicate Fits(n: nat, w: Width) {
    match w
    case Direct => n < 24
    case One => n < 0x100
    case Two => n < 0x1_0000
    case Four => n < 0x1_0000_0000
    case Eight => n < 0x1_0000_0000_0000_0000
  }

  /** The low `k` bytes of a number, most significant first. */
  function ToBytes(n: nat, k: nat): (b: seq<byte>)
    ensures |b| == k
  {
    if k == 0 then [] else ToBytes(n / 256, k - 1) + [(n % 256) as byte]
  }

  function Info(n: nat, w: Width): nat
    requires Fits(n, w)
    ensures Info(n, w) < 28
  {
    match w case Direct => n case One => 24 case Two => 25 case Four => 26 case Eight => 27
  }

  function EncodeHead(major: nat, n: nat, w: Width): (b: seq<byte>)
    requires major < 8 && Fits(n, w)
    ensures |b| == 1 + Size(w) && b[0] != 0xff
  {
    [(32 * major + Info(n, w)) as byte] + ToBytes(n, Size(w))
  }

  function Concat(codes: seq<seq<byte>>): seq<byte> {
    if codes == [] then [] else codes[0] + Concat(codes[1..])
  }

  /** The lengths fit their widths, text decodes, and map keys are distinct numbers or texts. */
  ghost predicate WellFormed(utf8: Utf8, item: Item) {
    match item
    case Unsigned(n, w) => Fits(n, w)
    case Negative(n, w) => Fits(n, w)
    case Bytes(raw, w) => Fits(|raw|, w)
    case Text(raw, w) => Fits(|raw|, w) && utf8(raw).Some?
    case ChunkedText(chunks) => forall c :: c in chunks ==> Fits(|c.raw|, c.width) && utf8(c.raw).Some?
    case Array(items, length) =>
      && (length.Some? ==> Fits(|items|, length.value))
      && forall i :: i in items ==> WellFormed(utf8, i)
    case Map(pairs, length) =>
      && (length.Some? ==> Fits(|pairs|, length.value))
      && (forall p :: p in pairs ==> PairWellFormed(utf8, p))
      && (forall i, j :: 0 <= i < j < |pairs| ==>
            ValueOf(utf8, pairs[i].key) != ValueOf(utf8, pairs[j].key))
    case Bool(_) => true
    case Null => true
  }

  ghost predicate PairWellFormed(utf8: Utf8, p: Pair) {
    && WellFormed(utf8, p.key) && WellFormed(utf8, p.value)
    && (p.key.Unsigned? || p.key.Negative? || p.key.Text? || p.key.ChunkedText?)
  }

  ghost function Encode(utf8: Utf8, item: Item): seq<byte>
    requires WellFormed(utf8, item)
  {
    match item
    case Unsigned(n, w) => EncodeHead(0, n, w)
    case Negative(n, w) => EncodeHead(1, n, w)
    case Bytes(raw, w) => EncodeHead(2, |raw|, w) + raw
    case Text(raw, w) => EncodeHead(3, |raw|, w) + raw
    case ChunkedText(chunks) => Delimited(0x7f, ChunkCodes(utf8, chunks))
    case Array(items, Some(w)) => EncodeHead(4, |items|, w) + Concat(ItemCodes(utf8, items))
    case Array(items, None) => Delimited(0x9f, ItemCodes(utf8, items))
    case Map(pairs, Some(w)) => EncodeHead(5, |pairs|, w) + Concat(PairCodes(utf8, pairs))
    case Map(pairs, None) => Delimited(0xbf, PairCodes(utf8, pairs))
    case Bool(flag) => [if flag then 0xf5 else 0xf4]
    case Null => [0xf6]
  }

  /** An indefinite item stands between its first byte and a break. */
  function Delimited(first: byte, codes: seq<seq<byte>>): seq<byte> {
    [first] + (Concat(codes) + [0xff])
  }

  ghost function ChunkCodes(utf8: Utf8, chunks: seq<Chunk>): seq<seq<byte>>
    requires forall c :: c in chunks ==> Fits(|c.raw|, c.width) && utf8(c.raw).Some?
  {
    seq(|chunks|, i requires 0 <= i < |chunks| =>
      assert chunks[i] in chunks;
      EncodeHead(3, |chunks[i].raw|, chunks[i].width) + chunks[i].raw)
  }

  ghost function ItemCodes(utf8: Utf8, items: seq<Item>): seq<seq<byte>>
    requires forall i :: i in items ==> WellFormed(utf8, i)
  {
    seq(|items|, i requires 0 <= i < |items| => Encode(utf8, items[i]))
  }

  ghost function PairCodes(utf8: Utf8, pairs: seq<Pair>): seq<seq<byte>>
    requires forall p :: p in pairs ==> PairWellFormed(utf8, p)
  {
    seq(|pairs|, i requires 0 <= i < |pairs| => EncodePair(utf8, pairs[i]))
  }

  ghost function EncodePair(utf8: Utf8, p: Pair): seq<byte>
    requires PairWellFormed(utf8, p)
  {
    Encode(utf8, p.key) + Encode(utf8, p.value)
  }

  // ---------- values ----------

  function TextOf(utf8: Utf8, raw: seq<byte>): string {
    match utf8(raw) case Some(s) => s case None => ""
  }

  function Join(texts: seq<string>): string {
    if texts == [] then "" else texts[0] + Join(texts[1..])
  }

  /** The value an item stands for. */
  function ValueOf(utf8: Utf8, item: Item): Value {
    match item
    case Unsigned(n, _) => PyInt(n)
    case Negative(n, _) => PyInt(-1 - (n as int))
    case Bytes(raw, _) => PyBytes(raw)
    case Text(raw, _) => PyStr(TextOf(utf8, raw))
    case ChunkedText(chunks) => PyStr(Join(ChunkTexts(utf8, chunks)))
    case Array(items, _) => PyList(Values(utf8, items))
    case Map(pairs, _) => PyDict(Entries(utf8, pairs))
    case Bool(flag) => PyBool(flag)
    case Null => PyNone
  }

  function ChunkTexts(utf8: Utf8, chunks: seq<Chunk>): seq<string> {
    seq(|chunks|, i requires 0 <= i < |chunks| => TextOf(utf8, chunks[i].raw))
  }

  function Values(utf8: Utf8, items: seq<Item>): seq<Value> {
    seq(|items|, i requires 0 <= i < |items| => ValueOf(utf8, items[i]))
  }

  function Entries(utf8: Utf8, pairs: seq<Pair>): seq<Entry> {
    seq(|pairs|, i requires 0 <= i < |pairs| => EntryOf(utf8, pairs[i]))
  }

  function EntryOf(utf8: Utf8, p: Pair): Entry {
    Entry(ValueOf(utf8, p.key), ValueOf(utf8, p.value))
  }

  // ---------- heads read back ----------

  /** The buffer holds these bytes at this position. */
  predicate At(data: seq<byte>, pos: nat, b: seq<byte>) {
    pos + |b| <= |data| && data[pos..pos + |b|] == b
  }

  lemma AtParts(data: seq<byte>, pos: nat, a: seq<byte>, b: seq<byte>)
    requires At(data, pos, a + b)
    ensures At(data, pos, a) && At(data, pos + |a|, b)
    ensures a != [] ==> data[pos] == a[0]
  {
    assert data[pos..pos + |a|] == (a + b)[..|a|] == a;
    assert data[pos + |a|..pos + |a| + |b|] == (a + b)[|a|..] == b;
    assert a != [] ==> data[pos] == data[pos..pos + |a|][0];
  }

  function Capacity(k: nat): nat {
    if k == 0 then 1 else 256 * Capacity(k - 1)
  }

  lemma {:induction false} BytesReadBack(n: nat, k: nat)
    requires n < Capacity(k)
    ensures BigEndian(ToBytes(n, k)) == n
  {
    if k > 0 {
      BytesReadBack(n / 256, k - 1);
      var b := ToBytes(n, k);
      assert b[..|b| - 1] == ToBytes(n / 256, k - 1);
    }
  }

  lemma FitsCapacity(n: nat, w: Width)
    requires Fits(n, w) && !w.Direct?
    ensures n < Capacity(Size(w))
  {
    assert Capacity(1) == 0x100;
    assert Capacity(2) == 0x1_0000;
    assert Capacity(3) == 0x100_0000;
    assert Capacity(4) == 0x1_0000_0000;
    assert Capacity(5) == 0x100_0000_0000;
    assert Capacity(6) == 0x1_0000_0000_0000;
    assert Capacity(7) == 0x100_0000_0000_0000;
    assert Capacity(8) == 0x1_0000_0000_0000_0000;
  }

  lemma ArgumentReadsBack(n: nat, w: Width)
    requires Fits(n, w) && !w.Direct?
    ensures BigEndian(ToBytes(n, Size(w))) == n
  {
    FitsCapacity(n, w);
    BytesReadBack(n, Size(w));
  }

  lemma HeadReadsBack(data: seq<byte>, pos: nat, major: nat, n: nat, w: Width)
    requires major < 8 && Fits(n, w) && At(data, pos, EncodeHead(major, n, w))
    ensures ReadHead(data, pos) == Ok(Head(major, Some(n), Size(w)))
  {
    AtParts(data, pos, [(32 * major + Info(n, w)) as byte], ToBytes(n, Size(w)));
    assert data[pos] as nat % 32 == Info(n, w) && data[pos] as nat / 32 == major;
    if !w.Direct? {
      ArgumentReadsBack(n, w);
      assert ArgumentLength(Info(n, w)) == Size(w);
    }
  }

  // ---------- what it means to be read back ----------

  /** Wherever these bytes stand in a buffer, the parser reads them as the value and leaves the
      cursor right behind them; and they never look like a break. */
  ghost predicate Decodes(utf8: Utf8, code: seq<byte>, value: Value) {
    && code != [] && code[0] != 0xff
    && forall data, pos: nat :: At(data, pos, code) ==>
         ReadValue(utf8, data, pos) == Done(value, pos + |code|)
  }

  /** The same for the bytes of an entry that is new to the dictionary. */
  ghost predicate DecodesEntry(utf8: Utf8, code: seq<byte>, e: Entry) {
    && code != [] && code[0] != 0xff
    && forall data, pos: nat, acc :: At(data, pos, code) && Fresh([e], acc) ==>
         ReadEntry(utf8, data, pos, acc) == Ok((acc + [e], pos + |code|))
  }

  predicate PlainKey(v: Value) { v.PyInt? || v.PyStr? }

  /** The entries can be put into the dictionary one after the other without replacing anything. */
  ghost predicate Fresh(entries: seq<Entry>, acc: seq<Entry>) {
    && (forall i :: 0 <= i < |acc| ==> PlainKey(acc[i].key))
    && (forall i :: 0 <= i < |entries| ==> PlainKey(entries[i].key))
    && (forall i, j :: 0 <= i < |acc| && 0 <= j < |entries| ==> acc[i].key != entries[j].key)
    && (forall i, j :: 0 <= i < j < |entries| ==> entries[i].key != entries[j].key)
  }

  /** After its head, a definite item is its body. */
  lemma HeadedDecodes(utf8: Utf8, major: nat, n: nat, w: Width, body: seq<byte>, value: Value)
    requires major < 8 && Fits(n, w)
    requires forall data, pos: nat :: At(data, pos, body) ==>
               ReadBody(utf8, data, pos, Head(major, Some(n), Size(w))) == Done(value, pos + |body|)
    ensures Decodes(utf8, EncodeHead(major, n, w) + body, value)
  {
    var head := EncodeHead(major, n, w);
    forall data, pos: nat | At(data, pos, head + body)
      ensures ReadValue(utf8, data, pos) == Done(value, pos + |head + body|)
    {
      AtParts(data, pos, head, body);
      BodyFollowsHead(utf8, data, pos, major, n, w);
    }
  }

  lemma BodyFollowsHead(utf8: Utf8, data: seq<byte>, pos: nat, major: nat, n: nat, w: Width)
    requires major < 8 && Fits(n, w) && At(data, pos, EncodeHead(major, n, w))
    ensures ReadValue(utf8, data, pos) ==
            ReadBody(utf8, data, pos + 1 + Size(w), Head(major, Some(n), Size(w)))
  {
    HeadReadsBack(data, pos, major, n, w);
  }

  /** After its first byte, an indefinite item is what stands up to the break. */
  lemma DelimitedDecodes(utf8: Utf8, major: nat, codes: seq<seq<byte>>, value: Value)
    requires 3 <= major <= 5
    requires forall data, pos: nat :: At(data, pos, Concat(codes) + [0xff]) ==>
               ReadBody(utf8, data, pos, Head(major, None, 0)) ==
               Done(value, pos + |Concat(codes)| + 1)
    ensures Decodes(utf8, Delimited((32 * major + 31) as byte, codes), value)
  {
    var first := (32 * major + 31) as byte;
    forall data, pos: nat | At(data, pos, Delimited(first, codes))
      ensures ReadValue(utf8, data, pos) == Done(value, pos + |Delimited(first, codes)|)
    {
      AtParts(data, pos, [first], Concat(codes) + [0xff]);
      assert data[pos] as nat % 32 == 31 && data[pos] as nat / 32 == major;
      assert ReadHead(data, pos) == Ok(Head(major, None, 0));
    }
  }

  // ---------- the loops of the parser ----------

  /** The buffer holds these items one after the other. */
  ghost predicate Stand(data: seq<byte>, pos: nat, codes: seq<seq<byte>>)
    decreases |codes|
  {
    codes != [] ==>
      && At(data, pos, codes[0]) && (codes[0] != [] ==> data[pos] == codes[0][0])
      && Stand(data, pos + |codes[0]|, codes[1..])
  }

  predicate BreakAt(data: seq<byte>, pos: nat) {
    pos < |data| && data[pos] == 0xff
  }

  lemma {:induction false} ConcatStands(data: seq<byte>, pos: nat, codes: seq<seq<byte>>)
    requires At(data, pos, Concat(codes))
    ensures Stand(data, pos, codes)
    decreases |codes|
  {
    if codes != [] {
      AtParts(data, pos, codes[0], Concat(codes[1..]));
      ConcatStands(data, pos + |codes[0]|, codes[1..]);
    }
  }

  lemma DelimitedStands(data: seq<byte>, pos: nat, codes: seq<seq<byte>>)
    requires At(data, pos, Concat(codes) + [0xff])
    ensures Stand(data, pos, codes) && BreakAt(data, pos + |Concat(codes)|)
  {
    AtParts(data, pos, Concat(codes), [0xff]);
    AtParts(data, pos + |Concat(codes)|, [0xff], []);
    ConcatStands(data, pos, codes);
  }

  /** Each of the items is read back. */
  ghost predicate ItemsFit(utf8: Utf8, codes: seq<seq<byte>>, values: seq<Value>) {
    && |codes| == |values|
    && (codes != [] ==>
          Decodes(utf8, codes[0], values[0]) && ItemsFit(utf8, codes[1..], values[1..]))
  }

  lemma {:induction false} DecodingItemsFit(
    utf8: Utf8, codes: seq<seq<byte>>, values: seq<Value>)
    requires |codes| == |values|
    requires forall i :: 0 <= i < |codes| ==> Decodes(utf8, codes[i], values[i])
    ensures ItemsFit(utf8, codes, values)
  {
    if codes != [] {
      DecodingItemsFit(utf8, codes[1..], values[1..]);
    }
  }

  function Strings(texts: seq<string>): (values: seq<Value>)
    ensures |values| == |texts|
  {
    seq(|texts|, i requires 0 <= i < |texts| => PyStr(texts[i]))
  }

  lemma FirstMoves<T>(acc: seq<T>, rest: seq<T>)
    requires rest != []
    ensures acc + [rest[0]] + rest[1..] == acc + rest
  {
  }

  lemma NextCountedItem(utf8: Utf8, code: seq<byte>, value: Value, n: nat,
                        data: seq<byte>, pos: nat, acc: seq<Value>)
    requires n > 0 && Decodes(utf8, code, value) && At(data, pos, code)
    ensures ReadItems(utf8, data, pos, n, acc) ==
            ReadItems(utf8, data, pos + |code|, n - 1, acc + [value])
  {
  }

  lemma {:induction false} ItemsDecode(utf8: Utf8, codes: seq<seq<byte>>, values: seq<Value>,
                                       data: seq<byte>, pos: nat, acc: seq<Value>)
    requires ItemsFit(utf8, codes, values)
    requires Stand(data, pos, codes)
    ensures ReadItems(utf8, data, pos, |codes|, acc) ==
            Done(PyList(acc + values), pos + |Concat(codes)|)
    decreases |codes|
  {
    if codes == [] {
      assert acc + values == acc;
    } else {
      NextCountedItem(utf8, codes[0], values[0], |codes|, data, pos, acc);
      ItemsDecode(utf8, codes[1..], values[1..], data, pos + |codes[0]|, acc + [values[0]]);
      FirstMoves(acc, values);
    }
  }

  lemma NextItem(utf8: Utf8, code: seq<byte>, value: Value,
                 data: seq<byte>, pos: nat, acc: seq<Value>)
    requires Decodes(utf8, code, value) && At(data, pos, code) && data[pos] == code[0]
    ensures ReadItemsToBreak(utf8, data, pos, acc) ==
            ReadItemsToBreak(utf8, data, pos + |code|, acc + [value])
  {
  }

  lemma {:induction false} ItemsDecodeToBreak(utf8: Utf8, codes: seq<seq<byte>>, values: seq<Value>,
                                              data: seq<byte>, pos: nat, acc: seq<Value>)
    requires ItemsFit(utf8, codes, values)
    requires Stand(data, pos, codes) && BreakAt(data, pos + |Concat(codes)|)
    ensures ReadItemsToBreak(utf8, data, pos, acc) ==
            Done(PyList(acc + values), pos + |Concat(codes)| + 1)
    decreases |codes|
  {
    if codes == [] {
      assert acc + values == acc;
    } else {
      NextItem(utf8, codes[0], values[0], data, pos, acc);
      ItemsDecodeToBreak(utf8, codes[1..], values[1..], data, pos + |codes[0]|, acc + [values[0]]);
      FirstMoves(acc, values);
    }
  }

  lemma NextChunk(utf8: Utf8, code: seq<byte>, text: string,
                  data: seq<byte>, pos: nat, acc: string)
    requires Decodes(utf8, code, PyStr(text)) && At(data, pos, code) && data[pos] == code[0]
    ensures ReadTextChunks(utf8, data, pos, acc) ==
            ReadTextChunks(utf8, data, pos + |code|, acc + text)
  {
  }

  lemma FirstJoins(acc: string, texts: seq<string>)
    requires texts != []
    ensures acc + texts[0] + Join(texts[1..]) == acc + Join(texts)
  {
  }

  lemma {:induction false} ChunksDecode(utf8: Utf8, codes: seq<seq<byte>>, texts: seq<string>,
                                        data: seq<byte>, pos: nat, acc: string)
    requires ItemsFit(utf8, codes, Strings(texts))
    requires Stand(data, pos, codes) && BreakAt(data, pos + |Concat(codes)|)
    ensures ReadTextChunks(utf8, data, pos, acc) ==
            Done(PyStr(acc + Join(texts)), pos + |Concat(codes)| + 1)
    decreases |codes|
  {
    if codes == [] {
      assert acc + Join(texts) == acc;
    } else {
      assert Strings(texts)[1..] == Strings(texts[1..]);
      NextChunk(utf8, codes[0], texts[0], data, pos, acc);
      ChunksDecode(utf8, codes[1..], texts[1..], data, pos + |codes[0]|, acc + texts[0]);
      FirstJoins(acc, texts);
    }
  }

  /** Each of the entries is read back and is new to the dictionary when its turn comes. */
  ghost predicate EntriesFit(
    utf8: Utf8, codes: seq<seq<byte>>, entries: seq<Entry>, acc: seq<Entry>)
  {
    && |codes| == |entries|
    && (codes != [] ==>
          && DecodesEntry(utf8, codes[0], entries[0]) && Fresh([entries[0]], acc)
          && EntriesFit(utf8, codes[1..], entries[1..], acc + [entries[0]]))
  }

  lemma {:induction false} FreshEntriesFit(
    utf8: Utf8, codes: seq<seq<byte>>, entries: seq<Entry>, acc: seq<Entry>)
    requires |codes| == |entries| && Fresh(entries, acc)
    requires forall i :: 0 <= i < |codes| ==> DecodesEntry(utf8, codes[i], entries[i])
    ensures EntriesFit(utf8, codes, entries, acc)
  {
    if codes != [] {
      assert Fresh([entries[0]], acc);
      FreshEntriesFit(utf8, codes[1..], entries[1..], acc + [entries[0]]);
    }
  }

  lemma NextCountedEntry(utf8: Utf8, code: seq<byte>, e: Entry, n: nat,
                         data: seq<byte>, pos: nat, acc: seq<Entry>)
    requires n > 0 && DecodesEntry(utf8, code, e) && Fresh([e], acc) && At(data, pos, code)
    ensures ReadEntries(utf8, data, pos, n, acc) ==
            ReadEntries(utf8, data, pos + |code|, n - 1, acc + [e])
  {
  }

  lemma {:induction false} EntriesDecode(utf8: Utf8, codes: seq<seq<byte>>, entries: seq<Entry>,
                                         data: seq<byte>, pos: nat, acc: seq<Entry>)
    requires EntriesFit(utf8, codes, entries, acc)
    requires Stand(data, pos, codes)
    ensures ReadEntries(utf8, data, pos, |codes|, acc) ==
            Done(PyDict(acc + entries), pos + |Concat(codes)|)
    decreases |codes|
  {
    if codes == [] {
      assert acc + entries == acc;
    } else {
      NextCountedEntry(utf8, codes[0], entries[0], |codes|, data, pos, acc);
      EntriesDecode(utf8, codes[1..], entries[1..], data, pos + |codes[0]|, acc + [entries[0]]);
      FirstMoves(acc, entries);
    }
  }

  lemma NextEntry(utf8: Utf8, code: seq<byte>, e: Entry,
                  data: seq<byte>, pos: nat, acc: seq<Entry>)
    requires DecodesEntry(utf8, code, e) && Fresh([e], acc)
    requires At(data, pos, code) && data[pos] == code[0]
    ensures ReadEntriesToBreak(utf8, data, pos, acc) ==
            ReadEntriesToBreak(utf8, data, pos + |code|, acc + [e])
  {
  }

  lemma {:induction false} EntriesDecodeToBreak(utf8: Utf8, codes: seq<seq<byte>>, entries: seq<Entry>,
                                                data: seq<byte>, pos: nat, acc: seq<Entry>)
    requires EntriesFit(utf8, codes, entries, acc)
    requires Stand(data, pos, codes) && BreakAt(data, pos + |Concat(codes)|)
    ensures ReadEntriesToBreak(utf8, data, pos, acc) ==
            Done(PyDict(acc + entries), pos + |Concat(codes)| + 1)
    decreases |codes|
  {
    if codes == [] {
      assert acc + entries == acc;
    } else {
      NextEntry(utf8, codes[0], entries[0], data, pos, acc);
      EntriesDecodeToBreak(utf8, codes[1..], entries[1..], data, pos + |codes[0]|, acc + [entries[0]]);
      FirstMoves(acc, entries);
    }
  }

  // ---------- items read back ----------

  /** The parser reads back every encoding: a nested item of numbers, byte and text strings,
      booleans, null, arrays and maps, with definite and indefinite lengths mixed at any depth. */
  lemma {:induction false} EncodingsDecode(utf8: Utf8, item: Item)
    requires WellFormed(utf8, item)
    ensures Decodes(utf8, Encode(utf8, item), ValueOf(utf8, item))
    decreases item, 1
  {
    match item
    case ChunkedText(chunks) => ChunkedTextDecodes(utf8, chunks);
    case Array(items, length) =>
      var codes, values := ItemCodes(utf8, items), Values(utf8, items);
      forall i | 0 <= i < |items| ensures Decodes(utf8, codes[i], values[i]) {
        EncodingsDecode(utf8, items[i]);
      }
      DecodingItemsFit(utf8, codes, values);
      if length.Some? {
        ArrayDecodes(utf8, codes, values, length.value);
      } else {
        OpenArrayDecodes(utf8, codes, values);
      }
    case Map(pairs, length) =>
      var codes, entries := PairCodes(utf8, pairs), Entries(utf8, pairs);
      forall i | 0 <= i < |pairs| ensures DecodesEntry(utf8, codes[i], entries[i]) {
        PairDecodes(utf8, pairs[i]);
      }
      MapEntriesAreFresh(utf8, pairs);
      FreshEntriesFit(utf8, codes, entries, []);
      if length.Some? {
        MapDecodes(utf8, codes, entries, length.value);
      } else {
        OpenMapDecodes(utf8, codes, entries);
      }
    case _ => ScalarDecodes(utf8, item);
  }

  /** Distinct number and text keys never replace each other. */
  lemma MapEntriesAreFresh(utf8: Utf8, pairs: seq<Pair>)
    requires forall p :: p in pairs ==> PairWellFormed(utf8, p)
    requires forall i, j :: 0 <= i < j < |pairs| ==>
               ValueOf(utf8, pairs[i].key) != ValueOf(utf8, pairs[j].key)
    ensures Fresh(Entries(utf8, pairs), [])
  {
    var entries := Entries(utf8, pairs);
    forall i | 0 <= i < |pairs|
      ensures PlainKey(entries[i].key) && entries[i].key == ValueOf(utf8, pairs[i].key)
    {
      assert entries[i] == EntryOf(utf8, pairs[i]) && pairs[i] in pairs;
      KeyIsPlain(utf8, pairs[i]);
    }
  }

  lemma KeyIsPlain(utf8: Utf8, p: Pair)
    requires PairWellFormed(utf8, p)
    ensures PlainKey(ValueOf(utf8, p.key))
  {
  }

  lemma ScalarDecodes(utf8: Utf8, item: Item)
    requires WellFormed(utf8, item) && !item.ChunkedText? && !item.Array? && !item.Map?
    ensures Decodes(utf8, Encode(utf8, item), ValueOf(utf8, item))
  {
    match item
    case Unsigned(n, w) => NumberDecodes(utf8, 0, n, w);
    case Negative(n, w) => NumberDecodes(utf8, 1, n, w);
    case Bytes(raw, w) => StringDecodes(utf8, 2, raw, w);
    case Text(raw, w) => StringDecodes(utf8, 3, raw, w);
    case Bool(flag) => SimpleDecodes(utf8, if flag then 0xf5 else 0xf4);
    case Null => SimpleDecodes(utf8, 0xf6);
  }

  lemma NumberDecodes(utf8: Utf8, major: nat, n: nat, w: Width)
    requires major < 2 && Fits(n, w)
    ensures Decodes(utf8, EncodeHead(major, n, w), PyInt(if major == 0 then n else -1 - (n as int)))
  {
    HeadedDecodes(utf8, major, n, w, [], PyInt(if major == 0 then n else -1 - (n as int)));
    assert EncodeHead(major, n, w) + [] == EncodeHead(major, n, w);
  }

  lemma StringDecodes(utf8: Utf8, major: nat, raw: seq<byte>, w: Width)
    requires 2 <= major <= 3 && Fits(|raw|, w) && (major == 3 ==> utf8(raw).Some?)
    ensures Decodes(utf8, EncodeHead(major, |raw|, w) + raw,
                    if major == 2 then PyBytes(raw) else PyStr(TextOf(utf8, raw)))
  {
    var value := if major == 2 then PyBytes(raw) else PyStr(TextOf(utf8, raw));
    forall data, pos: nat | At(data, pos, raw)
      ensures ReadBody(utf8, data, pos, Head(major, Some(|raw|), Size(w))) == Done(value, pos + |raw|)
    {
      assert Slice(data, pos, pos + |raw|) == raw;
    }
    HeadedDecodes(utf8, major, |raw|, w, raw, value);
  }

  lemma SimpleDecodes(utf8: Utf8, b: byte)
    requires 0xf4 <= b <= 0xf6
    ensures Decodes(utf8, [b], if b == 0xf6 then PyNone else PyBool(b == 0xf5))
  {
    forall data, pos: nat | At(data, pos, [b])
      ensures ReadValue(utf8, data, pos) ==
              Done(if b == 0xf6 then PyNone else PyBool(b == 0xf5), pos + 1)
    {
      AtParts(data, pos, [b], []);
    }
  }

  lemma ChunkedTextDecodes(utf8: Utf8, chunks: seq<Chunk>)
    requires forall c :: c in chunks ==> Fits(|c.raw|, c.width) && utf8(c.raw).Some?
    ensures Decodes(utf8, Delimited(0x7f, ChunkCodes(utf8, chunks)),
                    PyStr(Join(ChunkTexts(utf8, chunks))))
  {
    var codes, texts := ChunkCodes(utf8, chunks), ChunkTexts(utf8, chunks);
    forall i | 0 <= i < |codes| ensures Decodes(utf8, codes[i], PyStr(texts[i])) {
      assert chunks[i] in chunks;
      StringDecodes(utf8, 3, chunks[i].raw, chunks[i].width);
    }
    DecodingItemsFit(utf8, codes, Strings(texts));
    forall data, pos: nat | At(data, pos, Concat(codes) + [0xff])
      ensures ReadBody(utf8, data, pos, Head(3, None, 0)) ==
              Done(PyStr(Join(texts)), pos + |Concat(codes)| + 1)
    {
      DelimitedStands(data, pos, codes);
      ChunksDecode(utf8, codes, texts, data, pos, "");
      assert "" + Join(texts) == Join(texts);
    }
    DelimitedDecodes(utf8, 3, codes, PyStr(Join(texts)));
  }

  lemma ArrayDecodes(utf8: Utf8, codes: seq<seq<byte>>, values: seq<Value>, w: Width)
    requires Fits(|codes|, w) && ItemsFit(utf8, codes, values)
    ensures Decodes(utf8, EncodeHead(4, |codes|, w) + Concat(codes), PyList(values))
  {
    forall data, pos: nat | At(data, pos, Concat(codes))
      ensures ReadBody(utf8, data, pos, Head(4, Some(|codes|), Size(w))) ==
              Done(PyList(values), pos + |Concat(codes)|)
    {
      ConcatStands(data, pos, codes);
      ItemsDecode(utf8, codes, values, data, pos, []);
      assert [] + values == values;
    }
    HeadedDecodes(utf8, 4, |codes|, w, Concat(codes), PyList(values));
  }

  lemma OpenArrayDecodes(utf8: Utf8, codes: seq<seq<byte>>, values: seq<Value>)
    requires ItemsFit(utf8, codes, values)
    ensures Decodes(utf8, Delimited(0x9f, codes), PyList(values))
  {
    forall data, pos: nat | At(data, pos, Concat(codes) + [0xff])
      ensures ReadBody(utf8, data, pos, Head(4, None, 0)) ==
              Done(PyList(values), pos + |Concat(codes)| + 1)
    {
      DelimitedStands(data, pos, codes);
      ItemsDecodeToBreak(utf8, codes, values, data, pos, []);
      assert [] + values == values;
    }
    DelimitedDecodes(utf8, 4, codes, PyList(values));
  }

  lemma MapDecodes(utf8: Utf8, codes: seq<seq<byte>>, entries: seq<Entry>, w: Width)
    requires Fits(|codes|, w) && EntriesFit(utf8, codes, entries, [])
    ensures Decodes(utf8, EncodeHead(5, |codes|, w) + Concat(codes), PyDict(entries))
  {
    forall data, pos: nat | At(data, pos, Concat(codes))
      ensures ReadBody(utf8, data, pos, Head(5, Some(|codes|), Size(w))) ==
              Done(PyDict(entries), pos + |Concat(codes)|)
    {
      ConcatStands(data, pos, codes);
      EntriesDecode(utf8, codes, entries, data, pos, []);
      assert [] + entries == entries;
    }
    HeadedDecodes(utf8, 5, |codes|, w, Concat(codes), PyDict(entries));
  }

  lemma OpenMapDecodes(utf8: Utf8, codes: seq<seq<byte>>, entries: seq<Entry>)
    requires EntriesFit(utf8, codes, entries, [])
    ensures Decodes(utf8, Delimited(0xbf, codes), PyDict(entries))
  {
    forall data, pos: nat | At(data, pos, Concat(codes) + [0xff])
      ensures ReadBody(utf8, data, pos, Head(5, None, 0)) ==
              Done(PyDict(entries), pos + |Concat(codes)| + 1)
    {
      DelimitedStands(data, pos, codes);
      EntriesDecodeToBreak(utf8, codes, entries, data, pos, []);
      assert [] + entries == entries;
    }
    DelimitedDecodes(utf8, 5, codes, PyDict(entries));
  }

  /** Putting a new number or text key appends it. */
  lemma {:induction false} PutAppends(acc: seq<Entry>, e: Entry)
    requires Fresh([e], acc)
    ensures Put(acc, e.key, e.value) == acc + [e]
  {
    if acc != [] {
      assert [e][0].key != acc[0].key;
      PutAppends(acc[1..], e);
    }
  }

  lemma {:induction false} PairDecodes(utf8: Utf8, p: Pair)
    requires PairWellFormed(utf8, p)
    ensures DecodesEntry(utf8, EncodePair(utf8, p), EntryOf(utf8, p))
    decreases p
  {
    EncodingsDecode(utf8, p.key);
    EncodingsDecode(utf8, p.value);
    PartsDecode(utf8, Encode(utf8, p.key), Encode(utf8, p.value), EntryOf(utf8, p));
  }

  lemma PartsDecode(utf8: Utf8, key: seq<byte>, value: seq<byte>, e: Entry)
    requires Decodes(utf8, key, e.key) && Decodes(utf8, value, e.value) && PlainKey(e.key)
    ensures DecodesEntry(utf8, key + value, e)
  {
    forall data, pos: nat, acc | At(data, pos, key + value) && Fresh([e], acc)
      ensures ReadEntry(utf8, data, pos, acc) == Ok((acc + [e], pos + |key + value|))
    {
      AtParts(data, pos, key, value);
      PutAppends(acc, e);
    }
  }

  /** Whatever surrounds it in the buffer, the parser reads an encoding as its value and leaves
      the cursor right behind it. */
  lemma ReadsBack(utf8: Utf8, item: Item, before: seq<byte>, after: seq<byte>)
    requires WellFormed(utf8, item)
    ensures ReadValue(utf8, before + Encode(utf8, item) + after, |before|) ==
            Done(ValueOf(utf8, item), |before + Encode(utf8, item)|)
  {
    EncodingsDecode(utf8, item);
    assert At(before + Encode(utf8, item) + after, |before|, Encode(utf8, item));
  }

  /** No encoding is the beginning of another: whatever follows them, two encodings that agree
      are the same and stand for the same value. */
  lemma EncodingsAreUnambiguous(utf8: Utf8, a: Item, b: Item, after: seq<byte>, after': seq<byte>)
    requires WellFormed(utf8, a) && WellFormed(utf8, b)
    requires Encode(utf8, a) + after == Encode(utf8, b) + after'
    ensures ValueOf(utf8, a) == ValueOf(utf8, b) && Encode(utf8, a) == Encode(utf8, b)
  {
    var data, x, y := Encode(utf8, a) + after, Encode(utf8, a), Encode(utf8, b);
    EncodingsDecode(utf8, a);
    EncodingsDecode(utf8, b);
    assert At(data, 0, x);
    assert At(data, 0, y);
    assert data[..|x|] == x && data[..|y|] == y;
  }
}
