/** What the decoder makes of single bytes: the examples of RFC 8949 it supports, and everything it
    refuses or reads in its own way. */
module CborRules {
  import opened Basics
  import opened Cbor
  import opened CborRoundTrip

  /** Encodings listed in appendix A of RFC 8949, and what they stand for. */
  lemma StandardIntegers(utf8: Utf8)
    ensures Encode(utf8, Unsigned(10, Direct)) == [0x0a] && ValueOf(utf8, Unsigned(10, Direct)) == PyInt(10)
    ensures Encode(utf8, Unsigned(100, One)) == [0x18, 0x64]
    ensures Encode(utf8, Unsigned(1000, Two)) == [0x19, 0x03, 0xe8]
    ensures Encode(utf8, Negative(0, Direct)) == [0x20] && ValueOf(utf8, Negative(0, Direct)) == PyInt(-1)
    ensures Encode(utf8, Negative(999, Two)) == [0x39, 0x03, 0xe7]
    ensures ValueOf(utf8, Negative(999, Two)) == PyInt(-1000)
  {
    assert ToBytes(100, 1) == [0x64];
    assert ToBytes(3, 1) == [0x03];
  }

  lemma StandardStrings(utf8: Utf8)
    requires utf8([0x61]) == Some("a")
    ensures Encode(utf8, Bytes([1, 2, 3, 4], Direct)) == [0x44, 1, 2, 3, 4]
    ensures ValueOf(utf8, Bytes([1, 2, 3, 4], Direct)) == PyBytes([1, 2, 3, 4])
    ensures Encode(utf8, Text([0x61], Direct)) == [0x61, 0x61]
    ensures ValueOf(utf8, Text([0x61], Direct)) == PyStr("a")
  {
  }

  lemma StandardSimpleValues(utf8: Utf8)
    ensures Encode(utf8, Bool(false)) == [0xf4] && ValueOf(utf8, Bool(false)) == PyBool(false)
    ensures Encode(utf8, Bool(true)) == [0xf5] && ValueOf(utf8, Bool(true)) == PyBool(true)
    ensures Encode(utf8, Null) == [0xf6] && ValueOf(utf8, Null) == PyNone
  {
  }

  /** [1], with definite and with indefinite length. */
  lemma StandardArrays(utf8: Utf8)
    ensures var one := Unsigned(1, Direct);
            && Encode(utf8, Array([one], Some(Direct))) == [0x81, 0x01]
            && Encode(utf8, Array([one], None)) == [0x9f, 0x01, 0xff]
            && ValueOf(utf8, Array([one], None)) == PyList([PyInt(1)])
  {
    var one := Unsigned(1, Direct);
    assert Encode(utf8, one) == [0x01];
    assert ItemCodes(utf8, [one]) == [[0x01]];
    OneConcat([0x01]);
    assert EncodeHead(4, 1, Direct) == [0x81];
    assert Values(utf8, [one]) == [PyInt(1)];
  }

  /** {1: 2}, with definite and with indefinite length. */
  lemma StandardMaps(utf8: Utf8)
    ensures var pair := Pair(Unsigned(1, Direct), Unsigned(2, Direct));
            && Encode(utf8, Map([pair], Some(Direct))) == [0xa1, 0x01, 0x02]
            && Encode(utf8, Map([pair], None)) == [0xbf, 0x01, 0x02, 0xff]
            && ValueOf(utf8, Map([pair], None)) == PyDict([Entry(PyInt(1), PyInt(2))])
  {
    var pair := Pair(Unsigned(1, Direct), Unsigned(2, Direct));
    assert Encode(utf8, pair.key) == [0x01] && Encode(utf8, pair.value) == [0x02];
    assert EncodePair(utf8, pair) == [0x01, 0x02];
    assert PairCodes(utf8, [pair]) == [[0x01, 0x02]];
    assert Entries(utf8, [pair]) == [Entry(PyInt(1), PyInt(2))];
    OneConcat([0x01, 0x02]);
  }

  lemma OneConcat(code: seq<byte>)
    ensures Concat([code]) == code
  {
    assert [code][1..] == [];
  }

  // ---------- first bytes ----------

  lemma BodyFollows(utf8: Utf8, data: seq<byte>, pos: nat, head: Head)
    requires pos < |data| && ReadHead(data, pos) == Ok(head)
    ensures ReadValue(utf8, data, pos) == ReadBody(utf8, data, pos + 1 + head.length, head)
  {
  }

  /** Empty definite arrays and maps. */
  lemma EmptyContainers(utf8: Utf8, data: seq<byte>, pos: nat)
    requires pos < |data|
    ensures data[pos] == 0x80 ==> ReadValue(utf8, data, pos) == Done(PyList([]), pos + 1)
    ensures data[pos] == 0xa0 ==> ReadValue(utf8, data, pos) == Done(PyDict([]), pos + 1)
  {
    HeadOf(data, pos);
    if data[pos] == 0x80 {
      BodyFollows(utf8, data, pos, Head(4, Some(0), 0));
    } else if data[pos] == 0xa0 {
      BodyFollows(utf8, data, pos, Head(5, Some(0), 0));
    }
  }

  /** Indefinite items with nothing in them; a byte string comes out as text. */
  lemma EmptyOpenItems(utf8: Utf8, data: seq<byte>, pos: nat)
    requires pos + 1 < |data| && data[pos + 1] == 0xff
    ensures data[pos] == 0x5f ==> ReadValue(utf8, data, pos) == Done(PyStr(""), pos + 2)
    ensures data[pos] == 0x7f ==> ReadValue(utf8, data, pos) == Done(PyStr(""), pos + 2)
    ensures data[pos] == 0x9f ==> ReadValue(utf8, data, pos) == Done(PyList([]), pos + 2)
    ensures data[pos] == 0xbf ==> ReadValue(utf8, data, pos) == Done(PyDict([]), pos + 2)
  {
    HeadOf(data, pos);
    if data[pos] in {0x5f, 0x7f, 0x9f, 0xbf} {
      BodyFollows(utf8, data, pos, Head(data[pos] as nat / 32, None, 0));
    }
  }

  /** Indefinite items cut off before their break. */
  lemma MissingBreaks(utf8: Utf8, data: seq<byte>, pos: nat)
    requires pos + 1 == |data| && data[pos] in {0x5f, 0x7f, 0x9f, 0xbf}
    ensures ReadValue(utf8, data, pos) == Raised(OutOfRange)
  {
    HeadOf(data, pos);
    BodyFollows(utf8, data, pos, Head(data[pos] as nat / 32, None, 0));
  }

  /** The head at a position, read off its first byte. */
  lemma HeadOf(data: seq<byte>, pos: nat)
    requires pos < |data|
    ensures var info, major := data[pos] as nat % 32, data[pos] as nat / 32;
            && (info < 24 ==> ReadHead(data, pos) == Ok(Head(major, Some(info), 0)))
            && (info == 31 ==> ReadHead(data, pos) == Ok(Head(major, None, 0)))
            && (28 <= info <= 30 ==> ReadHead(data, pos) == Err(ReservedHead))
            && (info == 24 && pos + 2 <= |data| ==>
                  ReadHead(data, pos) == Ok(Head(major, Some(data[pos + 1] as nat), 1)))
            && ((info == 24 && pos + 2 > |data|) || (info == 25 && pos + 3 > |data|)
                || (info == 26 && pos + 5 > |data|) || (info == 27 && pos + 9 > |data|) ==>
                  ReadHead(data, pos) == Err(TruncatedHead))
  {
    if data[pos] as nat % 32 == 24 && pos + 2 <= |data| {
      assert data[pos + 1..pos + 2] == [data[pos + 1]];
      assert BigEndian([data[pos + 1]]) == data[pos + 1] as nat;
    }
  }

  /** Tags, simple values and floats are refused, except for the four values that are read. */
  lemma SimpleRules(utf8: Utf8, data: seq<byte>, pos: nat)
    requires pos < |data|
    ensures 0xc0 <= data[pos] < 0xd8 || data[pos] == 0xdf ==>
              ReadValue(utf8, data, pos) == Raised(Unsupported)
    ensures 0xe0 <= data[pos] < 0xf4 || data[pos] == 0xff ==>
              ReadValue(utf8, data, pos) == Raised(Unsupported)
    ensures data[pos] == 0xf4 ==> ReadValue(utf8, data, pos) == Done(PyBool(false), pos + 1)
    ensures data[pos] == 0xf5 ==> ReadValue(utf8, data, pos) == Done(PyBool(true), pos + 1)
    ensures data[pos] == 0xf6 || data[pos] == 0xf7 ==>
              ReadValue(utf8, data, pos) == Done(PyNone, pos + 1)
    ensures data[pos] as nat % 32 in {28, 29, 30} ==>
              ReadValue(utf8, data, pos) == Raised(ReservedHead)
  {
    HeadOf(data, pos);
  }

  /** Wider tags, simple values and floats are refused unless their bytes happen to be 20 to 23. */
  lemma WideSimpleRules(utf8: Utf8, data: seq<byte>, pos: nat, head: Head)
    requires pos < |data| && ReadHead(data, pos) == Ok(head)
    requires head.major == 6 || (head.major == 7 && head.argument !in {Some(20), Some(21), Some(22), Some(23)})
    ensures ReadValue(utf8, data, pos) == Raised(Unsupported)
  {
  }

  /** Integers without an argument: none for a positive one, an exception for a negative one. */
  lemma OpenIntegers(utf8: Utf8, data: seq<byte>, pos: nat)
    requires pos < |data|
    ensures data[pos] == 0x1f ==> ReadValue(utf8, data, pos) == Done(PyNone, pos + 1)
    ensures data[pos] == 0x3f ==> ReadValue(utf8, data, pos) == Raised(WrongType)
  {
    HeadOf(data, pos);
  }

  /** A byte string that is longer than the buffer gives what is left, with the cursor past the
      end; reading there gives nothing and stays. */
  lemma OverlongBytes(utf8: Utf8, data: seq<byte>, n: nat)
    requires n < 24 && |data| > 0 && data[0] as nat == 0x40 + n && |data| <= n
    ensures ReadValue(utf8, data, 0) == Done(PyBytes(data[1..]), n + 1)
    ensures ReadValue(utf8, data, n + 1) == Done(PyNone, n + 1)
  {
    HeadOf(data, 0);
    BodyFollows(utf8, data, 0, Head(2, Some(n), 0));
    assert Slice(data, 1, 1 + n) == data[1..];
  }

  /** The first byte-string chunk of an indefinite byte string already raises. */
  lemma ByteChunksRaise(utf8: Utf8, data: seq<byte>, pos: nat, chunk: Outcome)
    requires pos + 1 < |data| && data[pos] == 0x5f && data[pos + 1] != 0xff
    requires ReadValue(utf8, data, pos + 1) == chunk && chunk.Done? && chunk.value.PyBytes?
    ensures ReadValue(utf8, data, pos) ==
            Raised(if chunk.value.bytes == [] then OutOfRange else WrongType)
  {
    HeadOf(data, pos);
    BodyFollows(utf8, data, pos, Head(2, None, 0));
  }

  /** A text chunk among the chunks of an indefinite byte string gives its first character. */
  lemma TextAmongByteChunks(utf8: Utf8, data: seq<byte>, pos: nat, acc: string, chunk: Outcome)
    requires pos < |data| && data[pos] != 0xff
    requires ReadValue(utf8, data, pos) == chunk && chunk.Done? && chunk.value.PyStr?
    ensures ReadByteChunks(utf8, data, pos, acc) ==
            if chunk.value.str == "" then Raised(OutOfRange)
            else ReadByteChunks(utf8, data, chunk.pos, acc + [chunk.value.str[0]])
  {
  }

  /** Anything but text among the chunks of an indefinite text raises. */
  lemma OtherTextChunksRaise(utf8: Utf8, data: seq<byte>, pos: nat, acc: string, chunk: Outcome)
    requires pos < |data| && data[pos] != 0xff
    requires ReadValue(utf8, data, pos) == chunk && chunk.Done? && !chunk.value.PyStr?
    ensures ReadTextChunks(utf8, data, pos, acc) == Raised(WrongType)
  {
  }

  /** Text that is not UTF-8 raises. */
  lemma BadTextRaises(utf8: Utf8, data: seq<byte>, pos: nat, n: nat)
    requires pos < |data| && n < 24 && data[pos] as nat == 0x60 + n
    requires utf8(Slice(data, pos + 1, pos + 1 + n)) == None
    ensures ReadValue(utf8, data, pos) == Raised(BadText)
  {
    HeadOf(data, pos);
    BodyFollows(utf8, data, pos, Head(3, Some(n), 0));
  }

  /** Items that a definite array announces but the buffer does not hold are read as none. */
  lemma {:induction false} MissingItemsAreNone(
    utf8: Utf8, data: seq<byte>, pos: nat, n: nat, acc: seq<Value>)
    requires pos >= |data|
    ensures ReadItems(utf8, data, pos, n, acc) == Done(PyList(acc + seq(n, _ => PyNone)), pos)
    decreases n
  {
    if n > 0 {
      MissingItemsAreNone(utf8, data, pos, n - 1, acc + [PyNone]);
      assert acc + [PyNone] + seq(n - 1, _ => PyNone) == acc + seq(n, _ => PyNone);
    } else {
      assert acc + seq(n, _ => PyNone) == acc;
    }
  }

  /** Entries that a definite map announces but the buffer does not hold are none for none. */
  lemma {:induction false} MissingEntriesAreNone(
    utf8: Utf8, data: seq<byte>, pos: nat, n: nat, acc: seq<Entry>)
    requires pos >= |data| && n > 0
    ensures ReadEntries(utf8, data, pos, n, acc) == Done(PyDict(Put(acc, PyNone, PyNone)), pos)
    decreases n
  {
    assert ReadEntry(utf8, data, pos, acc) == Ok((Put(acc, PyNone, PyNone), pos));
    if n > 1 {
      MissingEntriesAreNone(utf8, data, pos, n - 1, Put(acc, PyNone, PyNone));
      PuttingTwice(acc, PyNone, PyNone);
    }
  }

  // ---------- dictionaries ----------

  /** A dictionary gives back what was put in last under an equal key, keeps everything else, and
      keeps the key that was there first. */
  lemma {:induction false} PutRules(entries: seq<Entry>, key: Value, value: Value, other: Value)
    ensures var after := Put(entries, key, value);
            && Lookup(after, key) == Some(value)
            && (!EqualKeys(key, other) ==> Lookup(after, other) == Lookup(entries, other))
            && |entries| <= |after| <= |entries| + 1
            && (forall i :: 0 <= i < |entries| ==> after[i].key == entries[i].key)
            && (|after| > |entries| <==> Lookup(entries, key) == None)
  {
    if entries != [] && !SameKey(entries[0].key, key) {
      PutRules(entries[1..], key, value, other);
      assert Put(entries, key, value)[1..] == Put(entries[1..], key, value);
    }
  }

  /** Equal in the sense of Python: false is 0 and true is 1. */
  predicate EqualKeys(a: Value, b: Value) {
    || a == b
    || (a == PyInt(0) && b == PyBool(false)) || (a == PyBool(false) && b == PyInt(0))
    || (a == PyInt(1) && b == PyBool(true)) || (a == PyBool(true) && b == PyInt(1))
  }

  lemma SameKeyIff(a: Value, b: Value)
    ensures SameKey(a, b) <==> EqualKeys(a, b)
  {
  }

  lemma {:induction false} PuttingTwice(entries: seq<Entry>, key: Value, value: Value)
    ensures Put(Put(entries, key, value), key, value) == Put(entries, key, value)
  {
    if entries != [] && !SameKey(entries[0].key, key) {
      PuttingTwice(entries[1..], key, value);
      assert Put(entries, key, value)[1..] == Put(entries[1..], key, value);
    }
  }

  /** Lists and dictionaries cannot be keys. */
  lemma UnhashableKeysRaise(
    utf8: Utf8, data: seq<byte>, pos: nat, acc: seq<Entry>, key: Outcome, value: Outcome)
    requires ReadValue(utf8, data, pos) == key && key.Done?
    requires ReadValue(utf8, data, key.pos) == value && value.Done?
    ensures key.value.PyList? || key.value.PyDict? <==> ReadEntry(utf8, data, pos, acc) == Err(WrongType)
  {
  }
}
