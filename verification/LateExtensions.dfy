/** Authenticator data with both attested data and extensions, where the parser looks for the
    extensions 37 bytes too late: which ones come back all the same. */
module LateExtensions {
  import opened Basics
  import opened Cbor
  import opened CborRoundTrip
  import opened CborWeight
  import opened AuthenticatorData

  /** What is left where the parser looks, when `extensions` stand right after the key. */
  ghost function Remainder(utf8: Utf8, extensions: Item, after: seq<byte>): seq<byte>
    requires WellFormed(utf8, extensions)
  {
    var rest := Encode(utf8, extensions) + after;
    if |rest| < 37 then [] else rest[37..]
  }

  ghost predicate ComesBack(utf8: Utf8, extensions: Item, after: seq<byte>)
    requires WellFormed(utf8, extensions)
  {
    var r := ReadValue(utf8, Remainder(utf8, extensions, after), 0);
    r.Done? && r.value == ValueOf(utf8, extensions)
  }

  /** The parser returns the extensions exactly when what is left reads as their value. */
  lemma ParsedIffComesBack(
    program: Program, utf8: Utf8, rpIdHash: seq<byte>, flags: byte, signCount: nat,
    aaguid: seq<byte>, credId: seq<byte>, key: Item, extensions: Item, after: seq<byte>)
    requires |rpIdHash| == 32 && signCount < 0x1_0000_0000
    requires AT in Flags(flags, 8) && ED in Flags(flags, 8)
    requires |aaguid| == 16 && |credId| < 0x1_0000
    requires WellFormed(utf8, key) && WellFormed(utf8, extensions)
    ensures var data := Header(rpIdHash, flags, signCount)
                        + (AttestedData(aaguid, credId, Encode(utf8, key))
                           + (Encode(utf8, extensions) + after));
            var r := Parse(program, utf8, data);
            ComesBack(utf8, extensions, after) <==>
              r.Ok? && r.value.extensions == Some(ValueOf(utf8, extensions))
  {
    BothPartsSkipBytes(program, utf8, rpIdHash, flags, signCount, aaguid, credId, key,
                       Encode(utf8, extensions) + after);
  }

  /** Extensions of any length come back only if they are null or, together with what follows
      them, 37 bytes longer than their value is heavy. */
  lemma OnlyWastefulExtensionsComeBack(utf8: Utf8, size: CharSize, extensions: Item, after: seq<byte>)
    requires Compact(utf8, size) && WellFormed(utf8, extensions)
    ensures ComesBack(utf8, extensions, after) ==>
              extensions.Null? ||
              37 + Weight(size, ValueOf(utf8, extensions)) <= |Encode(utf8, extensions)| + |after|
  {
    EncodingsAreHeavyEnough(utf8, size, extensions);
    ValueWeighs(utf8, size, Remainder(utf8, extensions, after), 0);
  }

  /** Extensions without that much waste come back if and only if they are the null item. */
  lemma FrugalExtensionsComeBackIff(utf8: Utf8, size: CharSize, extensions: Item, after: seq<byte>)
    requires Compact(utf8, size) && WellFormed(utf8, extensions)
    requires |Encode(utf8, extensions)| + |after| < 37 + Weight(size, ValueOf(utf8, extensions))
    ensures ComesBack(utf8, extensions, after) <==> extensions.Null?
  {
    OnlyWastefulExtensionsComeBack(utf8, size, extensions, after);
  }

  /** A text in `n` empty chunks. */
  function EmptyChunks(n: nat): Item {
    ChunkedText(seq(n, _ => Chunk([], Direct)))
  }

  /** With that much waste it depends on the contents: 36 empty chunks waste 37 bytes and are
      lost, 37 and more come back. */
  lemma EmptyChunksComeBackIff(utf8: Utf8, size: CharSize, n: nat)
    requires utf8([]) == Some("")
    ensures WellFormed(utf8, EmptyChunks(n))
    ensures |Encode(utf8, EmptyChunks(n))| == n + 2 && Weight(size, ValueOf(utf8, EmptyChunks(n))) == 1
    ensures ComesBack(utf8, EmptyChunks(n), []) <==> n >= 37
  {
    var text := EmptyChunks(n);
    var codes := ChunkCodes(utf8, text.chunks);
    assert forall i :: 0 <= i < n ==> codes[i] == [0x60];
    ConcatOfSingles(codes, 0x60);
    JoinOfNothing(ChunkTexts(utf8, text.chunks));
    var code, left := Encode(utf8, text), Remainder(utf8, text, []);
    assert code + [] == code;
    if n >= 36 {
      assert left == code[37..] && left[0] == code[37];
      assert left[0] == if n >= 37 then 0x60 else 0xff;
      FirstByteDecides(utf8, left);
    } else {
      assert left == [];
    }
  }

  lemma FirstByteDecides(utf8: Utf8, left: seq<byte>)
    requires utf8([]) == Some("") && left != []
    ensures left[0] == 0x60 ==> ReadValue(utf8, left, 0) == Done(PyStr(""), 1)
    ensures left[0] == 0xff ==> ReadValue(utf8, left, 0) == Raised(Unsupported)
  {
    assert Slice(left, 1, 1) == [];
    if left[0] == 0x60 {
      assert ReadHead(left, 0) == Ok(Head(3, Some(0), 0));
    } else if left[0] == 0xff {
      assert ReadHead(left, 0) == Ok(Head(7, None, 0));
    }
  }

  lemma {:induction false} ConcatOfSingles(codes: seq<seq<byte>>, b: byte)
    requires forall i :: 0 <= i < |codes| ==> codes[i] == [b]
    ensures |Concat(codes)| == |codes|
    ensures forall i :: 0 <= i < |codes| ==> Concat(codes)[i] == b
  {
    if codes != [] {
      ConcatOfSingles(codes[1..], b);
    }
  }

  lemma {:induction false} JoinOfNothing(texts: seq<string>)
    requires forall i :: 0 <= i < |texts| ==> texts[i] == ""
    ensures Join(texts) == ""
  {
    if texts != [] {
      JoinOfNothing(texts[1..]);
    }
  }
}
