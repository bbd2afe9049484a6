/** Authenticator data (section 6.1 of WebAuthn Level 3) and the attested credential data inside
    it (section 6.5.1): the parser both Python programs carry, and its round trips. */
module AuthenticatorData {
  import opened Basics
  import opened Cbor
  import opened CborParser
  import opened CborRoundTrip
  import CborTruncation

  /** The two copies of the parser differ in one respect: the demo client turns empty fields
      into absent ones. */
  datatype Program = DemoClient | BrowserShim

  datatype AuthData = AuthData(
    rpIdHash: seq<byte>,
    flags: set<Flag>,
    signCount: nat,
    aaguid: Option<seq<byte>>,
    credId: Option<seq<byte>>,
    pubKeyBytes: Option<seq<byte>>,
    extensions: Option<Value>)

  datatype Failure = TooShort | BadCbor(error: ParseError) | CursorPastEnd

  // ---------- flags ----------

  /** The names of flags; the standard also names BE and BS. */
  datatype Flag = UP | UV | BE | BS | AT | ED | RFU1 | RFU2

  const BITS := [UP, RFU1, UV, RFU2, RFU2, RFU2, AT, ED]

  /** A byte shifted right. */
  function Shift(b: byte, i: nat): nat {
    if i == 0 then b as nat else Shift(b, i - 1) / 2
  }

  ghost predicate Bit(b: byte, i: nat) {
    Shift(b, i) % 2 == 1
  }

  ghost function Flags(b: byte, n: nat): set<Flag>
    requires n <= 8
  {
    set i | 0 <= i < n && Bit(b, i) :: BITS[i]
  }

  method ReadFlags(b: byte) returns (flags: set<Flag>)
    ensures flags == Flags(b, 8)
  {
    flags := {};
    var rest := b as nat;
    for i := 0 to 8
      invariant rest == Shift(b, i)
      invariant flags == Flags(b, i)
    {
      if rest % 2 == 1 {
        flags := flags + {BITS[i]};
      }
      rest := rest / 2;
    }
  }

  /** Each name stands for its bits of the flag byte, and no other name is ever a flag. */
  lemma FlagsNameTheirBits(b: byte)
    ensures var n := b as nat;
            && (UP in Flags(b, 8) <==> n % 2 == 1)
            && (RFU1 in Flags(b, 8) <==> n / 2 % 2 == 1)
            && (UV in Flags(b, 8) <==> n / 4 % 2 == 1)
            && (RFU2 in Flags(b, 8) <==> n / 8 % 2 == 1 || n / 16 % 2 == 1 || n / 32 % 2 == 1)
            && (AT in Flags(b, 8) <==> n / 64 % 2 == 1)
            && (ED in Flags(b, 8) <==> n / 128 % 2 == 1)
    ensures BE !in Flags(b, 8) && BS !in Flags(b, 8)
  {
    ShiftsDivide(b);
    FlagsOneByOne(b);
  }

  lemma ShiftsDivide(b: byte)
    ensures var n := b as nat;
            && Shift(b, 0) == n && Shift(b, 1) == n / 2 && Shift(b, 2) == n / 4
            && Shift(b, 3) == n / 8 && Shift(b, 4) == n / 16 && Shift(b, 5) == n / 32
            && Shift(b, 6) == n / 64 && Shift(b, 7) == n / 128
  {
    var n := b as nat;
    assert Shift(b, 1) == n / 2;
    assert Shift(b, 2) == n / 4;
    assert Shift(b, 3) == n / 8;
    assert Shift(b, 4) == n / 16;
    assert Shift(b, 5) == n / 32;
    assert Shift(b, 6) == n / 64;
  }

  lemma FlagsOneByOne(b: byte)
    ensures var f := Flags(b, 8);
            && (UP in f <==> Bit(b, 0)) && (RFU1 in f <==> Bit(b, 1))
            && (UV in f <==> Bit(b, 2)) && (AT in f <==> Bit(b, 6)) && (ED in f <==> Bit(b, 7))
            && (RFU2 in f <==> Bit(b, 3) || Bit(b, 4) || Bit(b, 5))
            && BE !in f && BS !in f
  {
    assert BITS[0] == UP && BITS[1] == RFU1 && BITS[2] == UV && BITS[3] == RFU2;
    assert BITS[4] == RFU2 && BITS[5] == RFU2 && BITS[6] == AT && BITS[7] == ED;
  }

  // ---------- parsing ----------

  /** What the attested part yields, and the length the parser computes for it. */
  datatype Attested = Attested(
    aaguid: seq<byte>, credId: seq<byte>, coseKey: seq<byte>, length: nat)

  function ReadAttested(utf8: Utf8, data: seq<byte>): Result<Attested, Failure> {
    if |data| < 55 then Err(TooShort)
    else
      var length := BigEndian(data[53..55]);
      var rest := Slice(data, 55 + length, 55 + length + |data|);
      match ReadValue(utf8, rest, 0)
      case Raised(error) => Err(BadCbor(error))
      case Done(_, p) =>
        if p > |rest| then Err(CursorPastEnd)
        else Ok(Attested(Slice(data, 37, 53), Slice(data, 55, 55 + length), rest[..p],
                         55 + length + p))
  }

  function ReadExtensions(utf8: Utf8, data: seq<byte>, from: nat): Result<Value, Failure> {
    match ReadValue(utf8, Slice(data, from, from + |data|), 0)
    case Raised(error) => Err(BadCbor(error))
    case Done(value, _) => Ok(value)
  }

  function Field(program: Program, b: seq<byte>): Option<seq<byte>> {
    if program.DemoClient? && b == [] then None else Some(b)
  }

  ghost function Parse(program: Program, utf8: Utf8, data: seq<byte>): Result<AuthData, Failure> {
    if |data| < 37 then Err(TooShort)
    else if AT !in Flags(data[32], 8) then Assembled(program, utf8, data, None)
    else match ReadAttested(utf8, data)
      case Err(e) => Err(e)
      case Ok(a) => Assembled(program, utf8, data, Some(a))
  }

  /** The extensions after the attested data, if there are any, and all fields together. */
  ghost function Assembled(program: Program, utf8: Utf8, data: seq<byte>, a: Option<Attested>)
    : Result<AuthData, Failure>
    requires |data| >= 37
  {
    if ED !in Flags(data[32], 8) then Ok(Fields(program, data, a, None))
    else match ReadExtensions(utf8, data, 37 + if a.Some? then a.value.length else 0)
      case Err(e) => Err(e)
      case Ok(value) => Ok(Fields(program, data, a, Some(value)))
  }

  ghost function Fields(
    program: Program, data: seq<byte>, a: Option<Attested>, extensions: Option<Value>): AuthData
    requires |data| >= 37
  {
    AuthData(
      data[..32], Flags(data[32], 8), BigEndian(data[33..37]),
      if a.Some? then Field(program, a.value.aaguid) else None,
      if a.Some? then Field(program, a.value.credId) else None,
      if a.Some? then Field(program, a.value.coseKey) else None,
      extensions)
  }

  /** Cuts the attested data out of a longer buffer: the key ends where the parser's cursor
      stops. */
  method ParseAttested(utf8: Utf8, data: seq<byte>) returns (r: Result<Attested, Failure>)
    ensures r == ReadAttested(utf8, data)
  {
    if |data| < 55 {
      return Err(TooShort);
    }
    var length := BigEndian(data[53..55]);
    var parser := new Parser(utf8, Slice(data, 55 + length, 55 + length + |data|));
    OnlyTheFirstParseReads(utf8, parser.data);
    var key := parser.Parse();
    if key.Err? {
      return Err(BadCbor(key.error));
    }
    if parser.pos > |parser.data| {
      return Err(CursorPastEnd);
    }
    return Ok(Attested(Slice(data, 37, 53), Slice(data, 55, 55 + length),
                       parser.data[..parser.pos], 55 + length + parser.pos));
  }

  /** Decodes everything from a position to the end of the data. */
  method ParseExtensions(utf8: Utf8, data: seq<byte>, from: nat) returns (r: Result<Value, Failure>)
    ensures r == ReadExtensions(utf8, data, from)
  {
    var value := Loads(utf8, Slice(data, from, from + |data|));
    return match value case Ok(v) => Ok(v) case Err(error) => Err(BadCbor(error));
  }

  /** The parser as the programs run it. */
  method ParseAuthenticatorData(program: Program, utf8: Utf8, data: seq<byte>)
    returns (r: Result<AuthData, Failure>)
    ensures r == Parse(program, utf8, data)
  {
    if |data| < 37 {
      return Err(TooShort);
    }
    var flags := ReadFlags(data[32]);
    var attested: Option<Attested> := None;
    if AT in flags {
      var a := ParseAttested(utf8, data);
      if a.Err? {
        return Err(a.error);
      }
      attested := Some(a.value);
    }
    r := Assemble(program, utf8, data, flags, attested);
  }

  method Assemble(program: Program, utf8: Utf8, data: seq<byte>, flags: set<Flag>,
                  attested: Option<Attested>)
    returns (r: Result<AuthData, Failure>)
    requires |data| >= 37 && flags == Flags(data[32], 8)
    ensures r == Assembled(program, utf8, data, attested)
  {
    var signCount := BigEndian(data[33..37]);
    var extensions: Option<Value> := None;
    if ED in flags {
      var attestedLength := if attested.Some? then attested.value.length else 0;
      var ext := ParseExtensions(utf8, data, 37 + attestedLength);
      if ext.Err? {
        return Err(ext.error);
      }
      extensions := Some(ext.value);
    }
    if attested.None? {
      return Ok(AuthData(data[..32], flags, signCount, None, None, None, extensions));
    }
    return Ok(AuthData(data[..32], flags, signCount,
                       Field(program, attested.value.aaguid), Field(program, attested.value.credId),
                       Field(program, attested.value.coseKey), extensions));
  }

  /** The public key, decoded again from its bytes; absent or empty bytes give none. */
  method GetPubKey(utf8: Utf8, a: AuthData) returns (key: Result<Value, ParseError>)
    ensures a.pubKeyBytes.None? || a.pubKeyBytes.value == [] ==> key == Ok(PyNone)
    ensures a.pubKeyBytes.Some? && a.pubKeyBytes.value != [] ==>
              match ReadValue(utf8, a.pubKeyBytes.value, 0)
              case Done(value, _) => key == Ok(value)
              case Raised(error) => key == Err(error)
  {
    if a.pubKeyBytes.Some? && a.pubKeyBytes.value != [] {
      key := Loads(utf8, a.pubKeyBytes.value);
    } else {
      key := Ok(PyNone);
    }
  }

  // ---------- serialising ----------

  ghost function Header(rpIdHash: seq<byte>, flags: byte, signCount: nat): seq<byte> {
    rpIdHash + [flags] + ToBytes(signCount, 4)
  }

  function AttestedData(aaguid: seq<byte>, credId: seq<byte>, key: seq<byte>): (b: seq<byte>)
    ensures |b| == |aaguid| + 2 + |credId| + |key|
  {
    aaguid + ToBytes(|credId|, 2) + credId + key
  }

  lemma HeaderReadsBack(rpIdHash: seq<byte>, flags: byte, signCount: nat, rest: seq<byte>)
    requires |rpIdHash| == 32 && signCount < 0x1_0000_0000
    ensures var data := Header(rpIdHash, flags, signCount) + rest;
            && |data| == 37 + |rest|
            && data[..32] == rpIdHash && data[32] == flags
            && BigEndian(data[33..37]) == signCount && data[37..] == rest
  {
    var data := Header(rpIdHash, flags, signCount) + rest;
    assert data[33..37] == ToBytes(signCount, 4);
    FitsCapacity(signCount, Four);
    BytesReadBack(signCount, 4);
  }

  /** Where the parts of the attested data stand. */
  lemma AttestedLayout(
    header: seq<byte>, aaguid: seq<byte>, length: seq<byte>, credId: seq<byte>, rest: seq<byte>)
    requires |header| == 37 && |aaguid| == 16 && |length| == 2
    ensures var data := header + (aaguid + length + credId + rest);
            && |data| == 55 + |credId| + |rest|
            && Slice(data, 37, 53) == aaguid && data[53..55] == length
            && Slice(data, 55, 55 + |credId|) == credId
            && Slice(data, 55 + |credId|, 55 + |credId| + |data|) == rest
  {
    var data := header + (aaguid + length + credId + rest);
    assert data == header + aaguid + length + credId + rest;
    assert data[55 + |credId|..] == rest;
  }

  /** Attested data whose key bytes read as a value up to their own end is cut apart exactly. */
  lemma AttestedReadsBack(utf8: Utf8, header: seq<byte>, aaguid: seq<byte>, credId: seq<byte>,
                          key: seq<byte>, after: seq<byte>, value: Value)
    requires |header| == 37 && |aaguid| == 16 && |credId| < 0x1_0000
    requires ReadValue(utf8, key + after, 0) == Done(value, |key|)
    ensures ReadAttested(utf8, header + (AttestedData(aaguid, credId, key) + after)) ==
            Ok(Attested(aaguid, credId, key, 55 + |credId| + |key|))
  {
    var length := ToBytes(|credId|, 2);
    assert BigEndian(length) == |credId| by {
      FitsCapacity(|credId|, Two);
      BytesReadBack(|credId|, 2);
    }
    Associates(aaguid + length + credId, key, after);
    AttestedLayout(header, aaguid, length, credId, key + after);
    ReadsParts(utf8, header + (aaguid + length + credId + (key + after)), aaguid, credId, key, after, value);
  }

  lemma ReadsParts(utf8: Utf8, data: seq<byte>, aaguid: seq<byte>, credId: seq<byte>,
                   key: seq<byte>, after: seq<byte>, value: Value)
    requires |data| >= 55 && BigEndian(data[53..55]) == |credId|
    requires Slice(data, 37, 53) == aaguid && Slice(data, 55, 55 + |credId|) == credId
    requires Slice(data, 55 + |credId|, 55 + |credId| + |data|) == key + after
    requires ReadValue(utf8, key + after, 0) == Done(value, |key|)
    ensures ReadAttested(utf8, data) == Ok(Attested(aaguid, credId, key, 55 + |credId| + |key|))
  {
  }

  /** An encoding at the start of a buffer is read, and can be cut out, exactly. */
  lemma KeyIsCutOut(utf8: Utf8, key: Item, after: seq<byte>)
    requires WellFormed(utf8, key)
    ensures var code := Encode(utf8, key);
            && ReadValue(utf8, code + after, 0) == Done(ValueOf(utf8, key), |code|)
            && (code + after)[..|code|] == code && code != []
  {
    ReadsBack(utf8, key, [], after);
    EncodingsDecode(utf8, key);
    assert [] + Encode(utf8, key) == Encode(utf8, key);
  }

  lemma Associates(a: seq<byte>, b: seq<byte>, c: seq<byte>)
    ensures a + b + c == a + (b + c)
  {
  }

  /** With attested data and no extensions, every field comes back, the key bytes are exactly
      the embedded key whatever follows it, and they decode to the same value. */
  lemma AttestedRoundTrip(
    program: Program, utf8: Utf8, rpIdHash: seq<byte>, flags: byte, signCount: nat,
    aaguid: seq<byte>, credId: seq<byte>, key: Item, after: seq<byte>)
    requires |rpIdHash| == 32 && signCount < 0x1_0000_0000
    requires AT in Flags(flags, 8) && ED !in Flags(flags, 8)
    requires |aaguid| == 16 && |credId| < 0x1_0000 && WellFormed(utf8, key)
    ensures var data := Header(rpIdHash, flags, signCount)
                        + (AttestedData(aaguid, credId, Encode(utf8, key)) + after);
            Parse(program, utf8, data) ==
            Ok(AuthData(rpIdHash, Flags(flags, 8), signCount, Some(aaguid),
                        Field(program, credId), Some(Encode(utf8, key)), None))
    ensures ReadValue(utf8, Encode(utf8, key), 0) ==
            Done(ValueOf(utf8, key), |Encode(utf8, key)|)
  {
    HeaderReadsBack(rpIdHash, flags, signCount, AttestedData(aaguid, credId, Encode(utf8, key)) + after);
    KeyIsCutOut(utf8, key, after);
    AttestedReadsBack(utf8, Header(rpIdHash, flags, signCount), aaguid, credId,
                      Encode(utf8, key), after, ValueOf(utf8, key));
    KeyIsCutOut(utf8, key, []);
    assert Encode(utf8, key) + [] == Encode(utf8, key);
  }

  /** Whatever was accepted, the key bytes kept decode, and up to their own end: asking for the key
      never fails after a successful parse. */
  lemma AcceptedKeysDecode(program: Program, utf8: Utf8, data: seq<byte>)
    requires Parse(program, utf8, data).Ok?
    ensures var key := Parse(program, utf8, data).value.pubKeyBytes;
            key.Some? ==>
              var r := ReadValue(utf8, key.value, 0); r.Done? && r.pos == |key.value|
  {
    if AT in Flags(data[32], 8) {
      var a := ReadAttested(utf8, data);
      assert Parse(program, utf8, data) == Assembled(program, utf8, data, Some(a.value));
      AttestedKeyDecodes(utf8, data);
    }
  }

  lemma AttestedKeyDecodes(utf8: Utf8, data: seq<byte>)
    requires ReadAttested(utf8, data).Ok?
    ensures var key := ReadAttested(utf8, data).value.coseKey;
            var r := ReadValue(utf8, key, 0); r.Done? && r.pos == |key|
  {
    var length := BigEndian(data[53..55]);
    var rest := Slice(data, 55 + length, 55 + length + |data|);
    CborTruncation.ValueKept(utf8, rest, 0, ReadValue(utf8, rest, 0).pos);
  }

  /** The credential ID comes back exactly when it is not empty or the browser shim parses. */
  lemma CredentialIdComesBackIff(
    program: Program, utf8: Utf8, rpIdHash: seq<byte>, flags: byte, signCount: nat,
    aaguid: seq<byte>, credId: seq<byte>, key: Item, after: seq<byte>)
    requires |rpIdHash| == 32 && signCount < 0x1_0000_0000
    requires AT in Flags(flags, 8) && ED !in Flags(flags, 8)
    requires |aaguid| == 16 && |credId| < 0x1_0000 && WellFormed(utf8, key)
    ensures var r := Parse(program, utf8, Header(rpIdHash, flags, signCount)
                                          + (AttestedData(aaguid, credId, Encode(utf8, key)) + after));
            r.Ok? && (r.value.credId == Some(credId) <==> program.BrowserShim? || credId != [])
  {
    AttestedRoundTrip(program, utf8, rpIdHash, flags, signCount, aaguid, credId, key, after);
  }

  /** With neither part, as in an ordinary assertion, the header comes back and nothing else,
      whatever follows it. */
  lemma PlainRoundTrip(
    program: Program, utf8: Utf8, rpIdHash: seq<byte>, flags: byte, signCount: nat, after: seq<byte>)
    requires |rpIdHash| == 32 && signCount < 0x1_0000_0000
    requires AT !in Flags(flags, 8) && ED !in Flags(flags, 8)
    ensures Parse(program, utf8, Header(rpIdHash, flags, signCount) + after) ==
            Ok(AuthData(rpIdHash, Flags(flags, 8), signCount, None, None, None, None))
  {
    HeaderReadsBack(rpIdHash, flags, signCount, after);
  }

  /** Data is refused as too short exactly when the header, or the fixed part of announced attested
      data, is missing. */
  lemma TooShortIff(program: Program, utf8: Utf8, data: seq<byte>)
    ensures Parse(program, utf8, data) == Err(TooShort) <==>
            |data| < 37 || (AT in Flags(data[32], 8) && |data| < 55)
  {
  }

  /** Attested data fails exactly when its key does not decode, or decodes past the end. */
  lemma AttestedFailsIff(program: Program, utf8: Utf8, data: seq<byte>)
    requires |data| >= 55 && AT in Flags(data[32], 8)
    ensures var from := 55 + BigEndian(data[53..55]);
            var rest := if from < |data| then data[from..] else [];
            match ReadValue(utf8, rest, 0)
            case Raised(error) => Parse(program, utf8, data) == Err(BadCbor(error))
            case Done(_, p) =>
              if p > |rest| then Parse(program, utf8, data) == Err(CursorPastEnd)
              else ED !in Flags(data[32], 8) ==> Parse(program, utf8, data).Ok?
  {
  }

  /** With extensions only, the data is as good as what stands behind the header. */
  lemma ExtensionsFailIff(program: Program, utf8: Utf8, data: seq<byte>)
    requires |data| >= 37 && AT !in Flags(data[32], 8) && ED in Flags(data[32], 8)
    ensures match ReadValue(utf8, data[37..], 0)
            case Raised(error) => Parse(program, utf8, data) == Err(BadCbor(error))
            case Done(value, _) =>
              && Parse(program, utf8, data).Ok?
              && Parse(program, utf8, data).value.extensions == Some(value)
              && Parse(program, utf8, data).value.pubKeyBytes == None
  {
    assert Slice(data, 37, 37 + |data|) == data[37..];
  }

  /** With extensions and no attested data, the extensions come back. */
  lemma ExtensionsRoundTrip(
    program: Program, utf8: Utf8, rpIdHash: seq<byte>, flags: byte, signCount: nat,
    extensions: Item, after: seq<byte>)
    requires |rpIdHash| == 32 && signCount < 0x1_0000_0000
    requires AT !in Flags(flags, 8) && ED in Flags(flags, 8)
    requires WellFormed(utf8, extensions)
    ensures var data := Header(rpIdHash, flags, signCount) + (Encode(utf8, extensions) + after);
            Parse(program, utf8, data) ==
            Ok(AuthData(rpIdHash, Flags(flags, 8), signCount, None, None, None,
                        Some(ValueOf(utf8, extensions))))
  {
    var rest := Encode(utf8, extensions) + after;
    HeaderReadsBack(rpIdHash, flags, signCount, rest);
    var data := Header(rpIdHash, flags, signCount) + rest;
    assert Slice(data, 37, 37 + |data|) == rest;
    KeyIsCutOut(utf8, extensions, after);
  }

  /** With both, the header is counted twice: the first 37 bytes after the attested data are
      skipped, and the extensions are read from what follows them. */
  lemma BothPartsSkipBytes(
    program: Program, utf8: Utf8, rpIdHash: seq<byte>, flags: byte, signCount: nat,
    aaguid: seq<byte>, credId: seq<byte>, key: Item, rest: seq<byte>)
    requires |rpIdHash| == 32 && signCount < 0x1_0000_0000
    requires AT in Flags(flags, 8) && ED in Flags(flags, 8)
    requires |aaguid| == 16 && |credId| < 0x1_0000 && WellFormed(utf8, key)
    ensures var data := Header(rpIdHash, flags, signCount)
                        + (AttestedData(aaguid, credId, Encode(utf8, key)) + rest);
            Parse(program, utf8, data) ==
            match ReadValue(utf8, if |rest| < 37 then [] else rest[37..], 0)
            case Raised(error) => Err(BadCbor(error))
            case Done(value, _) =>
              Ok(AuthData(rpIdHash, Flags(flags, 8), signCount, Some(aaguid),
                          Field(program, credId), Some(Encode(utf8, key)), Some(value)))
  {
    var header, code := Header(rpIdHash, flags, signCount), Encode(utf8, key);
    var body, tail := AttestedData(aaguid, credId, code), if |rest| < 37 then [] else rest[37..];
    var data, a := header + (body + rest), Attested(aaguid, credId, code, 55 + |credId| + |code|);
    HeaderReadsBack(rpIdHash, flags, signCount, body + rest);
    assert ReadAttested(utf8, data) == Ok(a) && code != [] by {
      KeyIsCutOut(utf8, key, rest);
      AttestedReadsBack(utf8, header, aaguid, credId, code, rest, ValueOf(utf8, key));
    }
    assert Slice(data, 37 + a.length, 37 + a.length + |data|) == tail by {
      SkipsBytes(header, body, rest);
    }
    ParsesBoth(program, utf8, data, rpIdHash, flags, signCount, a, tail);
  }

  lemma ParsesBoth(program: Program, utf8: Utf8, data: seq<byte>, rpIdHash: seq<byte>, flags: byte,
                   signCount: nat, a: Attested, tail: seq<byte>)
    requires |data| >= 37 && AT in Flags(flags, 8) && ED in Flags(flags, 8)
    requires data[..32] == rpIdHash && data[32] == flags && BigEndian(data[33..37]) == signCount
    requires ReadAttested(utf8, data) == Ok(a) && a.aaguid != [] && a.coseKey != []
    requires Slice(data, 37 + a.length, 37 + a.length + |data|) == tail
    ensures Parse(program, utf8, data) ==
            match ReadValue(utf8, tail, 0)
            case Raised(error) => Err(BadCbor(error))
            case Done(value, _) =>
              Ok(AuthData(rpIdHash, Flags(flags, 8), signCount, Some(a.aaguid),
                          Field(program, a.credId), Some(a.coseKey), Some(value)))
  {
    assert Parse(program, utf8, data) == Assembled(program, utf8, data, Some(a));
    ReadsTail(utf8, data, 37 + a.length, tail);
  }

  lemma ReadsTail(utf8: Utf8, data: seq<byte>, from: nat, tail: seq<byte>)
    requires Slice(data, from, from + |data|) == tail
    ensures ReadExtensions(utf8, data, from) ==
            match ReadValue(utf8, tail, 0)
            case Raised(error) => Err(BadCbor(error))
            case Done(value, _) => Ok(value)
  {
  }

  lemma SkipsBytes(header: seq<byte>, body: seq<byte>, rest: seq<byte>)
    requires |header| == 37
    ensures var data := header + (body + rest);
            Slice(data, 74 + |body|, 74 + |body| + |data|) == if |rest| < 37 then [] else rest[37..]
  {
    var data := header + (body + rest);
    assert data == header + body + rest;
    if |rest| >= 37 {
      assert data[74 + |body|..] == rest[37..];
    }
  }

  /** So extensions are read where 37 bytes too many precede them. */
  lemma DisplacedExtensionsComeBack(
    program: Program, utf8: Utf8, rpIdHash: seq<byte>, flags: byte, signCount: nat,
    aaguid: seq<byte>, credId: seq<byte>, key: Item,
    skipped: seq<byte>, extensions: Item, after: seq<byte>)
    requires |rpIdHash| == 32 && signCount < 0x1_0000_0000
    requires AT in Flags(flags, 8) && ED in Flags(flags, 8)
    requires |aaguid| == 16 && |credId| < 0x1_0000 && WellFormed(utf8, key)
    requires |skipped| == 37 && WellFormed(utf8, extensions)
    ensures var data := Header(rpIdHash, flags, signCount)
                        + (AttestedData(aaguid, credId, Encode(utf8, key))
                           + (skipped + (Encode(utf8, extensions) + after)));
            Parse(program, utf8, data) ==
            Ok(AuthData(rpIdHash, Flags(flags, 8), signCount, Some(aaguid), Field(program, credId),
                        Some(Encode(utf8, key)), Some(ValueOf(utf8, extensions))))
  {
    var rest := skipped + (Encode(utf8, extensions) + after);
    BothPartsSkipBytes(program, utf8, rpIdHash, flags, signCount, aaguid, credId, key, rest);
    assert rest[37..] == Encode(utf8, extensions) + after;
    KeyIsCutOut(utf8, extensions, after);
  }

  /** Where they belong, right after the key, extensions that end within 37 bytes with all that
      follows them read as nothing, which is right only for the null item. */
  lemma BothPartsLoseShortExtensions(
    program: Program, utf8: Utf8, rpIdHash: seq<byte>, flags: byte, signCount: nat,
    aaguid: seq<byte>, credId: seq<byte>, key: Item, extensions: Item, after: seq<byte>)
    requires |rpIdHash| == 32 && signCount < 0x1_0000_0000
    requires AT in Flags(flags, 8) && ED in Flags(flags, 8)
    requires |aaguid| == 16 && |credId| < 0x1_0000 && WellFormed(utf8, key)
    requires WellFormed(utf8, extensions) && |Encode(utf8, extensions)| + |after| <= 37
    ensures var data := Header(rpIdHash, flags, signCount)
                        + (AttestedData(aaguid, credId, Encode(utf8, key))
                           + (Encode(utf8, extensions) + after));
            var r := Parse(program, utf8, data);
            && r.Ok? && r.value.pubKeyBytes == Some(Encode(utf8, key))
            && r.value.extensions == Some(PyNone)
            && (r.value.extensions == Some(ValueOf(utf8, extensions)) <==> extensions.Null?)
  {
    var rest := Encode(utf8, extensions) + after;
    BothPartsSkipBytes(program, utf8, rpIdHash, flags, signCount, aaguid, credId, key, rest);
    assert |rest| == 37 ==> rest[37..] == [];
  }
}
