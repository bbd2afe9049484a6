/** The CBOR decoder: a recursive parser over a byte buffer with one cursor. `ReadValue` and the
    functions around it say what the parser does from a cursor position; `CborParser.Parser` is
    the parser with its cursor, proved to do exactly that. */
module Cbor {
  import opened Basics

  /** The values a parse produces. A dictionary keeps the order in which its keys came in. */
  datatype Value =
    | PyNone
    | PyBool(flag: bool)
    | PyInt(n: int)
    | PyBytes(bytes: seq<byte>)
    | PyStr(str: string)
    | PyList(items: seq<Value>)
    | PyDict(entries: seq<Entry>)

  datatype Entry = Entry(key: Value, value: Value)

  datatype ParseError =
    | TruncatedHead      // the argument bytes are missing
    | ReservedHead       // additional information 28 to 30
    | OutOfRange         // indexing past the end, as when a break is missing
    | BadText            // not UTF-8
    | WrongType          // an operation the value does not support
    | MissingKey
    | Unsupported        // tags, floats, other simple values

  /** Decoding UTF-8, which may fail. */
  type Utf8 = seq<byte> -> Option<string>

  /** What reading from a position gives: a value and the position after it, or an exception. */
  datatype Outcome = Done(value: Value, pos: nat) | Raised(error: ParseError)

  function Left(data: seq<byte>, pos: nat): nat {
    if pos < |data| then |data| - pos else 0
  }

  /** A slice, cut off at the end of the buffer. */
  function Slice(data: seq<byte>, from: nat, to: nat): seq<byte>
    requires from <= to
  {
    if from >= |data| then [] else if to >= |data| then data[from..] else data[from..to]
  }

  function BigEndian(bytes: seq<byte>): nat {
    if bytes == [] then 0
    else 256 * BigEndian(bytes[..|bytes| - 1]) + bytes[|bytes| - 1] as nat
  }

  // ---------- heads ----------

  /** The major type, the argument (`None` for indefinite lengths), and its length in bytes. */
  datatype Head = Head(major: nat, argument: Option<nat>, length: nat)

  function ArgumentLength(info: nat): nat {
    match info
    case 24 => 1
    case 25 => 2
    case 26 => 4
    case 27 => 8
    case _ => 0
  }

  function ReadHead(data: seq<byte>, pos: nat): Result<Head, ParseError>
    requires pos < |data|
  {
    var info, major := data[pos] as nat % 32, data[pos] as nat / 32;
    if info < 24 then Ok(Head(major, Some(info), 0))
    else if info <= 27 then
      var k := ArgumentLength(info);
      if pos + 1 + k > |data| then Err(TruncatedHead)
      else Ok(Head(major, Some(BigEndian(data[pos + 1..pos + 1 + k])), k))
    else if info == 31 then Ok(Head(major, None, 0))
    else Err(ReservedHead)
  }

  // ---------- dictionaries ----------

  predicate Hashable(v: Value) { !v.PyList? && !v.PyDict? }

  function Number(v: Value): Option<int> {
    match v
    case PyInt(n) => Some(n)
    case PyBool(b) => Some(if b then 1 else 0)
    case _ => None
  }

  /** Keys are the same if they are equal; booleans equal the numbers 0 and 1. */
  predicate SameKey(a: Value, b: Value) {
    a == b || (Number(a).Some? && Number(a) == Number(b))
  }

  function Put(entries: seq<Entry>, key: Value, value: Value): seq<Entry> {
    if entries == [] then [Entry(key, value)]
    else if SameKey(entries[0].key, key) then [Entry(entries[0].key, value)] + entries[1..]
    else [entries[0]] + Put(entries[1..], key, value)
  }

  function Lookup(entries: seq<Entry>, key: Value): Option<Value> {
    if entries == [] then None
    else if SameKey(entries[0].key, key) then Some(entries[0].value)
    else Lookup(entries[1..], key)
  }

  /** Element zero of a value, as the parser takes it from the chunks of an indefinite byte
      string, when that is text. */
  function ZeroAsText(v: Value): Result<string, ParseError> {
    match v
    case PyStr(s) => if s == "" then Err(OutOfRange) else Ok([s[0]])
    case PyBytes(b) => if b == [] then Err(OutOfRange) else Err(WrongType)
    case PyList(items) =>
      if items == [] then Err(OutOfRange)
      else if items[0].PyStr? then Ok(items[0].str) else Err(WrongType)
    case PyDict(entries) =>
      (match Lookup(entries, PyInt(0))
       case None => Err(MissingKey)
       case Some(w) => if w.PyStr? then Ok(w.str) else Err(WrongType))
    case _ => Err(WrongType)
  }

  // ---------- reading ----------

  function ReadValue(utf8: Utf8, data: seq<byte>, pos: nat): (r: Outcome)
    ensures r.Done? ==> pos <= r.pos && (pos < |data| ==> pos < r.pos)
    decreases Left(data, pos), 0, 0
  {
    if pos >= |data| then Done(PyNone, pos)
    else match ReadHead(data, pos)
      case Err(error) => Raised(error)
      case Ok(head) => ReadBody(utf8, data, pos + 1 + head.length, head)
  }

  /** What `parse` does with the cursor at `pos`: it always takes the head from the first byte,
      and the rest from behind the cursor. */
  function ReadWhole(utf8: Utf8, data: seq<byte>, pos: nat): (r: Outcome)
    ensures r.Done? ==> pos <= r.pos
  {
    if data == [] then Done(PyNone, pos)
    else match ReadHead(data, 0)
      case Err(error) => Raised(error)
      case Ok(head) => ReadBody(utf8, data, pos + 1 + head.length, head)
  }

  /** What follows the head. */
  function ReadBody(utf8: Utf8, data: seq<byte>, pos: nat, head: Head): (r: Outcome)
    ensures r.Done? ==> pos <= r.pos
    decreases Left(data, pos), 3, 0
  {
    match (head.major, head.argument)
    case (0, None) => Done(PyNone, pos)
    case (0, Some(n)) => Done(PyInt(n), pos)
    case (1, None) => Raised(WrongType)
    case (1, Some(n)) => Done(PyInt(-1 - (n as int)), pos)
    case (2, None) => ReadByteChunks(utf8, data, pos, "")
    case (2, Some(n)) => Done(PyBytes(Slice(data, pos, pos + n)), pos + n)
    case (3, None) => ReadTextChunks(utf8, data, pos, "")
    case (3, Some(n)) =>
      (match utf8(Slice(data, pos, pos + n))
       case None => Raised(BadText)
       case Some(s) => Done(PyStr(s), pos + n))
    case (4, None) => ReadItemsToBreak(utf8, data, pos, [])
    case (4, Some(n)) => ReadItems(utf8, data, pos, n, [])
    case (5, None) => ReadEntriesToBreak(utf8, data, pos, [])
    case (5, Some(n)) => ReadEntries(utf8, data, pos, n, [])
    case (7, Some(20)) => Done(PyBool(false), pos)
    case (7, Some(21)) => Done(PyBool(true), pos)
    case (7, Some(22)) => Done(PyNone, pos)
    case (7, Some(23)) => Done(PyNone, pos)
    case _ => Raised(Unsupported)
  }

  function ReadByteChunks(utf8: Utf8, data: seq<byte>, pos: nat, acc: string): (r: Outcome)
    ensures r.Done? ==> pos <= r.pos
    decreases Left(data, pos), 1, 0
  {
    if pos >= |data| then Raised(OutOfRange)
    else if data[pos] == 0xff then Done(PyStr(acc), pos + 1)
    else match ReadValue(utf8, data, pos)
      case Raised(error) => Raised(error)
      case Done(v, p) =>
        match ZeroAsText(v)
        case Err(error) => Raised(error)
        case Ok(s) => ReadByteChunks(utf8, data, p, acc + s)
  }

  function ReadTextChunks(utf8: Utf8, data: seq<byte>, pos: nat, acc: string): (r: Outcome)
    ensures r.Done? ==> pos <= r.pos
    decreases Left(data, pos), 1, 0
  {
    if pos >= |data| then Raised(OutOfRange)
    else if data[pos] == 0xff then Done(PyStr(acc), pos + 1)
    else match ReadValue(utf8, data, pos)
      case Raised(error) => Raised(error)
      case Done(v, p) =>
        if v.PyStr? then ReadTextChunks(utf8, data, p, acc + v.str) else Raised(WrongType)
  }

  function ReadItems(utf8: Utf8, data: seq<byte>, pos: nat, n: nat, acc: seq<Value>): (r: Outcome)
    ensures r.Done? ==> pos <= r.pos
    decreases Left(data, pos), 1, n
  {
    if n == 0 then Done(PyList(acc), pos)
    else match ReadValue(utf8, data, pos)
      case Raised(error) => Raised(error)
      case Done(v, p) => ReadItems(utf8, data, p, n - 1, acc + [v])
  }

  function ReadItemsToBreak(utf8: Utf8, data: seq<byte>, pos: nat, acc: seq<Value>): (r: Outcome)
    ensures r.Done? ==> pos <= r.pos
    decreases Left(data, pos), 1, 0
  {
    if pos >= |data| then Raised(OutOfRange)
    else if data[pos] == 0xff then Done(PyList(acc), pos + 1)
    else match ReadValue(utf8, data, pos)
      case Raised(error) => Raised(error)
      case Done(v, p) => ReadItemsToBreak(utf8, data, p, acc + [v])
  }

  /** A key, a value, and the dictionary with them put in. */
  function ReadEntry(utf8: Utf8, data: seq<byte>, pos: nat, acc: seq<Entry>)
    : (r: Result<(seq<Entry>, nat), ParseError>)
    ensures r.Ok? ==> pos <= r.value.1 && (pos < |data| ==> pos < r.value.1)
    decreases Left(data, pos), 1, 0
  {
    match ReadValue(utf8, data, pos)
    case Raised(error) => Err(error)
    case Done(key, p) =>
      match ReadValue(utf8, data, p)
      case Raised(error) => Err(error)
      case Done(value, q) => if Hashable(key) then Ok((Put(acc, key, value), q)) else Err(WrongType)
  }

  function ReadEntries(utf8: Utf8, data: seq<byte>, pos: nat, n: nat, acc: seq<Entry>): (r: Outcome)
    ensures r.Done? ==> pos <= r.pos
    decreases Left(data, pos), 2, n
  {
    if n == 0 then Done(PyDict(acc), pos)
    else match ReadEntry(utf8, data, pos, acc)
      case Err(error) => Raised(error)
      case Ok((entries, p)) => ReadEntries(utf8, data, p, n - 1, entries)
  }

  function ReadEntriesToBreak(utf8: Utf8, data: seq<byte>, pos: nat, acc: seq<Entry>): (r: Outcome)
    ensures r.Done? ==> pos <= r.pos
    decreases Left(data, pos), 2, 0
  {
    if pos >= |data| then Raised(OutOfRange)
    else if data[pos] == 0xff then Done(PyDict(acc), pos + 1)
    else match ReadEntry(utf8, data, pos, acc)
      case Err(error) => Raised(error)
      case Ok((entries, p)) => ReadEntriesToBreak(utf8, data, p, entries)
  }

  /** A new parser reads the first value. One that has been used takes the head of the first value
      again: parsing the two bytes of 0 and 1 twice gives 0 twice. */
  lemma OnlyTheFirstParseReads(utf8: Utf8, data: seq<byte>)
    ensures ReadWhole(utf8, data, 0) == ReadValue(utf8, data, 0)
    ensures var two: seq<byte> := [0x00, 0x01];
            ReadWhole(utf8, two, 1) == Done(PyInt(0), 2) && ReadValue(utf8, two, 1) == Done(PyInt(1), 2)
  {
  }

  /** A used parser reads the value at its cursor whenever the first head happens to be the same. */
  lemma UsedParserReadsAfterEqualHeads(utf8: Utf8, data: seq<byte>, pos: nat)
    requires pos < |data| && ReadHead(data, 0) == ReadHead(data, pos)
    ensures ReadWhole(utf8, data, pos) == ReadValue(utf8, data, pos)
  {
  }

  /** It may do so with another head: null and undefined both read as nothing. Whether the values
      agree is a matter of what the bytes stand for. */
  lemma DifferentHeadsMayAgree(utf8: Utf8)
    ensures var two: seq<byte> := [0xf6, 0xf7];
            && ReadHead(two, 0) != ReadHead(two, 1)
            && ReadWhole(utf8, two, 1) == ReadValue(utf8, two, 1) == Done(PyNone, 2)
  {
    var two: seq<byte> := [0xf6, 0xf7];
    assert ReadHead(two, 0) == Ok(Head(7, Some(22), 0));
    assert ReadHead(two, 1) == Ok(Head(7, Some(23), 0));
  }
}
