/** The parser object: a buffer and one cursor that every read moves. */
module CborParser {
  import opened Basics
  import Spec = Cbor

  type Value = Spec.Value
  type ParseError = Spec.ParseError

  /** The result of a read and the cursor after it are what the specification gives; after an
      exception the cursor no longer matters. */
  ghost predicate Agrees(r: Result<Value, ParseError>, pos: nat, spec: Spec.Outcome) {
    match spec
    case Done(value, p) => r == Ok(value) && pos == p
    case Raised(error) => r == Err(error)
  }

  class Parser {
    const utf8: Spec.Utf8
    const data: seq<byte>
    var pos: nat

    constructor (utf8: Spec.Utf8, data: seq<byte>)
      ensures this.utf8 == utf8 && this.data == data && pos == 0
    {
      this.utf8, this.data, pos := utf8, data, 0;
    }

    /** Reads from the whole buffer: the head is always the first one. */
    method Parse() returns (r: Result<Value, ParseError>)
      modifies this`pos
      ensures Agrees(r, pos, Spec.ReadWhole(utf8, data, old(pos)))
      ensures old(pos) <= pos
    {
      if data == [] {
        return Ok(Spec.PyNone);
      }
      var head := Spec.ReadHead(data, 0);
      if head.Err? {
        return Err(head.error);
      }
      pos := pos + 1;
      pos := pos + head.value.length;
      r := ReadBody(head.value);
    }

    /** Reads one value at the cursor. The cursor never goes back, and it moves on whenever
        there was something to read. */
    method ReadValue() returns (r: Result<Value, ParseError>)
      modifies this`pos
      ensures Agrees(r, pos, Spec.ReadValue(utf8, data, old(pos)))
      ensures old(pos) <= pos && (r.Ok? && old(pos) < |data| ==> old(pos) < pos)
      decreases Spec.Left(data, pos), 0
    {
      if pos >= |data| {
        return Ok(Spec.PyNone);
      }
      var head := Spec.ReadHead(data, pos);
      if head.Err? {
        return Err(head.error);
      }
      pos := pos + 1;
      pos := pos + head.value.length;
      r := ReadBody(head.value);
    }

    /** What follows a head. */
    method ReadBody(head: Spec.Head) returns (r: Result<Value, ParseError>)
      modifies this`pos
      ensures Agrees(r, pos, Spec.ReadBody(utf8, data, old(pos), head))
      ensures old(pos) <= pos
      decreases Spec.Left(data, pos), 3
    {
      match (head.major, head.argument) {
        case (0, Some(n)) => r := Ok(Spec.PyInt(n));
        case (0, None) => r := Ok(Spec.PyNone);
        case (1, Some(n)) => r := Ok(Spec.PyInt(-1 - (n as int)));
        case (1, None) => r := Err(Spec.WrongType);
        case (2, Some(n)) =>
          r := Ok(Spec.PyBytes(Spec.Slice(data, pos, pos + n)));
          pos := pos + n;
        case (2, None) => r := ReadByteChunks();
        case (3, Some(n)) =>
          var text := utf8(Spec.Slice(data, pos, pos + n));
          pos := pos + n;
          r := match text case Some(s) => Ok(Spec.PyStr(s)) case None => Err(Spec.BadText);
        case (3, None) => r := ReadTextChunks();
        case (4, Some(n)) => r := ReadItems(n);
        case (4, None) => r := ReadItemsToBreak();
        case (5, Some(n)) => r := ReadEntries(n);
        case (5, None) => r := ReadEntriesToBreak();
        case (7, Some(20)) => r := Ok(Spec.PyBool(false));
        case (7, Some(21)) => r := Ok(Spec.PyBool(true));
        case (7, Some(22)) => r := Ok(Spec.PyNone);
        case (7, Some(23)) => r := Ok(Spec.PyNone);
        case _ => r := Err(Spec.Unsupported);
      }
    }

    method ReadByteChunks() returns (r: Result<Value, ParseError>)
      modifies this`pos
      ensures Agrees(r, pos, Spec.ReadByteChunks(utf8, data, old(pos), ""))
      ensures old(pos) <= pos
      decreases Spec.Left(data, pos), 1
    {
      var value := "";
      while pos < |data| && data[pos] != 0xff
        invariant old(pos) <= pos
        invariant Spec.ReadByteChunks(utf8, data, old(pos), "") ==
                  Spec.ReadByteChunks(utf8, data, pos, value)
        decreases Spec.Left(data, pos)
      {
        var chunk := ReadValue();
        if chunk.Err? {
          return chunk;
        }
        var text := Spec.ZeroAsText(chunk.value);
        if text.Err? {
          return Err(text.error);
        }
        value := value + text.value;
      }
      if pos >= |data| {
        return Err(Spec.OutOfRange);
      }
      pos := pos + 1;
      return Ok(Spec.PyStr(value));
    }

    method ReadTextChunks() returns (r: Result<Value, ParseError>)
      modifies this`pos
      ensures Agrees(r, pos, Spec.ReadTextChunks(utf8, data, old(pos), ""))
      ensures old(pos) <= pos
      decreases Spec.Left(data, pos), 1
    {
      var value := "";
      while pos < |data| && data[pos] != 0xff
        invariant old(pos) <= pos
        invariant Spec.ReadTextChunks(utf8, data, old(pos), "") ==
                  Spec.ReadTextChunks(utf8, data, pos, value)
        decreases Spec.Left(data, pos)
      {
        var chunk := ReadValue();
        if chunk.Err? {
          return chunk;
        }
        if !chunk.value.PyStr? {
          return Err(Spec.WrongType);
        }
        value := value + chunk.value.str;
      }
      if pos >= |data| {
        return Err(Spec.OutOfRange);
      }
      pos := pos + 1;
      return Ok(Spec.PyStr(value));
    }

    method ReadItems(n: nat) returns (r: Result<Value, ParseError>)
      modifies this`pos
      ensures Agrees(r, pos, Spec.ReadItems(utf8, data, old(pos), n, []))
      ensures old(pos) <= pos
      decreases Spec.Left(data, pos), 1
    {
      var items: seq<Value> := [];
      for i := 0 to n
        invariant old(pos) <= pos
        invariant Spec.ReadItems(utf8, data, old(pos), n, []) ==
                  Spec.ReadItems(utf8, data, pos, n - i, items)
      {
        var item := ReadValue();
        if item.Err? {
          return item;
        }
        items := items + [item.value];
      }
      return Ok(Spec.PyList(items));
    }

    method ReadItemsToBreak() returns (r: Result<Value, ParseError>)
      modifies this`pos
      ensures Agrees(r, pos, Spec.ReadItemsToBreak(utf8, data, old(pos), []))
      ensures old(pos) <= pos
      decreases Spec.Left(data, pos), 1
    {
      var items: seq<Value> := [];
      while pos < |data| && data[pos] != 0xff
        invariant old(pos) <= pos
        invariant Spec.ReadItemsToBreak(utf8, data, old(pos), []) ==
                  Spec.ReadItemsToBreak(utf8, data, pos, items)
        decreases Spec.Left(data, pos)
      {
        var item := ReadValue();
        if item.Err? {
          return item;
        }
        items := items + [item.value];
      }
      if pos >= |data| {
        return Err(Spec.OutOfRange);
      }
      pos := pos + 1;
      return Ok(Spec.PyList(items));
    }

    /** Reads a key and a value and puts them into the dictionary. */
    method ReadEntry(entries: seq<Spec.Entry>) returns (r: Result<seq<Spec.Entry>, ParseError>)
      modifies this`pos
      ensures match Spec.ReadEntry(utf8, data, old(pos), entries)
              case Ok((entries', p)) => r == Ok(entries') && pos == p
              case Err(error) => r == Err(error)
      ensures old(pos) <= pos
      decreases Spec.Left(data, pos), 1
    {
      var key := ReadValue();
      if key.Err? {
        return Err(key.error);
      }
      var value := ReadValue();
      if value.Err? {
        return Err(value.error);
      }
      if !Spec.Hashable(key.value) {
        return Err(Spec.WrongType);
      }
      return Ok(Spec.Put(entries, key.value, value.value));
    }

    method ReadEntries(n: nat) returns (r: Result<Value, ParseError>)
      modifies this`pos
      ensures Agrees(r, pos, Spec.ReadEntries(utf8, data, old(pos), n, []))
      ensures old(pos) <= pos
      decreases Spec.Left(data, pos), 2
    {
      var entries: seq<Spec.Entry> := [];
      for i := 0 to n
        invariant old(pos) <= pos
        invariant Spec.ReadEntries(utf8, data, old(pos), n, []) ==
                  Spec.ReadEntries(utf8, data, pos, n - i, entries)
      {
        var next := ReadEntry(entries);
        if next.Err? {
          return Err(next.error);
        }
        entries := next.value;
      }
      return Ok(Spec.PyDict(entries));
    }

    method ReadEntriesToBreak() returns (r: Result<Value, ParseError>)
      modifies this`pos
      ensures Agrees(r, pos, Spec.ReadEntriesToBreak(utf8, data, old(pos), []))
      ensures old(pos) <= pos
      decreases Spec.Left(data, pos), 2
    {
      var entries: seq<Spec.Entry> := [];
      while pos < |data| && data[pos] != 0xff
        invariant old(pos) <= pos
        invariant Spec.ReadEntriesToBreak(utf8, data, old(pos), []) ==
                  Spec.ReadEntriesToBreak(utf8, data, pos, entries)
        decreases Spec.Left(data, pos)
      {
        var next := ReadEntry(entries);
        if next.Err? {
          return Err(next.error);
        }
        entries := next.value;
      }
      if pos >= |data| {
        return Err(Spec.OutOfRange);
      }
      pos := pos + 1;
      return Ok(Spec.PyDict(entries));
    }
  }

  /** Parses the first value of a buffer; what follows it is ignored. */
  method Loads(utf8: Spec.Utf8, data: seq<byte>) returns (r: Result<Value, ParseError>)
    ensures match Spec.ReadValue(utf8, data, 0)
            case Done(value, _) => r == Ok(value)
            case Raised(error) => r == Err(error)
  {
    var parser := new Parser(utf8, data);
    Spec.OnlyTheFirstParseReads(utf8, data);
    r := parser.Parse();
  }
}
