/** Handing a secret over through one memory-mapped page. The writer maps a whole page; the
    reader takes its bound from the length of the file. */
module SecretPage {
  import opened Basics

  const PAGE: nat := 4096

  function Min(a: nat, b: nat): nat { if a < b then a else b }

  /** A file of one page behind a descriptor, with the length it was given. */
  class SecretFile {
    const page: array<byte>
    const length: nat

    constructor (length: nat)
      ensures this.length == length && page.Length == PAGE && fresh(page)
    {
      this.length := length;
      page := new byte[PAGE](_ => 0);
    }
  }

  /** Writing `n` more bytes behind the first `end` ones. */
  lemma Appended(page: seq<byte>, start: nat, buf: seq<byte>, end: nat, n: nat)
    requires start + end + n <= |page| && end + n <= |buf|
    ensures var before := page[..start] + buf[..end] + page[start + end..];
            before[..start + end] + buf[end..][..n] + before[start + end + n..] ==
            page[..start] + buf[..end + n] + page[start + end + n..]
  {
    var before := page[..start] + buf[..end] + page[start + end..];
    assert buf[..end + n] == buf[..end] + buf[end..][..n];
    assert before[..start + end] == page[..start] + buf[..end];
    assert before[start + end + n..] == page[start + end + n..];
  }

  class Mmap {
    const page: array<byte>
    const size: nat
    var pos: nat

    ghost predicate Valid()
      reads this
    {
      size == page.Length == PAGE && pos <= size
    }

    constructor (file: SecretFile)
      requires file.page.Length == PAGE
      ensures Valid() && page == file.page && pos == 0
    {
      page, size, pos := file.page, PAGE, 0;
    }

    /** Copies as much of the buffer as fits behind the cursor. */
    method Write(buf: seq<byte>) returns (n: nat)
      requires Valid()
      modifies this`pos, page
      ensures Valid() && n == Min(size - old(pos), |buf|) && pos == old(pos) + n
      ensures page[..] == old(page[..pos]) + buf[..n] + old(page[..])[pos..]
    {
      var remaining := size - pos;
      if remaining == 0 {
        return 0;
      }
      n := Min(remaining, |buf|);
      forall i | 0 <= i < n {
        page[pos + i] := buf[i];
      }
      pos := pos + n;
    }

    /** Writes until the buffer is used up; a write of nothing is an error. */
    method WriteAll(buf: seq<byte>) returns (written: bool)
      requires Valid()
      modifies this`pos, page
      ensures Valid()
      ensures written <==> |buf| <= size - old(pos)
      ensures written ==>
                pos == old(pos) + |buf|
                && page[..] == old(page[..pos]) + buf + old(page[..])[pos..]
    {
      var done := 0;
      while done < |buf|
        invariant Valid() && done <= |buf| && pos == old(pos) + done
        invariant page[..] == old(page[..pos]) + buf[..done] + old(page[..])[pos..]
      {
        ghost var end := done;
        var n := Write(buf[done..]);
        if n == 0 {
          return false;
        }
        done := done + n;
        Appended(old(page[..]), old(pos), buf, end, n);
      }
      assert buf[..done] == buf;
      return true;
    }
  }

  /** The part of `write_secret` that decides: values larger than a page are refused. */
  method WriteSecret(secret: seq<byte>) returns (file: Option<SecretFile>)
    ensures file.Some? <==> |secret| <= PAGE
    ensures file.Some? ==>
              && fresh(file.value) && fresh(file.value.page) && file.value.page.Length == PAGE
              && file.value.length == |secret| && file.value.page[..|secret|] == secret
  {
    if |secret| > PAGE {
      return None;
    }
    var f := new SecretFile(|secret|);
    var mem := new Mmap(f);
    var written := mem.WriteAll(secret);
    assert f.page[..][..|secret|] == secret;
    return Some(f);
  }

  /** How one read ends: `OutsidePage` is a copy that would leave the mapped page. */
  datatype ReadResult = Read(count: nat) | OutsidePage

  class MmapReader {
    const page: array<byte>
    const size: nat
    var pos: nat

    ghost predicate Valid()
      reads this
    {
      page.Length == PAGE && pos <= size
    }

    /** Nothing is checked here: the size is whatever length the file has. */
    constructor (file: SecretFile)
      requires file.page.Length == PAGE
      ensures Valid() && page == file.page && size == file.length && pos == 0
    {
      page, size, pos := file.page, file.length, 0;
    }

    method ReadInto(buf: array<byte>) returns (r: ReadResult)
      requires Valid() && buf != page
      modifies this`pos, buf
      ensures Valid()
      ensures var n := Min(size - old(pos), buf.Length);
              && (r == OutsidePage <==> n > 0 && old(pos) + n > PAGE)
              && (r != OutsidePage ==>
                    && r == Read(n) && pos == old(pos) + n
                    && (n > 0 ==> pos <= PAGE)
                    && buf[..n] == (if n > 0 then page[old(pos)..pos] else []))
    {
      var remaining := size - pos;
      if remaining == 0 {
        return Read(0);
      }
      var n := Min(remaining, buf.Length);
      if n > 0 && pos + n > PAGE {
        return OutsidePage;
      }
      forall i | 0 <= i < n {
        buf[i] := page[pos + i];
      }
      pos := pos + n;
      return Read(n);
    }

    /** Reads into buffers of the given sizes until a read gives nothing. */
    method ReadToEnd(sizes: nat -> nat) returns (r: Option<seq<byte>>)
      requires Valid() && pos == 0
      requires forall i :: sizes(i) > 0
      modifies this`pos
      ensures Valid()
      ensures r.Some? <==> size <= PAGE
      ensures r.Some? ==> r.value == page[..size] && pos == size
    {
      var bytes, round: nat, done := [], 0, false;
      while !done
        invariant Valid() && pos <= PAGE && bytes == page[..pos]
        invariant done ==> pos == size
        decreases size - pos, !done
      {
        var buf := new byte[sizes(round)];
        var count := ReadInto(buf);
        match count {
          case OutsidePage => return None;
          case Read(n) =>
            bytes := bytes + buf[..n];
            done := n == 0;
        }
        round := round + 1;
      }
      return Some(bytes);
    }

    /** Reads into buffers of the given sizes, whatever they are, one after the other. */
    method ReadEach(sizes: seq<nat>) returns (inside: bool, bytes: seq<byte>)
      requires Valid() && pos == 0
      modifies this`pos
      ensures Valid()
      ensures inside <==> Cursor(size, sizes) <= PAGE
      ensures inside ==> pos == Cursor(size, sizes) && bytes == page[..pos]
    {
      bytes := [];
      for i := 0 to |sizes|
        invariant Valid() && pos <= PAGE
        invariant pos == Cursor(size, sizes[..i]) && bytes == page[..pos]
      {
        assert sizes[..i + 1][..i] == sizes[..i];
        var buf := new byte[sizes[i]];
        var count := ReadInto(buf);
        match count {
          case OutsidePage =>
            CursorOnlyAdvances(size, sizes, i + 1);
            return false, bytes;
          case Read(n) =>
            bytes := bytes + buf[..n];
        }
      }
      assert sizes[..|sizes|] == sizes;
      return true, bytes;
    }
  }

  /** Writing a secret and reading it with any buffer sizes gives it back and then the end of
      the file; only secrets larger than a page are refused. */
  method WriteThenRead(secret: seq<byte>, sizes: nat -> nat) returns (r: Option<seq<byte>>)
    requires forall i :: sizes(i) > 0
    ensures r == if |secret| <= PAGE then Some(secret) else None
  {
    var file := WriteSecret(secret);
    if file.None? {
      return None;
    }
    var reader := new MmapReader(file.value);
    r := reader.ReadToEnd(sizes);
  }

  // ---------- the bound ----------

  /** Where the cursor of a reader of `size` bytes stands after reads of the given sizes, as
      `MmapReader.ReadEach` does them. */
  function Cursor(size: nat, counts: seq<nat>): nat {
    if counts == [] then 0
    else
      var before := Cursor(size, counts[..|counts| - 1]);
      if before >= size then before else before + Min(size - before, counts[|counts| - 1])
  }

  lemma {:induction false} CursorOnlyAdvances(size: nat, counts: seq<nat>, i: nat)
    requires i <= |counts|
    ensures Cursor(size, counts[..i]) <= Cursor(size, counts)
  {
    if i == |counts| {
      assert counts[..i] == counts;
    } else {
      CursorOnlyAdvances(size, counts[..|counts| - 1], i);
      assert counts[..|counts| - 1][..i] == counts[..i];
    }
  }

  lemma {:induction false} CursorStaysWithinSize(size: nat, counts: seq<nat>)
    ensures Cursor(size, counts) <= size
  {
    if counts != [] {
      CursorStaysWithinSize(size, counts[..|counts| - 1]);
    }
  }

  /** Every read stays inside the page exactly when the file is no longer than the page, which
      only the writer ensures. */
  lemma ReaderStaysInsideIff(size: nat)
    ensures (forall counts :: Cursor(size, counts) <= PAGE) <==> size <= PAGE
  {
    if size <= PAGE {
      forall counts ensures Cursor(size, counts) <= PAGE {
        CursorStaysWithinSize(size, counts);
      }
    } else {
      var counts := [size];
      assert counts[..0] == [];
      assert Cursor(size, counts) == size;
    }
  }
}
