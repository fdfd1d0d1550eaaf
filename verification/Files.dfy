/** Buffered input and output (PA1/io.c). A file is the byte sequence it holds; `read`
    delivers an arbitrary non-empty prefix of what is left. */
module Files {
  import opened Bytes
  import opened Text

  const READ_BUF_SIZE := 65536
  const WRITE_BUF_SIZE := 65536

  function Min(a: nat, b: nat): nat {
    if a <= b then a else b
  }

  /** An open descriptor: a read may bring any non-empty part of what is left. */
  class FileHandle {
    const content: seq<Byte>
    var offset: nat

    ghost predicate Valid() reads this {
      offset <= |content|
    }

    ghost function Rest(): seq<Byte>
      reads this
      requires Valid()
    {
      content[offset..]
    }

    constructor (content: seq<Byte>)
      ensures Valid() && Rest() == content
      ensures this.content == content
    {
      this.content, offset := content, 0;
    }

    method Read(max: nat) returns (chunk: seq<Byte>)
      requires Valid() && 0 < max
      modifies this
      ensures Valid() && old(Rest()) == chunk + Rest()
      ensures |chunk| <= max
      ensures chunk == [] <==> old(Rest()) == []
      ensures offset == old(offset) + |chunk|
    {
      var left := |content| - offset;
      if left == 0 {
        return [];
      }
      var full := Min(max, left);
      var n: nat :| 1 <= n <= full;
      chunk := Take(n);
    }

    /** Move past the next `n` bytes. */
    method Take(n: nat) returns (chunk: seq<Byte>)
      requires Valid() && n <= |Rest()|
      modifies this
      ensures Valid() && old(Rest()) == chunk + Rest()
      ensures |chunk| == n && offset == old(offset) + n
    {
      chunk := content[offset..offset + n];
      offset := offset + n;
    }
  }

  /** How much arrives of the `full` bytes that could, when `want` are on offer. */
  function Arriving(want: nat, full: nat): nat {
    if 1 <= want <= full then want else full
  }

  /** The sizes in which the reads of the record and line-number cursors arrive. Every way of
      splitting them is some `plan`: read number `k`, of a file with cells of `cell` bytes,
      brings `plan(k, cell)` bytes, or all it can where that is no possible amount. */
  class Reads {
    const plan: (nat, nat) -> nat
    /** How many reads there have been. */
    var count: nat
    /** How many of them ended inside a cell. */
    ghost var cuts: nat

    constructor (plan: (nat, nat) -> nat)
      ensures this.plan == plan && count == 0 && cuts == 0
    {
      this.plan, count, cuts := plan, 0, 0;
    }

    /** No read ends inside a cell: each brings whole cells, or all it can. */
    ghost predicate Aligned() {
      forall k: nat, cell: nat {:trigger plan(k, cell)} :: 0 < cell ==> plan(k, cell) % cell == 0
    }

    method Read(file: FileHandle, cell: nat, max: nat) returns (chunk: seq<Byte>)
      requires file.Valid() && 0 < cell && 0 < max
      modifies this, file
      ensures file.Valid() && old(file.Rest()) == chunk + file.Rest()
      ensures chunk == [] <==> old(file.Rest()) == []
      ensures |chunk| == Arriving(plan(old(count), cell), Min(max, |old(file.Rest())|))
      ensures file.offset == old(file.offset) + |chunk|
      ensures count == old(count) + 1 && cuts == old(cuts) + (if |chunk| % cell == 0 then 0 else 1)
    {
      chunk := file.Take(Arriving(plan(count, cell), Min(max, |file.content| - file.offset)));
      count := count + 1;
      cuts := cuts + if |chunk| % cell == 0 then 0 else 1;
    }
  }

  class LineReader {
    const file: FileHandle
    const buf: array<Byte>
    var pos: nat
    var len: nat

    ghost predicate Valid() reads this, file {
      && buf.Length == READ_BUF_SIZE
      && file.Valid()
      && pos <= len <= buf.Length
    }

    /** Everything not yet handed out: the buffered tail, then the rest of the file. */
    ghost function Rest(): seq<Byte>
      reads this, file, buf
      requires Valid()
    {
      buf[pos..len] + file.Rest()
    }

    constructor (file: FileHandle)
      requires file.Valid()
      ensures Valid() && Rest() == file.Rest()
      ensures this.file == file && fresh(buf)
    {
      this.file := file;
      buf := new Byte[READ_BUF_SIZE];
      pos, len := 0, 0;
    }

    /** Refill an exhausted buffer; false at end of file. */
    method Fill() returns (more: bool)
      requires Valid() && pos == len
      modifies this, file, buf
      ensures Valid() && Rest() == old(Rest())
      ensures more <==> old(Rest()) != []
      ensures more ==> pos < len
    {
      ghost var before := file.Rest();
      var chunk := file.Read(buf.Length);
      if chunk == [] {
        return false;
      }
      forall i | 0 <= i < |chunk| {
        buf[i] := chunk[i];
      }
      pos, len := 0, |chunk|;
      assert buf[0..len] == chunk;
      return true;
    }

    /** Move the cursor to the next newline in the buffer, or to its end. */
    method Advance() returns (piece: seq<Byte>)
      requires Valid() && pos < len
      modifies `pos
      ensures Valid() && old(Rest()) == piece + Rest()
      ensures NEWLINE !in piece
      ensures pos < len ==> buf[pos] == NEWLINE
      ensures pos == len ==> piece != []
    {
      var start := pos;
      while pos < len && buf[pos] != NEWLINE
        invariant start <= pos <= len
        invariant NEWLINE !in buf[start..pos]
      {
        pos := pos + 1;
      }
      piece := buf[start..pos];
      assert buf[start..len] == piece + buf[pos..len];
    }

    method EatNewline()
      requires Valid() && pos < len && buf[pos] == NEWLINE
      modifies `pos
      ensures Valid() && old(Rest()) == [NEWLINE] + Rest()
    {
      DropFirst(buf[pos..len], file.Rest());
      assert buf[pos..len][1..] == buf[pos + 1..len];
      pos := pos + 1;
    }

    /** The next stretch of the current line, refilling first when needed, and whether
        a newline ended it (the newline is consumed). */
    method NextPiece() returns (more: bool, piece: seq<Byte>, ended: bool)
      requires Valid()
      modifies this, file, buf
      ensures Valid()
      ensures old(Rest()) == piece + (if ended then [NEWLINE] else []) + Rest()
      ensures NEWLINE !in piece
      ensures more <==> old(Rest()) != []
      ensures more ==> |Rest()| < |old(Rest())|
      ensures !more ==> piece == [] && !ended
    {
      if pos == len {
        more := Fill();
        if !more {
          return false, [], false;
        }
      }
      more := true;
      piece := Advance();
      ended := pos < len;
      if ended {
        EatNewline();
        ConcatAssoc(piece, [NEWLINE], Rest());
      } else {
        assert piece + [] == piece;
      }
    }

    /** One logical line without its newline; false once nothing is left. */
    method ReadLine() returns (more: bool, line: seq<Byte>, hadNewline: bool)
      requires Valid()
      modifies this, file, buf
      ensures Valid()
      ensures IsNextLine(old(Rest()), more, line, hadNewline, Rest())
    {
      ghost var all := Rest();
      ghost var rest := all;
      line, hadNewline := [], false;
      while true
        invariant Valid() && !hadNewline && rest == Rest()
        invariant all == line + rest && NEWLINE !in line
        decreases |rest|
      {
        var got, piece, ended := NextPiece();
        if !got {
          LineAtEnd(all, line);
          return line != [], line, false;
        }
        PieceAppended(all, line, rest, piece, ended, Rest());
        line := line + piece;
        rest := Rest();
        if ended {
          LineAtNewline(all, line, rest);
          return true, line, true;
        }
      }
    }
  }

  lemma DropFirst(s: seq<Byte>, rest: seq<Byte>)
    requires s != []
    ensures s + rest == [s[0]] + (s[1..] + rest)
  {
  }

  lemma PieceAppended(all: seq<Byte>, line: seq<Byte>, rest: seq<Byte>, piece: seq<Byte>, ended: bool, after: seq<Byte>)
    requires all == line + rest
    requires rest == piece + (if ended then [NEWLINE] else []) + after
    ensures all == line + piece + ((if ended then [NEWLINE] else []) + after)
    ensures !ended ==> all == line + piece + after
  {
    assert !ended ==> [] + after == after;
  }

  /** `line` is the first line of `all` and `rest` is what follows its newline. */
  ghost predicate IsNextLine(all: seq<Byte>, more: bool, line: seq<Byte>, hadNewline: bool, rest: seq<Byte>) {
    && (more <==> all != [])
    && (if more then
          && line == all[..FirstNewline(all)]
          && hadNewline == (|line| < |all|)
          && rest == all[LineExtent(all)..]
        else rest == [])
  }

  lemma LineAtEnd(all: seq<Byte>, line: seq<Byte>)
    requires all == line + [] && NEWLINE !in line
    ensures IsNextLine(all, line != [], line, false, [])
  {
    assert all == line && all[..|all|] == all;
    IndexOfUnique(all, NEWLINE, |all|);
  }

  lemma LineAtNewline(all: seq<Byte>, line: seq<Byte>, rest: seq<Byte>)
    requires all == line + ([NEWLINE] + rest) && NEWLINE !in line
    ensures IsNextLine(all, true, line, true, rest)
  {
    assert all[..|line|] == line && all[|line|] == NEWLINE;
    IndexOfUnique(all, NEWLINE, |line|);
    assert all[|line| + 1..] == rest;
  }

  lemma TakeMore(base: seq<Byte>, data: seq<Byte>, done: nat, chunk: nat)
    requires done + chunk <= |data|
    ensures base + data[..done] + data[done..done + chunk] == base + data[..done + chunk]
  {
  }

  class OutBuf {
    const buf: array<Byte>
    var file: seq<Byte>
    var len: nat

    ghost predicate Valid() reads this {
      buf.Length == WRITE_BUF_SIZE && len <= buf.Length
    }

    /** What has been written: the descriptor's bytes, then the buffered ones. */
    ghost function Contents(): seq<Byte>
      reads this, buf
      requires Valid()
    {
      file + buf[..len]
    }

    constructor ()
      ensures Valid() && Contents() == [] && file == [] && fresh(buf)
    {
      buf := new Byte[WRITE_BUF_SIZE];
      file, len := [], 0;
    }

    /** `write` may take only a part each time; the loop goes on until all is taken. */
    method WriteFull(data: seq<Byte>)
      requires Valid()
      modifies `file
      ensures Valid() && file == old(file) + data
    {
      var done := 0;
      while done < |data|
        invariant done <= |data|
        invariant file == old(file) + data[..done]
      {
        var n: nat :| 1 <= n <= |data| - done;
        file := file + data[done..done + n];
        assert data[..done] + data[done..done + n] == data[..done + n];
        done := done + n;
      }
      assert data[..done] == data;
    }

    method Flush()
      requires Valid()
      modifies this
      ensures Valid() && len == 0
      ensures file == old(Contents()) && Contents() == old(Contents())
    {
      if len == 0 {
        return;
      }
      WriteFull(buf[..len]);
      len := 0;
    }

    /** Copy a piece that fits behind the buffered bytes. */
    method Append(piece: seq<Byte>)
      requires Valid() && len + |piece| <= buf.Length
      modifies `len, buf
      ensures Valid() && Contents() == old(Contents()) + piece
    {
      forall i | 0 <= i < |piece| {
        buf[len + i] := piece[i];
      }
      len := len + |piece|;
      assert buf[..len] == old(buf[..len]) + piece;
    }

    method WriteData(data: seq<Byte>)
      requires Valid()
      modifies this, buf
      ensures Valid() && Contents() == old(Contents()) + data
    {
      var done := 0;
      while done < |data|
        invariant Valid() && done <= |data|
        invariant Contents() == old(Contents()) + data[..done]
      {
        if len == buf.Length {
          Flush();
        }
        var chunk := Min(|data| - done, buf.Length - len);
        TakeMore(old(Contents()), data, done, chunk);
        Append(data[done..done + chunk]);
        done := done + chunk;
      }
      assert data[..done] == data;
    }
  }
}
