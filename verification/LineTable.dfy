/** The line-offset table (PA1/index.c:222-235, PA1/index.c:250-343): cell `k` holds the
    offset at which line `k` ends, its newline included. */
module LineTable {
  import opened Bytes
  import opened Text
  import opened Records
  import opened Files

  /** Where each line of `s` ends when `s` starts at offset `base`. */
  function EndsFrom(s: seq<Byte>, base: nat): seq<nat> {
    if s == [] then []
    else [base + LineExtent(s)] + EndsFrom(s[LineExtent(s)..], base + LineExtent(s))
  }

  function Offsets(text: seq<Byte>): seq<nat> {
    [0] + EndsFrom(text, 0)
  }

  const OFFSET_SIZE := 8

  function OffsetCells(offs: seq<nat>): (cells: seq<seq<Byte>>)
    ensures |cells| == |offs|
    ensures forall i {:trigger cells[i]} :: 0 <= i < |offs| ==> cells[i] == EncodeLE(offs[i], OFFSET_SIZE)
  {
    seq(|offs|, i requires 0 <= i < |offs| => EncodeLE(offs[i], OFFSET_SIZE))
  }

  function OffsetFile(offs: seq<nat>): seq<Byte> {
    Flatten(OffsetCells(offs))
  }

  lemma OffsetFileSnoc(offs: seq<nat>, off: nat)
    ensures OffsetFile(offs + [off]) == OffsetFile(offs) + EncodeLE(off, OFFSET_SIZE)
  {
    assert OffsetCells(offs + [off]) == OffsetCells(offs) + [EncodeLE(off, OFFSET_SIZE)];
    FlattenSnoc(OffsetCells(offs), EncodeLE(off, OFFSET_SIZE));
  }

  lemma OffsetFileAt(offs: seq<nat>, i: nat)
    requires i < |offs| && offs[i] < Capacity(OFFSET_SIZE)
    ensures |OffsetFile(offs)| == OFFSET_SIZE * |offs|
    ensures DecodeLE(OffsetFile(offs)[OFFSET_SIZE * i..OFFSET_SIZE * i + OFFSET_SIZE]) == offs[i]
  {
    FlattenAt(OffsetCells(offs), OFFSET_SIZE, i);
    LERoundTrip(offs[i], OFFSET_SIZE);
  }

  /** The stretch of text between two neighbouring offsets is the line, with its newline
      if it has one. */
  ghost predicate HoldsLine(stretch: seq<Byte>, line: seq<Byte>) {
    NEWLINE !in line && (stretch == line + [NEWLINE] || stretch == line)
  }

  lemma {:induction false} EndsBound(s: seq<Byte>, base: nat)
    ensures |EndsFrom(s, base)| == |Lines(s)|
    ensures forall i {:trigger EndsFrom(s, base)[i]} :: 0 <= i < |Lines(s)| ==>
      base < EndsFrom(s, base)[i] <= base + |s|
  {
    hide LineExtent, FirstNewline;
    if s != [] {
      EndsBound(s[LineExtent(s)..], base + LineExtent(s));
    }
  }

  /** `all` holds `s` at `base`; line `k` of `s` is found there by its offsets. */
  lemma {:induction false} LineBetween(all: seq<Byte>, s: seq<Byte>, base: nat, k: nat)
    requires base <= |all| && all[base..] == s && k < |Lines(s)|
    ensures |EndsFrom(s, base)| == |Lines(s)|
    ensures var lo, hi := ([base] + EndsFrom(s, base))[k], EndsFrom(s, base)[k];
      lo <= hi <= |all| && HoldsLine(all[lo..hi], Lines(s)[k])
  {
    hide HoldsLine, LineExtent, FirstNewline;
    EndsBound(s, base);
    var n := LineExtent(s);
    if k == 0 {
      FirstStretch(s);
      assert all[base..base + n] == s[..n];
    } else {
      assert all[base + n..] == s[n..];
      LineBetween(all, s[n..], base + n, k - 1);
      assert ([base] + EndsFrom(s, base))[k] == ([base + n] + EndsFrom(s[n..], base + n))[k - 1];
    }
  }

  lemma FirstStretch(s: seq<Byte>)
    requires s != []
    ensures HoldsLine(s[..LineExtent(s)], s[..FirstNewline(s)])
  {
    var k := FirstNewline(s);
    assert k < |s| ==> s[..k + 1] == s[..k] + [NEWLINE];
  }

  /** Line `k` (from 0) of a text lies between offsets `k` and `k + 1`. */
  lemma LineAt(text: seq<Byte>, k: nat)
    requires k < |Lines(text)|
    ensures |Offsets(text)| == |Lines(text)| + 1
    ensures Offsets(text)[k] <= Offsets(text)[k + 1] <= |text|
    ensures HoldsLine(text[Offsets(text)[k]..Offsets(text)[k + 1]], Lines(text)[k])
  {
    assert text[0..] == text;
    LineBetween(text, text, 0, k);
  }

  /** After `done` lines, with `rest` still unread, the table holds `offs`. */
  ghost predicate Progress(text: seq<Byte>, rest: seq<Byte>, done: seq<seq<Byte>>, offs: seq<nat>, next: nat) {
    && next + |rest| == |text|
    && done + Lines(rest) == Lines(text)
    && offs + EndsFrom(rest, next) == Offsets(text)
  }

  lemma ProgressStart(text: seq<Byte>)
    ensures Progress(text, text, [], [0], 0)
  {
    assert [] + Lines(text) == Lines(text);
  }

  lemma ProgressStep(text: seq<Byte>, rest: seq<Byte>, done: seq<seq<Byte>>, offs: seq<nat>, next: nat)
    requires Progress(text, rest, done, offs, next) && rest != []
    ensures var n := LineExtent(rest);
      Progress(text, rest[n..], done + [rest[..FirstNewline(rest)]], offs + [next + n], next + n)
  {
    var n := LineExtent(rest);
    var line := rest[..FirstNewline(rest)];
    UnfoldOnce(rest, next);
    hide Lines, EndsFrom, FirstNewline;
    ConcatAssoc(done, [line], Lines(rest[n..]));
    ConcatAssoc(offs, [next + n], EndsFrom(rest[n..], next + n));
  }

  lemma UnfoldOnce(s: seq<Byte>, base: nat)
    requires s != []
    ensures Lines(s) == [s[..FirstNewline(s)]] + Lines(s[LineExtent(s)..])
    ensures EndsFrom(s, base) == [base + LineExtent(s)] + EndsFrom(s[LineExtent(s)..], base + LineExtent(s))
  {
  }

  lemma ProgressEnd(text: seq<Byte>, done: seq<seq<Byte>>, offs: seq<nat>, next: nat)
    requires Progress(text, [], done, offs, next)
    ensures done == Lines(text) && offs == Offsets(text)
  {
    assert done + [] == done && offs + [] == offs;
  }

  /** The writer of the table, fed one line at a time. */
  class LineWriter {
    const out: OutBuf
    var count: nat
    var next: nat
    ghost var offs: seq<nat>
    ghost const Repr: set<object>

    ghost predicate Valid() reads Repr {
      && this in Repr && out in Repr && out.buf in Repr
      && out.Valid() && out.Contents() == OffsetFile(offs)
    }

    constructor ()
      ensures Valid() && fresh(Repr) && offs == [0] && count == 0 && next == 0
    {
      var o := new OutBuf();
      o.WriteData(EncodeLE(0, OFFSET_SIZE));
      out, count, next, offs := o, 0, 0, [0];
      Repr := {this, o, o.buf};
      new;
      OffsetFileSnoc([], 0);
    }

    method Add(length: nat, hadNewline: bool)
      requires Valid()
      modifies Repr
      ensures Valid() && count == old(count) + 1
      ensures next == old(next) + length + (if hadNewline then 1 else 0)
      ensures offs == old(offs) + [next]
    {
      hide OffsetFile;
      next := next + length + (if hadNewline then 1 else 0);
      count := count + 1;
      OffsetFileSnoc(offs, next);
      out.WriteData(EncodeLE(next, OFFSET_SIZE));
      offs := offs + [next];
    }

    method Flush() returns (file: seq<Byte>)
      requires Valid()
      modifies Repr
      ensures file == OffsetFile(old(offs)) && count == old(count)
    {
      out.Flush();
      file := out.file;
    }
  }

  /** `pread` until all `len` bytes from `offset` have arrived, in pieces of any size. It
      fails exactly when bytes are asked for that the file does not have. */
  method ReadAt(file: seq<Byte>, offset: nat, len: nat) returns (ok: bool, data: seq<Byte>)
    ensures ok <==> len == 0 || offset + len <= |file|
    ensures ok && len > 0 ==> data == file[offset..offset + len]
    ensures ok ==> |data| == len
  {
    data := [];
    while |data| < len
      invariant |data| <= len && (data != [] ==> offset + |data| <= |file| && data == file[offset..offset + |data|])
    {
      var at := offset + |data|;
      if at >= |file| {
        return false, data;
      }
      var n: nat :| 1 <= n <= len - |data| && at + n <= |file|;
      data := data + file[at..at + n];
    }
    return true, data;
  }

  /** One stored offset; an index outside the table is refused. */
  method ReadOffset(lineFile: seq<Byte>, ghost offs: seq<nat>, i: nat) returns (ok: bool, off: nat)
    requires lineFile == OffsetFile(offs) && (i < |offs| ==> offs[i] < Capacity(OFFSET_SIZE))
    ensures ok <==> i < |offs|
    ensures ok ==> off == offs[i]
  {
    FlattenLength(OffsetCells(offs), OFFSET_SIZE);
    var cell;
    ok, cell := ReadAt(lineFile, i * OFFSET_SIZE, OFFSET_SIZE);
    if !ok {
      return false, 0;
    }
    OffsetFileAt(offs, i);
    off := DecodeLE(cell);
  }

  /** What `index_read_line` delivers: nothing for a number that is not a line's. */
  datatype LineRead = NoSuchLine | Line(bytes: seq<Byte>)

  /** Fetch line `no` (from 1) back through the offset table. */
  method ReadLine(input: seq<Byte>, lineFile: seq<Byte>, lineCount: nat, no: nat) returns (r: LineRead)
    requires |input| < Capacity(OFFSET_SIZE)
    requires lineFile == OffsetFile(Offsets(input)) && lineCount == |Lines(input)|
    ensures r == if 1 <= no <= |Lines(input)| then Line(Lines(input)[no - 1]) else NoSuchLine
  {
    if no == 0 || no > lineCount {
      return NoSuchLine;
    }
    ghost var offs, line := Offsets(input), Lines(input)[no - 1];
    LineAt(input, no - 1);
    var gotStart, start := ReadOffset(lineFile, offs, no - 1);
    var gotEnd, end := ReadOffset(lineFile, offs, no);
    if !gotStart || !gotEnd || end < start {
      return NoSuchLine;
    }
    var gotLine, data := ReadAt(input, start, end - start);
    if !gotLine {
      return NoSuchLine;
    }
    assert HoldsLine(data, line);
    if data != [] && data[|data| - 1] == NEWLINE {
      StripNewline(data, line);
      return Line(data[..|data| - 1]);
    }
    return Line(data);
  }

  lemma StripNewline(data: seq<Byte>, line: seq<Byte>)
    requires HoldsLine(data, line) && data != [] && data[|data| - 1] == NEWLINE
    ensures data[..|data| - 1] == line
  {
    assert data[|data| - 1] in data;
  }
}
