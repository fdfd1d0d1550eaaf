/** The fixed-width cells the index files are made of: little-endian integers and the
    12-byte occurrence records of PA1/pa1.h:64-68. */
module Records {
  import opened Bytes

  function EncodeLE(n: nat, width: nat): (r: seq<Byte>)
    ensures |r| == width
  {
    if width == 0 then [] else [n % 256] + EncodeLE(n / 256, width - 1)
  }

  function DecodeLE(s: seq<Byte>): nat {
    if s == [] then 0 else s[0] + 256 * DecodeLE(s[1..])
  }

  function Capacity(width: nat): nat {
    if width == 0 then 1 else 256 * Capacity(width - 1)
  }

  lemma {:induction false} LERoundTrip(n: nat, width: nat)
    requires n < Capacity(width)
    ensures DecodeLE(EncodeLE(n, width)) == n
  {
    if width > 0 {
      LERoundTrip(n / 256, width - 1);
      assert EncodeLE(n, width)[1..] == EncodeLE(n / 256, width - 1);
    }
  }

  lemma U32RoundTrip(n: U32)
    ensures DecodeLE(EncodeLE(n, 4)) == n
  {
    assert Capacity(2) == 0x1_0000;
    LERoundTrip(n, 4);
  }

  /** One occurrence: which word, on which line, from which byte. */
  datatype Record = Record(word: U32, line: U32, start: U32)

  const RECORD_SIZE := 12

  function EncodeRecord(r: Record): (s: seq<Byte>)
    ensures |s| == RECORD_SIZE
  {
    EncodeLE(r.word, 4) + EncodeLE(r.line, 4) + EncodeLE(r.start, 4)
  }

  function DecodeRecord(s: seq<Byte>): Record
    requires |s| == RECORD_SIZE
  {
    Record(DecodeLE(s[..4]) % U32_LIMIT, DecodeLE(s[4..8]) % U32_LIMIT, DecodeLE(s[8..]) % U32_LIMIT)
  }

  lemma RecordRoundTrip(r: Record)
    ensures DecodeRecord(EncodeRecord(r)) == r
  {
    U32RoundTrip(r.word);
    U32RoundTrip(r.line);
    U32RoundTrip(r.start);
    var s := EncodeRecord(r);
    assert s[..4] == EncodeLE(r.word, 4);
    assert s[4..8] == EncodeLE(r.line, 4);
    assert s[8..] == EncodeLE(r.start, 4);
  }

  ghost predicate Uniform(cells: seq<seq<Byte>>, width: nat) {
    forall i :: 0 <= i < |cells| ==> |cells[i]| == width
  }

  lemma {:induction false} FlattenLength(cells: seq<seq<Byte>>, width: nat)
    requires Uniform(cells, width)
    ensures |Flatten(cells)| == width * |cells|
  {
    if cells != [] {
      var n := |cells| - 1;
      FlattenLength(cells[..n], width);
      MulSucc(width, n);
    }
  }

  lemma MulSucc(width: nat, n: nat)
    ensures width * (n + 1) == width * n + width
  {
  }

  /** Cell `i` of a file of equal cells is where its index says. */
  lemma {:induction false} FlattenAt(cells: seq<seq<Byte>>, width: nat, i: nat)
    requires Uniform(cells, width) && i < |cells|
    ensures |Flatten(cells)| == width * |cells|
    ensures 0 <= width * i && width * i + width <= width * |cells|
    ensures Flatten(cells)[width * i..width * i + width] == cells[i]
  {
    var n := |cells| - 1;
    FlattenLength(cells, width);
    FlattenLength(cells[..n], width);
    MulSucc(width, n);
    if i < n {
      FlattenAt(cells[..n], width, i);
      assert cells[..n][i] == cells[i];
      SliceOfPrefix(Flatten(cells[..n]), cells[n], width * i, width * i + width);
    }
  }

  lemma SliceOfPrefix(a: seq<Byte>, b: seq<Byte>, lo: nat, hi: nat)
    requires lo <= hi <= |a|
    ensures (a + b)[lo..hi] == a[lo..hi]
  {
  }

  /** The bytes of a file of records. */
  function RecordCells(recs: seq<Record>): (cells: seq<seq<Byte>>)
    ensures |cells| == |recs|
    ensures forall i :: 0 <= i < |recs| ==> cells[i] == EncodeRecord(recs[i])
  {
    seq(|recs|, i requires 0 <= i < |recs| => EncodeRecord(recs[i]))
  }

  function RecordFile(recs: seq<Record>): seq<Byte> {
    Flatten(RecordCells(recs))
  }

  lemma RecordFileSnoc(recs: seq<Record>, r: Record)
    ensures RecordFile(recs + [r]) == RecordFile(recs) + EncodeRecord(r)
  {
    assert RecordCells(recs + [r]) == RecordCells(recs) + [EncodeRecord(r)];
    FlattenSnoc(RecordCells(recs), EncodeRecord(r));
  }

  lemma RecordFileLength(recs: seq<Record>)
    ensures |RecordFile(recs)| == RECORD_SIZE * |recs|
  {
    FlattenLength(RecordCells(recs), RECORD_SIZE);
  }

  lemma RecordFileAt(recs: seq<Record>, i: nat)
    requires i < |recs|
    ensures |RecordFile(recs)| == RECORD_SIZE * |recs|
    ensures RecordFile(recs)[RECORD_SIZE * i..RECORD_SIZE * i + RECORD_SIZE] == EncodeRecord(recs[i])
    ensures DecodeRecord(RecordFile(recs)[RECORD_SIZE * i..RECORD_SIZE * i + RECORD_SIZE]) == recs[i]
  {
    FlattenAt(RecordCells(recs), RECORD_SIZE, i);
    RecordRoundTrip(recs[i]);
  }

  lemma RecordFileConcat(a: seq<Record>, b: seq<Record>)
    ensures RecordFile(a + b) == RecordFile(a) + RecordFile(b)
  {
    assert RecordCells(a + b) == RecordCells(a) + RecordCells(b);
    FlattenConcat(RecordCells(a), RecordCells(b));
  }

  /** A read that ends between records: what it holds and what stays behind. */
  lemma RecordFileCut(recs: seq<Record>, chunk: seq<Byte>, tail: seq<Byte>)
    requires RecordFile(recs) == chunk + tail && |chunk| % RECORD_SIZE == 0
    ensures var n := |chunk| / RECORD_SIZE;
      && n <= |recs| && tail == RecordFile(recs[n..])
      && (forall i {:trigger recs[i]} :: 0 <= i < n ==>
            DecodeRecord(chunk[RECORD_SIZE * i..RECORD_SIZE * i + RECORD_SIZE]) == recs[i])
  {
    hide RecordFile, DecodeRecord;
    var n := |chunk| / RECORD_SIZE;
    RecordFileLength(recs);
    RecordFileConcat(recs[..n], recs[n..]);
    RecordFileLength(recs[..n]);
    assert recs[..n] + recs[n..] == recs;
    assert chunk == (chunk + tail)[..|chunk|] == RecordFile(recs[..n]);
    forall i | 0 <= i < n
      ensures DecodeRecord(chunk[RECORD_SIZE * i..RECORD_SIZE * i + RECORD_SIZE]) == recs[i]
    {
      RecordFileAt(recs[..n], i);
    }
  }

  // ------------------------------------------------ files of line numbers

  const LINE_SIZE := 4

  function LineCells(lines: seq<U32>): (cells: seq<seq<Byte>>)
    ensures |cells| == |lines|
    ensures forall i {:trigger cells[i]} :: 0 <= i < |lines| ==> cells[i] == EncodeLE(lines[i], LINE_SIZE)
  {
    seq(|lines|, i requires 0 <= i < |lines| => EncodeLE(lines[i], LINE_SIZE))
  }

  /** The bytes of a line-set file. */
  function LineFile(lines: seq<U32>): seq<Byte> {
    Flatten(LineCells(lines))
  }

  lemma LineFileConcat(a: seq<U32>, b: seq<U32>)
    ensures LineFile(a + b) == LineFile(a) + LineFile(b)
  {
    assert LineCells(a + b) == LineCells(a) + LineCells(b);
    FlattenConcat(LineCells(a), LineCells(b));
  }

  lemma LineFileSnoc(lines: seq<U32>, line: U32)
    ensures LineFile(lines + [line]) == LineFile(lines) + EncodeLE(line, LINE_SIZE)
  {
    assert LineCells(lines + [line]) == LineCells(lines) + [EncodeLE(line, LINE_SIZE)];
    FlattenSnoc(LineCells(lines), EncodeLE(line, LINE_SIZE));
  }

  lemma LineFileCut(lines: seq<U32>, chunk: seq<Byte>, tail: seq<Byte>)
    requires LineFile(lines) == chunk + tail && |chunk| % LINE_SIZE == 0
    ensures |LineFile(lines)| == LINE_SIZE * |lines|
    ensures var n := |chunk| / LINE_SIZE;
      && n <= |lines| && tail == LineFile(lines[n..])
      && (forall i {:trigger lines[i]} :: 0 <= i < n ==>
        DecodeLE(chunk[LINE_SIZE * i..LINE_SIZE * i + LINE_SIZE]) == lines[i])
  {
    var n := |chunk| / LINE_SIZE;
    FlattenLength(LineCells(lines), LINE_SIZE);
    LineFileConcat(lines[..n], lines[n..]);
    FlattenLength(LineCells(lines[..n]), LINE_SIZE);
    assert lines[..n] + lines[n..] == lines;
    assert chunk == (chunk + tail)[..|chunk|] == LineFile(lines[..n]);
    forall i | 0 <= i < n ensures DecodeLE(chunk[LINE_SIZE * i..LINE_SIZE * i + LINE_SIZE]) == lines[i] {
      FlattenAt(LineCells(lines[..n]), LINE_SIZE, i);
      U32RoundTrip(lines[i]);
    }
  }
}
