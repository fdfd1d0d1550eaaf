/** Cursors over cache files and line-set files (PA1/query.c:253-444). A read that ends inside
    a cell is reported as an error, exactly then; otherwise the cursors deliver the file's
    contents one by one. */
module Readers {
  import opened Bytes
  import opened Files
  import opened Records

  /** The source's -1, 0 and 1. */
  datatype Status = Error | End | Got

  const RECORDS_PER_READ := 1024
  const LINES_PER_READ := 2048

  /** Whole cells, or all that is left of a file of cells, end between cells. */
  lemma AlignedRecords(want: nat, n: nat)
    requires want % RECORD_SIZE == 0
    ensures Arriving(want, Min(RECORDS_PER_READ * RECORD_SIZE, RECORD_SIZE * n)) % RECORD_SIZE == 0
  {
  }

  lemma AlignedLines(want: nat, n: nat)
    requires want % LINE_SIZE == 0
    ensures Arriving(want, Min(LINES_PER_READ * LINE_SIZE, LINE_SIZE * n)) % LINE_SIZE == 0
  {
  }

  lemma NothingRead<T>(front: seq<T>, rest: seq<T>)
    requires |front| == 0
    ensures front + rest == rest
  {
  }

  method OpenRecords(bytes: seq<Byte>) returns (file: FileHandle, records: array<Record>)
    ensures file.Valid() && file.Rest() == bytes && records.Length == RECORDS_PER_READ && fresh(file) && fresh(records)
  {
    file := new FileHandle(bytes);
    records := new Record[RECORDS_PER_READ];
  }

  method OpenLines(bytes: seq<Byte>) returns (file: FileHandle, values: array<U32>)
    ensures file.Valid() && file.Rest() == bytes && values.Length == LINES_PER_READ && fresh(file) && fresh(values)
  {
    file := new FileHandle(bytes);
    values := new U32[LINES_PER_READ](_ => 0);
  }

  class OccurrenceReader {
    const io: Reads
    const file: FileHandle
    const records: array<Record>
    var pos: nat
    var len: nat
    var current: Record
    var hasRecord: bool
    /** The records not read from the file yet. */
    ghost var unread: seq<Record>
    ghost const Repr: set<object>

    ghost predicate Valid() reads Repr {
      && this in Repr && file in Repr && records in Repr && io !in Repr
      && records.Length == RECORDS_PER_READ
      && file.Valid() && file.Rest() == RecordFile(unread)
      && pos <= len <= records.Length
    }

    /** Everything `Next` has yet to deliver. */
    ghost function Upcoming(): seq<Record>
      reads Repr
      requires Valid()
    {
      records[pos..len] + unread
    }

    /** The current record, if any, and everything after it. */
    ghost function Pending(): seq<Record>
      reads Repr
      requires Valid()
    {
      (if hasRecord then [current] else []) + Upcoming()
    }

    /** The next call reads the file, and that read ends inside a record. */
    ghost predicate WillCut()
      reads Repr, io
      requires Valid()
    {
      && pos == len
      && Arriving(io.plan(io.count, RECORD_SIZE), Min(RECORDS_PER_READ * RECORD_SIZE, RECORD_SIZE * |unread|))
           % RECORD_SIZE != 0
    }

    constructor (bytes: seq<Byte>, io: Reads, ghost recs: seq<Record>)
      requires bytes == RecordFile(recs)
      ensures Valid() && !hasRecord && Upcoming() == recs && this.io == io
      ensures pos == len && unread == recs
      ensures Repr == {this, file, records} && fresh(file) && fresh(records)
    {
      hide RecordFile;
      var handle, buffer := OpenRecords(bytes);
      this.io, file, records := io, handle, buffer;
      pos, len, hasRecord, current, unread := 0, 0, false, Record(0, 0, 0), recs;
      Repr := {this, handle, buffer};
      new;
      NothingRead(records[pos..len], recs);
    }

    /** Refill an exhausted buffer. It is an error exactly when the read ends inside a
        record; the reader is then unusable. */
    method Fill() returns (st: Status)
      requires Valid() && pos == len
      modifies Repr, io
      ensures hasRecord == old(hasRecord) && current == old(current)
      ensures st != Error ==> Valid() && Upcoming() == old(Upcoming())
      ensures st == End ==> Upcoming() == []
      ensures st == Got ==> pos < len
      ensures st == Error <==> (file.offset - old(file.offset)) % RECORD_SIZE != 0
      ensures st == Error <==> old(WillCut())
      ensures st == Error <==> io.cuts != old(io.cuts)
    {
      hide RecordFile, DecodeRecord;
      RecordFileLength(unread);
      var chunk := io.Read(file, RECORD_SIZE, RECORDS_PER_READ * RECORD_SIZE);
      if chunk == [] {
        return End;
      }
      if |chunk| % RECORD_SIZE != 0 {
        return Error;
      }
      RecordFileCut(unread, chunk, file.Rest());
      var n := |chunk| / RECORD_SIZE;
      forall i | 0 <= i < n {
        records[i] := DecodeRecord(chunk[RECORD_SIZE * i..RECORD_SIZE * i + RECORD_SIZE]);
      }
      assert records[0..n] == unread[..n];
      unread := unread[n..];
      pos, len := 0, n;
      return Got;
    }

    lemma AlignedNeverCuts()
      requires Valid() && io.Aligned()
      ensures !WillCut()
    {
      AlignedRecords(io.plan(io.count, RECORD_SIZE), |unread|);
    }

    method TakeBuffered()
      requires Valid() && pos < len
      modifies `pos, `current, `hasRecord
      ensures Valid() && hasRecord && old(Upcoming()) == [current] + Upcoming()
    {
      hide RecordFile;
      assert records[pos..len] == [records[pos]] + records[pos + 1..len];
      current := records[pos];
      pos := pos + 1;
      hasRecord := true;
    }

    /** Advance to the next record; fails exactly when a read is due that ends inside one. */
    method Next() returns (st: Status)
      requires Valid()
      modifies Repr, io
      ensures st == Got ==> Valid() && hasRecord && old(Upcoming()) == [current] + Upcoming()
      ensures st == End ==> Valid() && !hasRecord && old(Upcoming()) == [] == Upcoming()
      ensures st == Error <==> old(WillCut())
      ensures st == Error <==> io.cuts != old(io.cuts)
      ensures io.Aligned() ==> st != Error
    {
      hide RecordFile, Arriving;
      if io.Aligned() {
        AlignedNeverCuts();
      }
      if pos == len {
        st := Fill();
        if st != Got {
          hasRecord := false;
          return;
        }
      }
      TakeBuffered();
      st := Got;
    }
  }

  class LineNumberReader {
    const io: Reads
    const file: FileHandle
    const values: array<U32>
    var pos: nat
    var len: nat
    var current: U32
    ghost var unread: seq<U32>
    ghost const Repr: set<object>

    ghost predicate Valid() reads Repr {
      && this in Repr && file in Repr && values in Repr && io !in Repr
      && values.Length == LINES_PER_READ
      && file.Valid() && file.Rest() == LineFile(unread)
      && pos <= len <= values.Length
    }

    ghost function Upcoming(): seq<U32>
      reads Repr
      requires Valid()
    {
      values[pos..len] + unread
    }

    /** The next call reads the file, and that read ends inside a number. */
    ghost predicate WillCut()
      reads Repr, io
      requires Valid()
    {
      && pos == len
      && Arriving(io.plan(io.count, LINE_SIZE), Min(LINES_PER_READ * LINE_SIZE, LINE_SIZE * |unread|)) % LINE_SIZE != 0
    }

    constructor (bytes: seq<Byte>, io: Reads, ghost lines: seq<U32>)
      requires bytes == LineFile(lines)
      ensures Valid() && Upcoming() == lines && this.io == io
      ensures Repr == {this, file, values} && fresh(file) && fresh(values)
    {
      hide LineFile;
      var handle, buffer := OpenLines(bytes);
      this.io, file, values := io, handle, buffer;
      pos, len, current, unread := 0, 0, 0, lines;
      Repr := {this, handle, buffer};
      new;
      NothingRead(values[pos..len], lines);
    }

    method Fill() returns (st: Status)
      requires Valid() && pos == len
      modifies Repr, io
      ensures st != Error ==> Valid() && Upcoming() == old(Upcoming())
      ensures st == End ==> Upcoming() == []
      ensures st == Got ==> pos < len
      ensures st == Error <==> (file.offset - old(file.offset)) % LINE_SIZE != 0
      ensures st == Error <==> old(WillCut())
      ensures st == Error <==> io.cuts != old(io.cuts)
    {
      hide LineFile, DecodeLE;
      LineFileCut(unread, [], file.Rest());
      var chunk := io.Read(file, LINE_SIZE, LINES_PER_READ * LINE_SIZE);
      if chunk == [] {
        return End;
      }
      if |chunk| % LINE_SIZE != 0 {
        return Error;
      }
      LineFileCut(unread, chunk, file.Rest());
      var n := |chunk| / LINE_SIZE;
      forall i | 0 <= i < n {
        values[i] := DecodeLE(chunk[LINE_SIZE * i..LINE_SIZE * i + LINE_SIZE]) % U32_LIMIT;
      }
      assert values[0..n] == unread[..n];
      unread := unread[n..];
      pos, len := 0, n;
      return Got;
    }

    lemma AlignedNeverCuts()
      requires Valid() && io.Aligned()
      ensures !WillCut()
    {
      AlignedLines(io.plan(io.count, LINE_SIZE), |unread|);
    }

    method TakeBuffered()
      requires Valid() && pos < len
      modifies `pos, `current
      ensures Valid() && old(Upcoming()) == [current] + Upcoming()
    {
      hide LineFile;
      assert values[pos..len] == [values[pos]] + values[pos + 1..len];
      current := values[pos];
      pos := pos + 1;
    }

    /** Advance to the next number; fails exactly when a read is due that ends inside one. */
    method Next() returns (st: Status)
      requires Valid()
      modifies Repr, io
      ensures st == Got ==> Valid() && old(Upcoming()) == [current] + Upcoming()
      ensures st == End ==> Valid() && old(Upcoming()) == [] == Upcoming()
      ensures st == Error <==> old(WillCut())
      ensures st == Error <==> io.cuts != old(io.cuts)
      ensures io.Aligned() ==> st != Error
    {
      hide LineFile, Arriving;
      if io.Aligned() {
        AlignedNeverCuts();
      }
      if pos == len {
        st := Fill();
        if st != Got {
          return;
        }
      }
      TakeBuffered();
      st := Got;
    }
  }
}
