/** Scanning a file of records through a 12288-byte chunk with a carried-over tail, and
    the three consumers the scans feed (PA1/query.c:83-137, PA1/query.c:184-251,
    PA1/query.c:446-486). */
module Scan {
  import opened Bytes
  import opened Text
  import opened Files
  import opened Output
  import opened Records
  import LineTable

  const CHUNK_BYTES := 1024 * RECORD_SIZE

  /** The whole records a file holds. */
  function DecodeAll(content: seq<Byte>): (recs: seq<Record>)
    ensures |recs| == |content| / RECORD_SIZE
  {
    seq(|content| / RECORD_SIZE, i requires 0 <= i < |content| / RECORD_SIZE =>
      DecodeRecord(content[RECORD_SIZE * i..RECORD_SIZE * i + RECORD_SIZE]))
  }

  lemma DecodeRecordFile(recs: seq<Record>)
    ensures |RecordFile(recs)| % RECORD_SIZE == 0 && DecodeAll(RecordFile(recs)) == recs
  {
    RecordFileLength(recs);
    forall i | 0 <= i < |recs| ensures DecodeAll(RecordFile(recs))[i] == recs[i] {
      RecordFileAt(recs, i);
    }
  }

  /** The read buffer of a scan: `carry` bytes of an incomplete record lie at its front. */
  class Chunk {
    const bytes: array<Byte>
    var carry: nat
    var total: nat

    ghost predicate Valid() reads this {
      bytes.Length == CHUNK_BYTES && carry < RECORD_SIZE && total <= bytes.Length
    }

    /** What the scan has yet to see. */
    ghost function Pending(file: FileHandle): seq<Byte>
      reads this, bytes, file
      requires Valid() && file.Valid()
    {
      bytes[..carry] + file.Rest()
    }

    constructor ()
      ensures Valid() && carry == 0 && fresh(bytes)
    {
      bytes := new Byte[CHUNK_BYTES];
      carry, total := 0, 0;
    }

    lemma PendingAtEnd(file: FileHandle)
      requires Valid() && file.Valid() && file.Rest() == []
      ensures |Pending(file)| == carry
    {
    }

    /** Read behind the carried bytes; there is always room, as fewer than 12 are carried. */
    method Refill(file: FileHandle) returns (more: bool)
      requires Valid() && file.Valid()
      modifies this, bytes, file
      ensures Valid() && file.Valid() && carry == old(carry)
      ensures more <==> old(file.Rest()) != []
      ensures !more ==> bytes[..] == old(bytes[..]) && file.Rest() == []
      ensures more ==> old(Pending(file)) == bytes[..total] + file.Rest()
      ensures more ==> |file.Rest()| < |old(file.Rest())|
    {
      var got := file.Read(bytes.Length - carry);
      if got == [] {
        return false;
      }
      forall i | 0 <= i < |got| {
        bytes[carry + i] := got[i];
      }
      total := carry + |got|;
      assert bytes[..total] == old(bytes[..carry]) + got;
      ConcatAssoc(old(bytes[..carry]), got, file.Rest());
      return true;
    }

    /** Record `i` of the chunk. */
    method RecordAt(i: nat) returns (r: Record)
      requires Valid() && RECORD_SIZE * i + RECORD_SIZE <= total
      ensures r == DecodeRecord(bytes[..total][RECORD_SIZE * i..RECORD_SIZE * i + RECORD_SIZE])
    {
      assert bytes[..total][RECORD_SIZE * i..RECORD_SIZE * i + RECORD_SIZE] ==
        bytes[RECORD_SIZE * i..RECORD_SIZE * i + RECORD_SIZE];
      r := DecodeRecord(bytes[RECORD_SIZE * i..RECORD_SIZE * i + RECORD_SIZE]);
    }

    /** Move the incomplete tail to the front. */
    method Settle()
      requires Valid()
      modifies this, bytes
      ensures Valid() && bytes[..carry] == old(bytes[..total][total / RECORD_SIZE * RECORD_SIZE..])
    {
      var usable := total / RECORD_SIZE * RECORD_SIZE;
      carry := total - usable;
      if carry > 0 {
        MoveBytes(bytes, 0, usable, carry);
      }
      assert bytes[..carry] == old(bytes[usable..total]);
    }
  }

  /** What the phrase check asks of a candidate record's line. */
  predicate CandidateHolds(line: seq<Byte>, phrase: seq<Byte>, start: nat) {
    && start + |phrase| <= |line|
    && Lower(line[start..start + |phrase|]) == Lower(phrase)
    && (start + |phrase| == |line| || IsWordSep(line[start + |phrase|]))
  }

  /** The count wraps like the source's `u32`; it only steers the order of intersections. */
  class CacheWriter {
    const out: OutBuf
    const wordId: U32
    var count: U32

    constructor (out: OutBuf, wordId: U32)
      ensures this.out == out && this.wordId == wordId && count == 0
    {
      this.out, this.wordId, count := out, wordId, 0;
    }
  }

  /** The state of a phrase scan: the last line fetched is kept until another is needed. */
  class PhraseMatch {
    const out: OutBuf
    const input: seq<Byte>
    const lineFile: seq<Byte>
    const lineCount: nat
    const phrase: seq<Byte>
    var lineBuf: seq<Byte>
    var cachedLineNo: nat

    ghost predicate TableOk() {
      && |input| < Capacity(LineTable.OFFSET_SIZE)
      && lineFile == LineTable.OffsetFile(LineTable.Offsets(input))
      && lineCount == |Lines(input)|
    }

    /** The buffered line is the line it claims to be. */
    ghost predicate Valid() reads this {
      && TableOk()
      && cachedLineNo <= |Lines(input)|
      && (0 < cachedLineNo ==> lineBuf == Lines(input)[cachedLineNo - 1])
    }

    constructor (out: OutBuf, input: seq<Byte>, lineFile: seq<Byte>, lineCount: nat, phrase: seq<Byte>)
      ensures this.out == out && this.input == input && this.phrase == phrase
      ensures this.lineFile == lineFile && this.lineCount == lineCount
      ensures TableOk() ==> Valid()
    {
      this.out, this.input, this.lineFile := out, input, lineFile;
      this.lineCount, this.phrase := lineCount, phrase;
      lineBuf, cachedLineNo := [], 0;
    }

    /** Make sure the record's line is the buffered one. */
    method Fetch(no: nat)
      requires Valid() && 1 <= no <= |Lines(input)|
      modifies this
      ensures Valid() && lineBuf == Lines(input)[no - 1]
    {
      if cachedLineNo != no {
        var got := LineTable.ReadLine(input, lineFile, lineCount, no);
        lineBuf := got.bytes;
        cachedLineNo := no;
      }
    }

    method Holds(start: nat) returns (holds: bool)
      ensures holds <==> CandidateHolds(lineBuf, phrase, start)
    {
      if start + |phrase| > |lineBuf| {
        return false;
      }
      holds := CaseEqualBytes(lineBuf[start..start + |phrase|], phrase);
      if holds && start + |phrase| != |lineBuf| {
        holds := IsWordSep(lineBuf[start + |phrase|]);
      }
    }
  }

  /** Who receives the records of a scan. */
  datatype Consumer = ToCache(writer: CacheWriter) | ToOutput(stream: OutBuf) | ToPhrase(match_: PhraseMatch) {

    ghost function Out(): OutBuf {
      match this
      case ToCache(writer) => writer.out
      case ToOutput(stream) => stream
      case ToPhrase(m) => m.out
    }

    /** The objects a consumer writes to. */
    ghost function Repr(): set<object> {
      match this
      case ToCache(writer) => {writer, writer.out, writer.out.buf}
      case ToOutput(stream) => {stream, stream.buf}
      case ToPhrase(m) => {m, m.out, m.out.buf}
    }

    ghost predicate Valid() reads Repr() {
      Out().Valid() && (ToPhrase? ==> match_.Valid())
    }

    /** A phrase scan needs records of existing lines. */
    ghost predicate Accepts(r: Record) {
      ToPhrase? ==> 1 <= r.line <= |Lines(match_.input)|
    }

    /** What one record makes the consumer write. */
    ghost function Emits(r: Record): seq<Byte> {
      match this
      case ToCache(writer) => if r.word == writer.wordId then EncodeRecord(r) else []
      case ToOutput(_) => RenderItem(Ref(r.line, r.start))
      case ToPhrase(m) =>
        if Accepts(r) && CandidateHolds(Lines(m.input)[r.line - 1], m.phrase, r.start)
        then RenderItem(Ref(r.line, r.start)) else []
    }

    ghost function EmitsAll(recs: seq<Record>): seq<Byte> {
      if recs == [] then [] else EmitsAll(recs[..|recs| - 1]) + Emits(recs[|recs| - 1])
    }

    ghost predicate Keeps(r: Record) {
      ToCache? && r.word == writer.wordId
    }

    /** How many records are kept. */
    ghost function Tally(recs: seq<Record>): nat {
      if recs == [] then 0 else Tally(recs[..|recs| - 1]) + if Keeps(recs[|recs| - 1]) then 1 else 0
    }

    /** The running count of a cache writer. */
    ghost function Count(): nat reads Repr() {
      if ToCache? then writer.count else 0
    }

    method Consume(r: Record)
      requires Valid() && Accepts(r)
      modifies Repr()
      ensures Valid() && Out().Contents() == old(Out().Contents()) + Emits(r)
      ensures Count() == (old(Count()) + if Keeps(r) then 1 else 0) % U32_LIMIT
    {
      hide RenderItem, EncodeRecord, CandidateHolds, Lines;
      match this
      case ToCache(writer) =>
        if r.word == writer.wordId {
          writer.count := (writer.count + 1) % U32_LIMIT;
          writer.out.WriteData(EncodeRecord(r));
        }
      case ToOutput(stream) =>
        EmitLineRef(stream, r.line, r.start);
      case ToPhrase(m) =>
        m.Fetch(r.line);
        var holds := m.Holds(r.start);
        if holds {
          EmitLineRef(m.out, r.line, r.start);
        }
    }
  }

  lemma EmitsAllSnoc(c: Consumer, recs: seq<Record>, k: nat)
    requires k < |recs|
    ensures c.EmitsAll(recs[..k + 1]) == c.EmitsAll(recs[..k]) + c.Emits(recs[k])
    ensures c.Tally(recs[..k + 1]) == c.Tally(recs[..k]) + if c.Keeps(recs[k]) then 1 else 0
  {
    assert recs[..k + 1][..k] == recs[..k];
  }

  ghost predicate AcceptsAll(c: Consumer, recs: seq<Record>) {
    forall i {:trigger recs[i]} :: 0 <= i < |recs| ==> c.Accepts(recs[i])
  }

  /** `part` holds records `done`.. of `recs`. */
  ghost predicate HoldsRecords(part: seq<Byte>, recs: seq<Record>, done: nat) {
    && done + |part| / RECORD_SIZE <= |recs|
    && (forall k {:trigger recs[k]} :: done <= k < done + |part| / RECORD_SIZE ==>
          recs[k] == DecodeRecord(part[RECORD_SIZE * (k - done)..RECORD_SIZE * (k - done) + RECORD_SIZE]))
  }

  /** `part` starts at record `done` of `content`: its records are the next ones. */
  lemma ChunkRecords(content: seq<Byte>, done: nat, part: seq<Byte>, rest: seq<Byte>)
    requires RECORD_SIZE * done <= |content| && content[RECORD_SIZE * done..] == part + rest
    ensures var count := |part| / RECORD_SIZE;
      && done + count <= |DecodeAll(content)|
      && HoldsRecords(part, DecodeAll(content), done)
      && RECORD_SIZE * (done + count) <= |content|
      && content[RECORD_SIZE * (done + count)..] == part[count * RECORD_SIZE..] + rest
  {
    var count := |part| / RECORD_SIZE;
    assert |content| == RECORD_SIZE * done + |part| + |rest|;
    forall k | done <= k < done + count
      ensures DecodeAll(content)[k] ==
        DecodeRecord(part[RECORD_SIZE * (k - done)..RECORD_SIZE * (k - done) + RECORD_SIZE])
    {
      assert part[RECORD_SIZE * (k - done)..RECORD_SIZE * (k - done) + RECORD_SIZE]
          == content[RECORD_SIZE * k..RECORD_SIZE * k + RECORD_SIZE];
    }
    assert part[count * RECORD_SIZE..] + rest == (part + rest)[count * RECORD_SIZE..];
  }

  lemma NextRecord(c: Consumer, part: seq<Byte>, recs: seq<Record>, done: nat, i: nat)
    requires AcceptsAll(c, recs) && HoldsRecords(part, recs, done) && i < |part| / RECORD_SIZE
    ensures c.Accepts(recs[done + i])
    ensures recs[done + i] == DecodeRecord(part[RECORD_SIZE * i..RECORD_SIZE * i + RECORD_SIZE])
  {
    var k := done + i;
    assert recs[k] == DecodeRecord(part[RECORD_SIZE * (k - done)..RECORD_SIZE * (k - done) + RECORD_SIZE]);
  }

  /** Feed record `k`. */
  method DeliverOne(c: Consumer, r: Record, ghost recs: seq<Record>, ghost k: nat, ghost base: seq<Byte>)
    requires c.Valid() && k < |recs| && r == recs[k] && c.Accepts(r)
    requires c.Out().Contents() == base + c.EmitsAll(recs[..k]) && c.Count() == c.Tally(recs[..k]) % U32_LIMIT
    modifies c.Repr()
    ensures c.Valid()
    ensures c.Out().Contents() == base + c.EmitsAll(recs[..k + 1]) && c.Count() == c.Tally(recs[..k + 1]) % U32_LIMIT
  {
    hide Consumer.EmitsAll, Consumer.Emits, Consumer.Tally, Consumer.Keeps, Consumer.Accepts, Consumer.Valid;
    EmitsAllSnoc(c, recs, k);
    ghost var before := c.EmitsAll(recs[..k]);
    c.Consume(r);
    ConcatAssoc(base, before, c.Emits(r));
  }

  /** Feed the whole records of a chunk, which are records `done`.. of the file. */
  method Deliver(chunk: Chunk, c: Consumer, ghost recs: seq<Record>, ghost done: nat, ghost base: seq<Byte>)
    requires chunk.Valid() && c.Valid() && chunk !in c.Repr() && chunk.bytes !in c.Repr()
    requires AcceptsAll(c, recs) && HoldsRecords(chunk.bytes[..chunk.total], recs, done)
    requires done + chunk.total / RECORD_SIZE <= |recs|
    requires c.Out().Contents() == base + c.EmitsAll(recs[..done]) && c.Count() == c.Tally(recs[..done]) % U32_LIMIT
    modifies c.Repr()
    ensures c.Valid()
    ensures c.Out().Contents() == base + c.EmitsAll(recs[..done + chunk.total / RECORD_SIZE])
    ensures c.Count() == c.Tally(recs[..done + chunk.total / RECORD_SIZE]) % U32_LIMIT
  {
    hide Consumer.EmitsAll, Consumer.Emits, Consumer.Tally, Consumer.Keeps, DecodeRecord, AcceptsAll, HoldsRecords,
      Consumer.Accepts;
    ghost var part := chunk.bytes[..chunk.total];
    var count := chunk.total / RECORD_SIZE;
    var i := 0;
    while i < count
      invariant c.Valid() && i <= count && chunk.bytes[..chunk.total] == part
      invariant c.Out().Contents() == base + c.EmitsAll(recs[..done + i])
        && c.Count() == c.Tally(recs[..done + i]) % U32_LIMIT
    {
      NextRecord(c, part, recs, done, i);
      var r := chunk.RecordAt(i);
      DeliverOne(c, r, recs, done + i, base);
      i := i + 1;
    }
  }

  /** After `done` records of `content`, `pending` is what is left and `out` has been told. */
  ghost predicate ScanState(content: seq<Byte>, c: Consumer, base: seq<Byte>, pending: seq<Byte>, done: nat,
                            out: seq<Byte>, count: nat) {
    && done <= |DecodeAll(content)| && RECORD_SIZE * done <= |content|
    && pending == content[RECORD_SIZE * done..]
    && out == base + c.EmitsAll(DecodeAll(content)[..done])
    && count == c.Tally(DecodeAll(content)[..done]) % U32_LIMIT
  }

  lemma ScanStart(content: seq<Byte>, c: Consumer, base: seq<Byte>)
    ensures ScanState(content, c, base, content, 0, base, 0)
  {
    assert DecodeAll(content)[..0] == [] && content[0..] == content && base + [] == base;
  }

  lemma ScanPart(content: seq<Byte>, c: Consumer, base: seq<Byte>, part: seq<Byte>, rest: seq<Byte>, done: nat,
                 out: seq<Byte>, count: nat)
    requires ScanState(content, c, base, part + rest, done, out, count)
    ensures HoldsRecords(part, DecodeAll(content), done) && done + |part| / RECORD_SIZE <= |DecodeAll(content)|
    ensures out == base + c.EmitsAll(DecodeAll(content)[..done])
    ensures count == c.Tally(DecodeAll(content)[..done]) % U32_LIMIT
    ensures var n := |part| / RECORD_SIZE;
      ScanState(content, c, base, part[n * RECORD_SIZE..] + rest, done + n,
                base + c.EmitsAll(DecodeAll(content)[..done + n]), c.Tally(DecodeAll(content)[..done + n]) % U32_LIMIT)
  {
    hide DecodeRecord, DecodeAll, Consumer.EmitsAll, Consumer.Tally;
    ChunkRecords(content, done, part, rest);
    assert content[RECORD_SIZE * (done + |part| / RECORD_SIZE)..] == part[|part| / RECORD_SIZE * RECORD_SIZE..] + rest;
  }

  lemma ScanEnd(content: seq<Byte>, c: Consumer, base: seq<Byte>, pending: seq<Byte>, done: nat, out: seq<Byte>,
                count: nat)
    requires ScanState(content, c, base, pending, done, out, count) && |pending| < RECORD_SIZE
    ensures out == base + c.EmitsAll(DecodeAll(content)) && count == c.Tally(DecodeAll(content)) % U32_LIMIT
    ensures pending == [] <==> |content| % RECORD_SIZE == 0
  {
    assert DecodeAll(content)[..done] == DecodeAll(content);
  }

  /** One round of the scan loop: refill, deliver the whole records, keep the tail. */
  method ScanStep(file: FileHandle, chunk: Chunk, c: Consumer, ghost content: seq<Byte>, ghost base: seq<Byte>,
                  ghost done: nat)
    returns (more: bool, ghost after: nat)
    requires file.Valid() && chunk.Valid() && c.Valid() && {file, chunk, chunk.bytes} !! c.Repr()
    requires AcceptsAll(c, DecodeAll(content))
    requires ScanState(content, c, base, chunk.Pending(file), done, c.Out().Contents(), c.Count())
    modifies file, chunk, chunk.bytes, c.Repr()
    ensures file.Valid() && chunk.Valid() && c.Valid()
    ensures ScanState(content, c, base, chunk.Pending(file), after, c.Out().Contents(), c.Count())
    ensures more ==> |file.Rest()| < |old(file.Rest())|
    ensures !more ==> file.Rest() == []
  {
    hide ScanState, DecodeAll, AcceptsAll, HoldsRecords, Consumer.EmitsAll, Consumer.Tally;
    ghost var was := chunk.Pending(file);
    more := chunk.Refill(file);
    if !more {
      assert chunk.Pending(file) == was;
      return more, done;
    }
    ghost var out, count := c.Out().Contents(), c.Count();
    after := done + chunk.total / RECORD_SIZE;
    ScanPart(content, c, base, chunk.bytes[..chunk.total], file.Rest(), done, out, count);
    Deliver(chunk, c, DecodeAll(content), done, base);
    chunk.Settle();
  }

  /** Go round until the file is exhausted; at most an incomplete record is left over. */
  method ScanLoop(file: FileHandle, chunk: Chunk, c: Consumer, ghost content: seq<Byte>, ghost base: seq<Byte>)
    requires file.Valid() && chunk.Valid() && c.Valid() && {file, chunk, chunk.bytes} !! c.Repr()
    requires AcceptsAll(c, DecodeAll(content))
    requires ScanState(content, c, base, chunk.Pending(file), 0, c.Out().Contents(), c.Count())
    modifies file, chunk, chunk.bytes, c.Repr()
    ensures chunk.Valid() && c.Valid()
    ensures c.Out().Contents() == base + c.EmitsAll(DecodeAll(content))
    ensures c.Count() == c.Tally(DecodeAll(content)) % U32_LIMIT
    ensures chunk.carry == 0 <==> |content| % RECORD_SIZE == 0
  {
    hide ScanState, DecodeAll, AcceptsAll, Consumer.EmitsAll, Consumer.Tally, Chunk.Pending;
    ghost var done := 0;
    var more := true;
    while more
      invariant file.Valid() && c.Valid() && chunk.Valid()
      invariant ScanState(content, c, base, chunk.Pending(file), done, c.Out().Contents(), c.Count())
      invariant !more ==> file.Rest() == []
      decreases more, |file.Rest()|
    {
      more, done := ScanStep(file, chunk, c, content, base, done);
    }
    chunk.PendingAtEnd(file);
    ScanEnd(content, c, base, chunk.Pending(file), done, c.Out().Contents(), c.Count());
  }

  method OpenScan(content: seq<Byte>) returns (file: FileHandle, chunk: Chunk)
    ensures file.Valid() && chunk.Valid() && chunk.Pending(file) == content
    ensures fresh(file) && fresh(chunk) && fresh(chunk.bytes)
  {
    file := new FileHandle(content);
    chunk := new Chunk();
    assert chunk.bytes[..0] + content == content;
  }

  /** Hand every whole record of the file to the consumer, in order, whatever pieces the
      reads return; `ok` iff no bytes are left over. */
  method ScanFile(content: seq<Byte>, c: Consumer) returns (ok: bool)
    requires c.Valid() && AcceptsAll(c, DecodeAll(content)) && c.Count() == 0
    modifies c.Repr()
    ensures c.Count() == c.Tally(DecodeAll(content)) % U32_LIMIT
    ensures c.Valid() && ok == (|content| % RECORD_SIZE == 0)
    ensures c.Out().Contents() == old(c.Out().Contents()) + c.EmitsAll(DecodeAll(content))
  {
    hide ScanState, DecodeAll, AcceptsAll, Consumer.EmitsAll, Consumer.Tally, Chunk.Pending;
    var file, chunk := OpenScan(content);
    ScanStart(content, c, c.Out().Contents());
    ScanLoop(file, chunk, c, content, c.Out().Contents());
    ok := chunk.carry == 0;
  }
}
