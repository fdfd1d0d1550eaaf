/** Building the index in one pass over the text (PA1/index.c:169-298) and what the
    finished index guarantees. */
module IndexBuild {
  import opened Bytes
  import opened Text
  import opened Files
  import opened Records
  import opened LexiconTable
  import opened Postings
  import opened Buckets
  import LineTable

  /** Every bucket file holds its share of the occurrences, in text order. */
  ghost predicate FilesOk(words: seq<seq<Byte>>, occs: seq<Occ>, files: seq<seq<Byte>>) {
    && |files| == OCC_BUCKETS
    && (forall b {:trigger files[b]} :: 0 <= b < OCC_BUCKETS ==> files[b] == RecordFile(BucketRecords(words, occs, b)))
  }

  lemma FilesOkStart(words: seq<seq<Byte>>, files: seq<seq<Byte>>)
    requires |files| == OCC_BUCKETS && forall b {:trigger files[b]} :: 0 <= b < OCC_BUCKETS ==> files[b] == []
    ensures FilesOk(words, [], files)
  {
    assert RecordFile([]) == [];
  }

  /** Learning a word and appending one record to its bucket keeps every file right. */
  lemma FilesOkStep(words: seq<seq<Byte>>, more: seq<seq<Byte>>, occs: seq<Occ>, files: seq<seq<Byte>>, o: Occ, id: U32)
    requires FilesOk(words, occs, files) && Knows(words, occs)
    requires NoDuplicates(more) && words <= more
    requires id < |more| && more[id] == o.word
    ensures var b := BucketOf(o.word);
      FilesOk(more, occs + [o], files[b := files[b] + EncodeRecord(RecordOf(id, o))])
  {
    var at := BucketOf(o.word);
    var after := files[at := files[at] + EncodeRecord(RecordOf(id, o))];
    forall b | 0 <= b < OCC_BUCKETS ensures after[b] == RecordFile(BucketRecords(more, occs + [o], b)) {
      FileOkStep(words, more, occs, files, o, id, b);
    }
  }

  lemma FileOkStep(words: seq<seq<Byte>>, more: seq<seq<Byte>>, occs: seq<Occ>, files: seq<seq<Byte>>, o: Occ,
                   id: U32, b: nat)
    requires FilesOk(words, occs, files) && Knows(words, occs) && b < OCC_BUCKETS
    requires NoDuplicates(more) && words <= more
    requires id < |more| && more[id] == o.word
    ensures RecordFile(BucketRecords(more, occs + [o], b)) ==
      files[b] + if b == BucketOf(o.word) then EncodeRecord(RecordOf(id, o)) else []
  {
    hide BucketOf, RecordOf, EncodeRecord, RecordFile, NoDuplicates;
    BucketRecordsStable(words, more, occs, b);
    BucketRecordsSnoc(more, occs, o, b);
    IdOfIs(more, id);
    if b == BucketOf(o.word) {
      RecordFileSnoc(BucketRecords(more, occs, b), RecordOf(id, o));
    } else {
      assert BucketRecords(more, occs, b) + [] == BucketRecords(more, occs, b);
    }
  }

  ghost predicate DrawnFrom(words: seq<seq<Byte>>, vocabulary: set<seq<Byte>>) {
    forall i :: 0 <= i < |words| ==> words[i] in vocabulary
  }

  lemma DrawnStep(words: seq<seq<Byte>>, more: seq<seq<Byte>>, w: seq<Byte>, vocabulary: set<seq<Byte>>)
    requires DrawnFrom(words, vocabulary) && w in vocabulary
    requires more == words || more == words + [w]
    ensures DrawnFrom(more, vocabulary) && words <= more
  {
  }

  /** Distinct words drawn from a vocabulary are no more than it has. */
  lemma {:induction false} DistinctBound(words: seq<seq<Byte>>, vocabulary: set<seq<Byte>>)
    requires NoDuplicates(words) && DrawnFrom(words, vocabulary)
    ensures |words| <= |vocabulary|
  {
    if words != [] {
      var n := |words| - 1;
      DistinctBound(words[..n], vocabulary - {words[n]});
    }
  }

  ghost function Vocabulary(lines: seq<seq<Byte>>): set<seq<Byte>> {
    set o | o in TextOccs(lines) :: o.word
  }

  /** The cache file of word `id`, if made, holds its posting list; the stored size wraps. */
  ghost predicate CacheOk(e: LexEntry, id: U32, lines: seq<seq<Byte>>) {
    e.cache.Cached? ==>
      && e.cache.bytes == RecordFile(Posting(id, lines, e.text))
      && e.cacheCount == |Posting(id, lines, e.text)| % U32_LIMIT
  }

  ghost predicate CachesOk(es: seq<LexEntry>, lines: seq<seq<Byte>>) {
    |es| < U32_LIMIT && forall i {:trigger CacheOk(es[i], i, lines)} :: 0 <= i < |es| ==> CacheOk(es[i], i, lines)
  }

  /** A finished index. Its files no longer change; only the lexicon's cache marks do. */
  class Index {
    const input: seq<Byte>
    /** How the reads of the query cursors arrive. */
    const io: Reads
    const lineFile: seq<Byte>
    const occFiles: seq<seq<Byte>>
    const lineCount: U32
    const lexicon: Lexicon

    /** The line table belongs to the text, whose numbers fit the records. */
    ghost predicate TextOk() {
      && Fits(Lines(input))
      && |input| < Capacity(LineTable.OFFSET_SIZE)
      && lineFile == LineTable.OffsetFile(LineTable.Offsets(input))
      && lineCount == |Lines(input)|
    }

    ghost predicate Valid() reads lexicon, lexicon.slots {
      && TextOk()
      && lexicon.Valid()
      && Knows(lexicon.Words(), TextOccs(Lines(input)))
      && FilesOk(lexicon.Words(), TextOccs(Lines(input)), occFiles)
      && CachesOk(lexicon.entries, Lines(input))
    }

    constructor (input: seq<Byte>, io: Reads, lineFile: seq<Byte>, occFiles: seq<seq<Byte>>, lineCount: U32,
                 lexicon: Lexicon)
      ensures this.input == input && this.io == io && this.lineFile == lineFile
      ensures this.occFiles == occFiles && this.lineCount == lineCount && this.lexicon == lexicon
    {
      this.input, this.io, this.lineFile := input, io, lineFile;
      this.occFiles, this.lineCount, this.lexicon := occFiles, lineCount, lexicon;
    }
  }

  /** The state of one pass: the lexicon, the bucket writers, and the occurrences so far. */
  class Builder {
    const lexicon: Lexicon
    const buckets: BucketSet
    ghost var occs: seq<Occ>
    ghost const vocabulary: set<seq<Byte>>

    ghost predicate Valid() reads this, lexicon, lexicon.slots, buckets.Repr {
      && lexicon.Valid() && buckets.Valid()
      && {this, lexicon, lexicon.slots} !! buckets.Repr
      && |vocabulary| + 1 < U32_LIMIT
      && NoCaches(lexicon.entries)
      && Consistent(lexicon.Words(), occs, buckets.Contents(), vocabulary)
    }

    constructor (ghost vocabulary: set<seq<Byte>>)
      requires |vocabulary| + 1 < U32_LIMIT
      ensures Valid() && occs == [] && this.vocabulary == vocabulary
      ensures fresh(lexicon) && fresh(lexicon.slots) && fresh(buckets.Repr)
    {
      lexicon := new Lexicon();
      buckets := new BucketSet();
      occs := [];
      this.vocabulary := vocabulary;
      new;
      hide Consistent;
      ConsistentStart(buckets.Contents(), vocabulary);
    }

    /** Record one word occurrence: its id from the lexicon, its record in its bucket. */
    method AddOccurrence(word: seq<Byte>, line: U32, start: U32)
      requires Valid() && Lower(word) in vocabulary
      modifies this, lexicon, lexicon.slots, buckets.Repr
      ensures Valid() && (lexicon.slots == old(lexicon.slots) || fresh(lexicon.slots))
      ensures occs == old(occs) + [Occ(Lower(word), line, start)]
    {
      hide Consistent, NoDuplicates, NoCaches, EntriesOk, Chained, HashOf, EncodeRecord, Separate;
      ghost var words, files := lexicon.Words(), buckets.Contents();
      ghost var o := Occ(Lower(word), line, start);
      lexicon.WordsDistinct();
      ConsistentBound(words, occs, files, vocabulary);
      var id, bucket := lexicon.FindOrAdd(word);
      lexicon.WordsDistinct();
      ConsistentStep(words, lexicon.Words(), occs, files, vocabulary, o, id, bucket);
      buckets.Write(bucket, EncodeRecord(Record(id, line, start)));
      occs := occs + [o];
    }

    /** Tokenize one line and record each of its words. */
    method ProcessLine(line: seq<Byte>, no: U32)
      requires Valid() && |line| < U32_LIMIT
      requires forall o :: o in OccsFrom(line, no, 0) ==> o.word in vocabulary
      modifies this, lexicon, lexicon.slots, buckets.Repr
      ensures Valid() && (lexicon.slots == old(lexicon.slots) || fresh(lexicon.slots))
      ensures occs == old(occs) + OccsFrom(line, no, 0)
    {
      hide Valid, OccsFrom;
      var pos := 0;
      while pos < |line|
        invariant Valid() && (lexicon.slots == old(lexicon.slots) || fresh(lexicon.slots))
        invariant pos <= |line|
        invariant occs + OccsFrom(line, no, pos) == old(occs) + OccsFrom(line, no, 0)
        invariant forall o :: o in OccsFrom(line, no, pos) ==> o.word in vocabulary
      {
        OccsFromStep(line, no, pos);
        var start := FindSepsEnd(line, pos);
        if start >= |line| {
          assert occs + [] == occs;
          return;
        }
        var end := FindWordEnd(line, start);
        VocabularyStep(line, no, pos, vocabulary);
        ghost var before, o := occs, Occ(Lower(line[start..end]), no, start);
        AddOccurrence(line[start..end], no, start);
        ConcatAssoc(before, [o], OccsFrom(line, no, end));
        pos := end;
      }
      OccsFromStep(line, no, |line|);
      assert occs + [] == occs;
    }
  }

  lemma VocabularyStep(line: seq<Byte>, no: nat, pos: nat, vocabulary: set<seq<Byte>>)
    requires pos <= |line| && SkipSeps(line, pos) < |line|
    requires forall o :: o in OccsFrom(line, no, pos) ==> o.word in vocabulary
    ensures var start := SkipSeps(line, pos);
      && Lower(line[start..SkipWord(line, start)]) in vocabulary
      && (forall o :: o in OccsFrom(line, no, SkipWord(line, start)) ==> o.word in vocabulary)
  {
    OccsFromStep(line, no, pos);
    assert OccsFrom(line, no, pos)[0] in OccsFrom(line, no, pos);
  }

  /** The lexicon, the occurrences taken in so far and the bucket files agree. */
  ghost predicate Consistent(words: seq<seq<Byte>>, occs: seq<Occ>, files: seq<seq<Byte>>, vocabulary: set<seq<Byte>>) {
    Knows(words, occs) && FilesOk(words, occs, files) && DrawnFrom(words, vocabulary)
  }

  lemma ConsistentStart(files: seq<seq<Byte>>, vocabulary: set<seq<Byte>>)
    requires |files| == OCC_BUCKETS && forall b {:trigger files[b]} :: 0 <= b < OCC_BUCKETS ==> files[b] == []
    ensures Consistent([], [], files, vocabulary)
  {
    FilesOkStart([], files);
  }

  lemma ConsistentBound(words: seq<seq<Byte>>, occs: seq<Occ>, files: seq<seq<Byte>>, vocabulary: set<seq<Byte>>)
    requires Consistent(words, occs, files, vocabulary) && NoDuplicates(words)
    ensures |words| <= |vocabulary|
  {
    DistinctBound(words, vocabulary);
  }

  lemma ConsistentStep(words: seq<seq<Byte>>, more: seq<seq<Byte>>, occs: seq<Occ>, files: seq<seq<Byte>>,
                       vocabulary: set<seq<Byte>>, o: Occ, id: U32, bucket: nat)
    requires Consistent(words, occs, files, vocabulary) && NoDuplicates(more)
    requires more == words || more == words + [o.word]
    requires OccFits(o) && o.word in vocabulary && id < |more| && more[id] == o.word
    requires bucket == HashOf(o.word) % OCC_BUCKETS < |files|
    ensures Consistent(more, occs + [o], files[bucket := files[bucket] + EncodeRecord(Record(id, o.line, o.start))],
      vocabulary)
  {
    hide FilesOk, Knows, NoDuplicates, DrawnFrom, EncodeRecord, HashOf;
    DrawnStep(words, more, o.word, vocabulary);
    FilesOkStep(words, more, occs, files, o, id);
    KnowsStep(words, more, occs, o, id);
  }

  lemma KnowsStep(words: seq<seq<Byte>>, more: seq<seq<Byte>>, occs: seq<Occ>, o: Occ, id: nat)
    requires Knows(words, occs) && words <= more && id < |more| && more[id] == o.word
    ensures Knows(more, occs + [o])
  {
    forall w | w in words ensures w in more {
      var i :| 0 <= i < |words| && words[i] == w;
      assert more[i] == w;
    }
  }

  lemma VocabularyOfPrefix(lines: seq<seq<Byte>>, k: nat)
    requires k < |lines|
    ensures forall o :: o in OccsFrom(lines[k], k + 1, 0) ==> o.word in Vocabulary(lines)
  {
    forall o | o in OccsFrom(lines[k], k + 1, 0) ensures o.word in Vocabulary(lines) {
      LineOccsExact(lines[k], k + 1, o);
      TextOccsExact(lines, o);
    }
  }

  /** What the source needs of a text: its numbers fit their fields. */
  ghost predicate TextFits(text: seq<Byte>) {
    && Fits(Lines(text))
    && |text| < Capacity(LineTable.OFFSET_SIZE)
    && |Vocabulary(Lines(text))| + 1 < U32_LIMIT
  }

  lemma TextFitsParts(text: seq<Byte>)
    requires TextFits(text)
    ensures |Vocabulary(Lines(text))| + 1 < U32_LIMIT && |Lines(text)| < U32_LIMIT
  {
  }

  /** The line just taken is the text's next line; its numbers and words fit. */
  lemma NextLineFits(text: seq<Byte>, rest: seq<Byte>, done: seq<seq<Byte>>, line: seq<Byte>, offs: seq<nat>, next: nat)
    requires TextFits(text) && LineTable.Progress(text, rest, done + [line], offs, next)
    ensures |done| + 1 < U32_LIMIT && |line| < U32_LIMIT
    ensures forall o :: o in OccsFrom(line, |done| + 1, 0) ==> o.word in Vocabulary(Lines(text))
  {
    assert Lines(text)[|done|] == line;
    VocabularyOfPrefix(Lines(text), |done|);
  }

  lemma FinishedValid(index: Index)
    requires TextFits(index.input) && index.lexicon.Valid() && NoCaches(index.lexicon.entries)
    requires index.lineFile == LineTable.OffsetFile(LineTable.Offsets(index.input))
    requires index.lineCount == |Lines(index.input)|
    requires Consistent(index.lexicon.Words(), TextOccs(Lines(index.input)), index.occFiles,
      Vocabulary(Lines(index.input)))
    ensures index.Valid()
  {
    index.lexicon.WordsDistinct();
  }

  /** The reader, the table writer and the builder share nothing. */
  ghost predicate Apart(reader: LineReader, table: LineTable.LineWriter, builder: Builder)
    reads builder.lexicon
  {
    var ahead: set<object> := {reader, reader.file, reader.buf};
    var core: set<object> := {builder, builder.lexicon, builder.lexicon.slots};
    && ahead !! table.Repr && ahead !! core && ahead !! builder.buckets.Repr
    && core !! table.Repr && table.Repr !! builder.buckets.Repr
  }

  /** Take one line off the reader into the table and the buckets. */
  method TakeLine(reader: LineReader, table: LineTable.LineWriter, builder: Builder, ghost input: seq<Byte>,
                  ghost done: seq<seq<Byte>>)
    returns (more: bool, ghost after: seq<seq<Byte>>)
    requires TextFits(input) && reader.Valid() && table.Valid() && builder.Valid() && Apart(reader, table, builder)
    requires builder.vocabulary == Vocabulary(Lines(input)) && builder.occs == TextOccs(done) && table.count == |done|
    requires LineTable.Progress(input, reader.Rest(), done, table.offs, table.next)
    modifies reader, reader.file, reader.buf, table.Repr
    modifies builder, builder.lexicon, builder.lexicon.slots, builder.buckets.Repr
    ensures reader.Valid() && table.Valid() && builder.Valid() && Apart(reader, table, builder)
    ensures builder.lexicon.slots == old(builder.lexicon.slots) || fresh(builder.lexicon.slots)
    ensures builder.occs == TextOccs(after) && table.count == |after|
    ensures LineTable.Progress(input, reader.Rest(), after, table.offs, table.next)
    ensures more ==> |reader.Rest()| < |old(reader.Rest())|
    ensures !more ==> reader.Rest() == []
  {
    hide TextFits, TextOccs, LineTable.Progress, Lines, OccsFrom, Vocabulary, Builder.Valid,
      LineTable.LineWriter.Valid, LineReader.Valid;
    ghost var rest := reader.Rest();
    var line, hadNewline;
    more, line, hadNewline := reader.ReadLine();
    if !more {
      after := done;
      return;
    }
    after := done + [line];
    LineTable.ProgressStep(input, rest, done, table.offs, table.next);
    NextLineFits(input, reader.Rest(), done, line, table.offs + [table.next + LineExtent(rest)],
      table.next + LineExtent(rest));
    builder.ProcessLine(line, table.count + 1);
    table.Add(|line|, hadNewline);
    TextOccsSnoc(done, line);
  }

  /** Take lines off the reader until the input is exhausted. */
  method TakeAllLines(reader: LineReader, table: LineTable.LineWriter, builder: Builder, ghost input: seq<Byte>)
    requires TextFits(input) && reader.Valid() && table.Valid() && builder.Valid() && Apart(reader, table, builder)
    requires reader.Rest() == input && table.offs == [0] && table.next == 0 && table.count == 0 && builder.occs == []
    requires builder.vocabulary == Vocabulary(Lines(input))
    modifies reader, reader.file, reader.buf, table.Repr
    modifies builder, builder.lexicon, builder.lexicon.slots, builder.buckets.Repr
    ensures table.Valid() && builder.Valid() && Apart(reader, table, builder)
    ensures builder.lexicon.slots == old(builder.lexicon.slots) || fresh(builder.lexicon.slots)
    ensures builder.occs == TextOccs(Lines(input)) && table.count == |Lines(input)|
    ensures table.offs == LineTable.Offsets(input)
  {
    LineTable.ProgressStart(input);
    NoOccs();
    hide TextFits, TextOccs, LineTable.Progress, Lines, Vocabulary, Builder.Valid, LineTable.LineWriter.Valid,
      LineReader.Valid;
    ghost var done: seq<seq<Byte>> := [];
    var more := true;
    while more
      invariant reader.Valid() && table.Valid() && builder.Valid() && Apart(reader, table, builder)
      invariant builder.lexicon.slots == old(builder.lexicon.slots) || fresh(builder.lexicon.slots)
      invariant builder.vocabulary == Vocabulary(Lines(input)) && builder.occs == TextOccs(done)
      invariant table.count == |done|
      invariant LineTable.Progress(input, reader.Rest(), done, table.offs, table.next)
      invariant !more ==> reader.Rest() == []
      decreases more, |reader.Rest()|
    {
      more, done := TakeLine(reader, table, builder, input, done);
    }
    LineTable.ProgressEnd(input, done, table.offs, table.next);
  }

  method OpenInput(input: seq<Byte>) returns (reader: LineReader, table: LineTable.LineWriter)
    ensures reader.Valid() && table.Valid()
    ensures {reader, reader.file, reader.buf} !! table.Repr
    ensures reader.Rest() == input && table.offs == [0] && table.next == 0 && table.count == 0
    ensures fresh(reader) && fresh(reader.file) && fresh(reader.buf) && fresh(table.Repr)
  {
    hide LineTable.LineWriter.Valid;
    var file := new FileHandle(input);
    reader := new LineReader(file);
    table := new LineTable.LineWriter();
  }

  /** Fresh reader, table writer and builder for one pass. */
  method StartPass(input: seq<Byte>) returns (reader: LineReader, table: LineTable.LineWriter, builder: Builder)
    requires TextFits(input)
    ensures reader.Valid() && table.Valid() && builder.Valid() && Apart(reader, table, builder)
    ensures reader.Rest() == input && table.offs == [0] && table.next == 0 && table.count == 0 && builder.occs == []
    ensures builder.vocabulary == Vocabulary(Lines(input))
    ensures fresh(reader) && fresh(reader.file) && fresh(reader.buf) && fresh(table.Repr)
    ensures fresh(builder) && fresh(builder.lexicon) && fresh(builder.lexicon.slots) && fresh(builder.buckets.Repr)
  {
    TextFitsParts(input);
    hide TextFits, Lines, Vocabulary, LineTable.LineWriter.Valid, LineReader.Rest, LineReader.Valid, Builder.Valid;
    reader, table := OpenInput(input);
    builder := NewBuilder(Vocabulary(Lines(input)), {reader, reader.file, reader.buf} + table.Repr);
  }

  /** A builder that shares nothing with the objects in use. */
  method NewBuilder(ghost vocabulary: set<seq<Byte>>, ghost inUse: set<object>) returns (builder: Builder)
    requires |vocabulary| + 1 < U32_LIMIT
    ensures builder.Valid() && builder.occs == [] && builder.vocabulary == vocabulary
    ensures inUse !! {builder, builder.lexicon, builder.lexicon.slots} + builder.buckets.Repr
    ensures {builder, builder.lexicon, builder.lexicon.slots} !! builder.buckets.Repr
    ensures fresh(builder) && fresh(builder.lexicon) && fresh(builder.lexicon.slots) && fresh(builder.buckets.Repr)
  {
    hide Builder.Valid;
    builder := new Builder(vocabulary);
    BuilderApart(builder);
  }

  lemma BuilderApart(builder: Builder)
    requires builder.Valid()
    ensures {builder, builder.lexicon, builder.lexicon.slots} !! builder.buckets.Repr
  {
  }

  /** One pass over the input builds a valid index, however the input arrives. */
  method BuildIndex(input: seq<Byte>, io: Reads) returns (index: Index)
    requires TextFits(input)
    ensures index.Valid() && index.input == input && index.io == io
    ensures fresh(index.lexicon) && fresh(index.lexicon.slots)
  {
    hide TextFits, TextOccs, Lines, Vocabulary, LineTable.Offsets, Builder.Valid, LineTable.LineWriter.Valid,
      LineReader.Valid, LineReader.Rest;
    var reader, table, builder := StartPass(input);
    TakeAllLines(reader, table, builder, input);
    index := Finish(input, io, table, builder);
  }

  /** Flush everything; the files now hold what the pass has written. */
  method Finish(input: seq<Byte>, io: Reads, table: LineTable.LineWriter, builder: Builder) returns (index: Index)
    requires TextFits(input) && table.Valid() && builder.Valid()
    requires table.Repr !! {builder, builder.lexicon, builder.lexicon.slots} + builder.buckets.Repr
    requires table.offs == LineTable.Offsets(input) && table.count == |Lines(input)|
    requires builder.occs == TextOccs(Lines(input)) && builder.vocabulary == Vocabulary(Lines(input))
    modifies table.Repr, builder.buckets.Repr
    ensures index.Valid() && index.input == input && index.io == io && index.lexicon == builder.lexicon
    ensures builder.lexicon.slots == old(builder.lexicon.slots)
  {
    hide TextOccs, LineTable.Progress, Lines, Vocabulary, Consistent, LineTable.OffsetFile, LineTable.Offsets;
    TextFitsParts(input);
    hide TextFits;
    var lineFile := table.Flush();
    var files := builder.buckets.FlushAll();
    index := new Index(input, io, lineFile, files, table.count, builder.lexicon);
    FinishedValid(index);
  }

  lemma NoOccs()
    ensures TextOccs([]) == []
  {
  }
}
