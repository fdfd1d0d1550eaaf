/** Occurrences of words in a text and the record files that hold them: what every
    bucket and every word cache must contain, and what those records say about lines. */
module Postings {
  import opened Bytes
  import opened Text
  import opened Records
  import opened LexiconTable

  /** Word `word` (folded) starts at byte `start` of the 1-based line `line`. */
  datatype Occ = Occ(word: seq<Byte>, line: nat, start: nat)

  predicate TokensFit(line: seq<Byte>, toks: seq<Token>) {
    forall t :: t in toks ==> t.start < t.end <= |line|
  }

  lemma {:induction false} TokensFromFit(line: seq<Byte>, pos: nat)
    requires pos <= |line|
    ensures TokensFit(line, TokensFrom(line, pos))
    decreases |line| - pos
  {
    var start := SkipSeps(line, pos);
    if start < |line| {
      TokensFromFit(line, SkipWord(line, start));
    }
  }

  function LineOccs(line: seq<Byte>, no: nat, toks: seq<Token>): (occs: seq<Occ>)
    requires TokensFit(line, toks)
    ensures |occs| == |toks|
    ensures forall i :: 0 <= i < |toks| ==> occs[i] == Occ(WordAt(line, toks[i]), no, toks[i].start)
  {
    seq(|toks|, i requires 0 <= i < |toks| => Occ(WordAt(line, toks[i]), no, toks[i].start))
  }

  /** The occurrences of a line from byte `pos` on. */
  function OccsFrom(line: seq<Byte>, no: nat, pos: nat): seq<Occ>
    requires pos <= |line|
  {
    TokensFromFit(line, pos);
    LineOccs(line, no, TokensFrom(line, pos))
  }

  /** The next word of the line gives the next occurrence. */
  lemma OccsFromStep(line: seq<Byte>, no: nat, pos: nat)
    requires pos <= |line|
    ensures var start := SkipSeps(line, pos);
      OccsFrom(line, no, pos) ==
        if start == |line| then []
        else [Occ(Lower(line[start..SkipWord(line, start)]), no, start)] + OccsFrom(line, no, SkipWord(line, start))
  {
    TokensFromFit(line, pos);
    var start := SkipSeps(line, pos);
    if start < |line| {
      var end := SkipWord(line, start);
      TokensFromFit(line, end);
      assert TokensFrom(line, pos) == [Token(start, end)] + TokensFrom(line, end);
    }
  }

  /** All occurrences of a text, line by line. */
  ghost function TextOccs(lines: seq<seq<Byte>>): seq<Occ> {
    if lines == [] then []
    else
      var n := |lines| - 1;
      TextOccs(lines[..n]) + OccsFrom(lines[n], n + 1, 0)
  }

  /** Line numbers and offsets fit the 32-bit fields of a record. */
  ghost predicate Fits(lines: seq<seq<Byte>>) {
    && |lines| < U32_LIMIT
    && (forall i :: 0 <= i < |lines| ==> |lines[i]| < U32_LIMIT)
  }

  ghost predicate OccFits(o: Occ) {
    o.line < U32_LIMIT && o.start < U32_LIMIT
  }

  /** An occurrence is exactly a word run of its line. */
  ghost predicate IsOccOf(lines: seq<seq<Byte>>, o: Occ) {
    && 1 <= o.line <= |lines|
    && (exists t :: IsWordRun(lines[o.line - 1], t) && t.start == o.start && WordAt(lines[o.line - 1], t) == o.word)
  }

  lemma TextOccsSnoc(lines: seq<seq<Byte>>, line: seq<Byte>)
    ensures TextOccs(lines + [line]) == TextOccs(lines) + OccsFrom(line, |lines| + 1, 0)
  {
    assert (lines + [line])[..|lines|] == lines;
  }

  lemma LineOccsExact(line: seq<Byte>, no: nat, o: Occ)
    ensures o in OccsFrom(line, no, 0) <==>
      o.line == no && exists t :: IsWordRun(line, t) && t.start == o.start && WordAt(line, t) == o.word
  {
    TokensAreRuns(line);
    TokensFromFit(line, 0);
    var toks := Tokens(line);
    if o in LineOccs(line, no, toks) {
      var i :| 0 <= i < |toks| && LineOccs(line, no, toks)[i] == o;
      assert toks[i] in toks && IsWordRun(line, toks[i]);
    }
    if t :| o.line == no && IsWordRun(line, t) && t.start == o.start && WordAt(line, t) == o.word {
      assert t in toks;
      var i :| 0 <= i < |toks| && toks[i] == t;
      assert LineOccs(line, no, toks)[i] == o;
    }
  }

  lemma {:induction false} TextOccsExact(lines: seq<seq<Byte>>, o: Occ)
    ensures o in TextOccs(lines) <==> IsOccOf(lines, o)
  {
    if lines != [] {
      var n := |lines| - 1;
      TextOccsExact(lines[..n], o);
      LineOccsExact(lines[n], n + 1, o);
      assert o.line <= n ==> 1 <= o.line ==> lines[..n][o.line - 1] == lines[o.line - 1];
    }
  }

  /** Text order: by line, then by offset. */
  predicate OccBefore(a: Occ, b: Occ) {
    a.line < b.line || (a.line == b.line && a.start < b.start)
  }

  ghost predicate OccsOrdered(occs: seq<Occ>) {
    forall i, j :: 0 <= i < j < |occs| ==> OccBefore(occs[i], occs[j])
  }

  lemma {:induction false} TextOccsOrdered(lines: seq<seq<Byte>>)
    ensures OccsOrdered(TextOccs(lines))
    ensures forall o :: o in TextOccs(lines) ==> 1 <= o.line <= |lines|
  {
    if lines != [] {
      var n := |lines| - 1;
      TextOccsOrdered(lines[..n]);
      var front, last := TextOccs(lines[..n]), OccsFrom(lines[n], n + 1, 0);
      LineOrdered(lines[n], n + 1);
      AppendOrdered(front, last);
    }
  }

  lemma LineOrdered(line: seq<Byte>, no: nat)
    ensures OccsOrdered(OccsFrom(line, no, 0))
    ensures forall o :: o in OccsFrom(line, no, 0) ==> o.line == no
  {
    TokensAreRuns(line);
    TokensFromFit(line, 0);
    var toks, occs := Tokens(line), OccsFrom(line, no, 0);
    forall i, j | 0 <= i < j < |toks| ensures OccBefore(occs[i], occs[j]) {
      assert toks[i] in toks;
    }
  }

  lemma AppendOrdered(a: seq<Occ>, b: seq<Occ>)
    requires OccsOrdered(a) && OccsOrdered(b)
    requires forall x, y :: x in a && y in b ==> OccBefore(x, y)
    ensures OccsOrdered(a + b)
  {
    forall i, j | 0 <= i < j < |a + b| ensures OccBefore((a + b)[i], (a + b)[j]) {
      if i < |a| <= j {
        assert a[i] in a && b[j - |a|] in b;
      }
    }
  }

  // ------------------------------------------------ records

  /** The bucket file a word's records go to. */
  function BucketOf(word: seq<Byte>): (b: nat)
    ensures b < OCC_BUCKETS
  {
    HashOf(word) % OCC_BUCKETS
  }

  function RecordOf(id: U32, o: Occ): Record {
    Record(id, o.line % U32_LIMIT, o.start % U32_LIMIT)
  }

  /** The id of a known word. */
  ghost function IdOf(words: seq<seq<Byte>>, w: seq<Byte>): (id: nat)
    ensures w in words ==> id < |words| && words[id] == w
  {
    if w in words then var i :| 0 <= i < |words| && words[i] == w; i else 0
  }

  lemma IdOfIs(words: seq<seq<Byte>>, id: nat)
    requires NoDuplicates(words) && id < |words|
    ensures IdOf(words, words[id]) == id
  {
  }

  ghost function BucketRecords(words: seq<seq<Byte>>, occs: seq<Occ>, b: nat): seq<Record> {
    if occs == [] then []
    else
      var n := |occs| - 1;
      BucketRecords(words, occs[..n], b)
      + if BucketOf(occs[n].word) == b then [RecordOf(IdOf(words, occs[n].word) % U32_LIMIT, occs[n])] else []
  }

  /** The records of one word, in text order: what its cache file must hold. */
  ghost function WordRecords(id: U32, occs: seq<Occ>, w: seq<Byte>): seq<Record> {
    if occs == [] then []
    else
      var n := |occs| - 1;
      WordRecords(id, occs[..n], w) + if occs[n].word == w then [RecordOf(id, occs[n])] else []
  }

  /** What a scan for one id keeps. */
  function WithId(recs: seq<Record>, id: U32): seq<Record> {
    if recs == [] then []
    else
      var n := |recs| - 1;
      WithId(recs[..n], id) + if recs[n].word == id then [recs[n]] else []
  }

  lemma WithIdSnoc(recs: seq<Record>, r: Record, id: U32)
    ensures WithId(recs + [r], id) == WithId(recs, id) + if r.word == id then [r] else []
  {
    assert (recs + [r])[..|recs|] == recs;
  }

  ghost predicate Knows(words: seq<seq<Byte>>, occs: seq<Occ>) {
    forall i {:trigger occs[i]} :: 0 <= i < |occs| ==> occs[i].word in words
  }

  lemma BucketRecordsSnoc(words: seq<seq<Byte>>, occs: seq<Occ>, o: Occ, b: nat)
    ensures BucketRecords(words, occs + [o], b) == BucketRecords(words, occs, b)
      + if BucketOf(o.word) == b then [RecordOf(IdOf(words, o.word) % U32_LIMIT, o)] else []
  {
    assert (occs + [o])[..|occs|] == occs;
  }

  /** Learning another word changes no record already written. */
  lemma {:induction false} BucketRecordsStable(words: seq<seq<Byte>>, more: seq<seq<Byte>>, occs: seq<Occ>, b: nat)
    requires NoDuplicates(more) && words <= more && Knows(words, occs)
    ensures BucketRecords(words, occs, b) == BucketRecords(more, occs, b)
  {
    if occs != [] {
      var n := |occs| - 1;
      BucketRecordsStable(words, more, occs[..n], b);
      IdOfIs(more, IdOf(words, occs[n].word));
    }
  }

  /** Scanning a word's bucket for its id yields exactly the word's own records: nothing
      of another word in the same bucket, nothing lost to another bucket. */
  lemma {:induction false} BucketScanIsWord(words: seq<seq<Byte>>, occs: seq<Occ>, id: U32)
    requires NoDuplicates(words) && |words| <= U32_LIMIT && id < |words| && Knows(words, occs)
    ensures WithId(BucketRecords(words, occs, BucketOf(words[id])), id) == WordRecords(id, occs, words[id])
  {
    hide BucketOf;
    if occs != [] {
      var n := |occs| - 1;
      var b := BucketOf(words[id]);
      BucketScanIsWord(words, occs[..n], id);
      var w := occs[n].word;
      IdOfIs(words, id);
      assert w in words && words[IdOf(words, w)] == w;
      assert IdOf(words, w) == id <==> w == words[id];
      if BucketOf(w) == b {
        WithIdSnoc(BucketRecords(words, occs[..n], b), RecordOf(IdOf(words, w), occs[n]), id);
      } else {
        assert BucketRecords(words, occs, b) == BucketRecords(words, occs[..n], b);
      }
    }
  }

  /** A word's records are its occurrences, in strictly increasing (line, start) order. */
  predicate RecordBefore(a: Record, b: Record) {
    a.line < b.line || (a.line == b.line && a.start < b.start)
  }

  ghost predicate RecordsOrdered(recs: seq<Record>) {
    forall i, j :: 0 <= i < j < |recs| ==> RecordBefore(recs[i], recs[j])
  }

  lemma {:induction false} WordRecordsMember(id: U32, occs: seq<Occ>, w: seq<Byte>, r: Record)
    ensures r in WordRecords(id, occs, w) <==> exists o :: o in occs && o.word == w && RecordOf(id, o) == r
  {
    if occs != [] {
      var n := |occs| - 1;
      WordRecordsMember(id, occs[..n], w, r);
      assert forall o :: o in occs <==> o in occs[..n] || o == occs[n];
    }
  }

  lemma LastIsAfter(id: U32, occs: seq<Occ>, w: seq<Byte>, n: nat, r: Record)
    requires OccsOrdered(occs) && (forall i {:trigger occs[i]} :: 0 <= i < |occs| ==> OccFits(occs[i]))
    requires n < |occs| && r in WordRecords(id, occs[..n], w)
    ensures RecordBefore(r, RecordOf(id, occs[n]))
  {
    hide WordRecords, RecordOf, RecordBefore;
    WordRecordsMember(id, occs[..n], w, r);
    var o :| o in occs[..n] && o.word == w && RecordOf(id, o) == r;
    var i :| 0 <= i < n && occs[i] == o;
    RecordsKeepOrder(id, occs[i], occs[n]);
  }

  lemma RecordsKeepOrder(id: U32, a: Occ, b: Occ)
    requires OccFits(a) && OccFits(b) && OccBefore(a, b)
    ensures RecordBefore(RecordOf(id, a), RecordOf(id, b))
  {
  }

  lemma {:induction false} WordRecordsOrdered(id: U32, occs: seq<Occ>, w: seq<Byte>)
    requires OccsOrdered(occs) && (forall i {:trigger occs[i]} :: 0 <= i < |occs| ==> OccFits(occs[i]))
    ensures RecordsOrdered(WordRecords(id, occs, w))
  {
    if occs != [] {
      var n := |occs| - 1;
      WordRecordsOrdered(id, occs[..n], w);
      var front := WordRecords(id, occs[..n], w);
      forall i | 0 <= i < |front| ensures RecordBefore(front[i], RecordOf(id, occs[n])) {
        LastIsAfter(id, occs, w, n, front[i]);
      }
    }
  }

  lemma TextOccsFit(lines: seq<seq<Byte>>, o: Occ)
    requires Fits(lines) && o in TextOccs(lines)
    ensures OccFits(o)
  {
    TextOccsExact(lines, o);
  }

  /** The records of word `w` in a text. */
  ghost function Posting(id: U32, lines: seq<seq<Byte>>, w: seq<Byte>): seq<Record> {
    WordRecords(id, TextOccs(lines), w)
  }

  lemma PostingMember(id: U32, lines: seq<seq<Byte>>, w: seq<Byte>, r: Record)
    requires Fits(lines)
    ensures r in Posting(id, lines, w) <==> r.word == id && IsOccOf(lines, Occ(w, r.line, r.start))
  {
    hide IsOccOf, TextOccs, WordRecords, Fits;
    var occs := TextOccs(lines);
    WordRecordsMember(id, occs, w, r);
    TextOccsExact(lines, Occ(w, r.line, r.start));
    if o :| o in occs && o.word == w && RecordOf(id, o) == r {
      TextOccsFit(lines, o);
      assert o == Occ(w, r.line, r.start);
    }
    if r.word == id && Occ(w, r.line, r.start) in occs {
      assert RecordOf(id, Occ(w, r.line, r.start)) == r;
    }
  }

  /** A posting list is strictly increasing and holds exactly the runs that spell the word. */
  lemma PostingExact(id: U32, lines: seq<seq<Byte>>, w: seq<Byte>)
    requires Fits(lines)
    ensures RecordsOrdered(Posting(id, lines, w))
    ensures forall r :: r in Posting(id, lines, w) <==> r.word == id && IsOccOf(lines, Occ(w, r.line, r.start))
  {
    var occs := TextOccs(lines);
    TextOccsOrdered(lines);
    forall i | 0 <= i < |occs| ensures OccFits(occs[i]) {
      TextOccsFit(lines, occs[i]);
    }
    WordRecordsOrdered(id, occs, w);
    forall r: Record ensures r in Posting(id, lines, w) <==> r.word == id && IsOccOf(lines, Occ(w, r.line, r.start)) {
      PostingMember(id, lines, w, r);
    }
  }
}
