/** What posting lists say is what a naive scan of the lines says: one link per query kind. */
module PostingAnswers {
  import opened Bytes
  import opened Text
  import opened Output
  import opened NaiveScan
  import opened Records
  import opened Postings

  // ------------------------------------------------ single words

  /** The printed references of a record list. */
  function RefsOf(recs: seq<Record>): (items: seq<Item>)
    ensures |items| == |recs|
  {
    seq(|recs|, i requires 0 <= i < |recs| => Ref(recs[i].line, recs[i].start))
  }

  lemma RefsOfConcat(a: seq<Record>, b: seq<Record>)
    ensures RefsOf(a + b) == RefsOf(a) + RefsOf(b)
  {
  }

  lemma {:induction false} WordRecordsConcat(id: U32, a: seq<Occ>, b: seq<Occ>, w: seq<Byte>)
    ensures WordRecords(id, a + b, w) == WordRecords(id, a, w) + WordRecords(id, b, w)
  {
    if b == [] {
      assert a + b == a;
    } else {
      var n := |b| - 1;
      WordRecordsConcat(id, a, b[..n], w);
      assert (a + b)[..|a + b| - 1] == a + b[..n];
    }
  }

  lemma OneRef(id: U32, o: Occ, w: seq<Byte>)
    requires OccFits(o)
    ensures RefsOf(WordRecords(id, [o], w)) == if o.word == w then [Ref(o.line, o.start)] else []
  {
    assert WordRecords(id, [o], w) == if o.word == w then [RecordOf(id, o)] else [];
  }

  /** The records of a line's tokens print as the naive references. */
  lemma {:induction false} LineRefs(id: U32, line: seq<Byte>, no: U32, toks: seq<Token>, w: seq<Byte>)
    requires TokensFit(line, toks) && |line| < U32_LIMIT
    ensures RefsOf(WordRecords(id, LineOccs(line, no, toks), w)) == WordRefs(line, no, toks, w)
  {
    if toks != [] {
      var first, rest := Occ(WordAt(line, toks[0]), no, toks[0].start), LineOccs(line, no, toks[1..]);
      assert LineOccs(line, no, toks) == [first] + rest;
      LineRefs(id, line, no, toks[1..], w);
      hide WordRecords, RefsOf, LineOccs, WordAt;
      WordRecordsConcat(id, [first], rest, w);
      RefsOfConcat(WordRecords(id, [first], w), WordRecords(id, rest, w));
      OneRef(id, first, w);
    }
  }

  lemma {:induction false} PostingPrintsWord(id: U32, lines: seq<seq<Byte>>, w: seq<Byte>)
    requires Fits(lines)
    ensures RefsOf(Posting(id, lines, w)) == WordItems(lines, w)
  {
    if lines != [] {
      var n := |lines| - 1;
      PostingPrintsWord(id, lines[..n], w);
      var occs := OccsFrom(lines[n], n + 1, 0);
      WordRecordsConcat(id, TextOccs(lines[..n]), occs, w);
      TokensFromFit(lines[n], 0);
      LineRefs(id, lines[n], n + 1, Tokens(lines[n]), w);
      RefsOfConcat(Posting(id, lines[..n], w), WordRecords(id, occs, w));
    }
  }
}
