/** Answering queries from the index by streaming one posting list (PA1/query.c:682-750): both
    kinds print exactly what the naive scan of the text prints. */
module StreamQuery {
  import opened Bytes
  import opened Text
  import opened Files
  import opened Output
  import opened NaiveScan
  import opened Options
  import opened Records
  import opened LexiconTable
  import opened Postings
  import opened IndexBuild
  import opened Scan
  import opened WordCache
  import opened PostingAnswers
  import opened PhraseAnswers

  /** The index is intact and the output does not overlap it. */
  ghost predicate Ready(index: Index, out: OutBuf)
    reads index.lexicon, index.lexicon.slots, out
  {
    index.Valid() && out.Valid() && {out, out.buf} !! {index.lexicon, index.lexicon.slots}
  }

  /** `now` is `was` and then the answer made of `items`. */
  ghost predicate Answered(was: seq<Byte>, items: seq<Item>, now: seq<Byte>) {
    now == was + (Render(items) + [NEWLINE])
  }

  /** What a query has printed when it ends: its answer, or on failure a front part of it. */
  ghost predicate Outcome(was: seq<Byte>, items: seq<Item>, now: seq<Byte>, ok: bool) {
    (ok ==> Answered(was, items, now)) && Within(was, Render(items) + [NEWLINE], now)
  }

  lemma AnsweredOutcome(was: seq<Byte>, items: seq<Item>, now: seq<Byte>)
    requires Answered(was, items, now)
    ensures Outcome(was, items, now, true)
  {
  }

  lemma NothingOutcome(was: seq<Byte>)
    ensures Outcome(was, [], was + [NEWLINE], true)
  {
    AnsweredNothing(was);
  }

  lemma FailedOutcome(was: seq<Byte>, items: seq<Item>, now: seq<Byte>)
    requires Within(was, Render(items), now)
    ensures Outcome(was, items, now, false)
  {
    ConcatAssoc(was, Render(items), [NEWLINE]);
  }

  lemma SilentOutcome(was: seq<Byte>, items: seq<Item>)
    ensures Outcome(was, items, was, false)
  {
  }

  lemma AnsweredNothing(was: seq<Byte>)
    ensures Answered(was, [], was + [NEWLINE])
  {
    assert [] + [NEWLINE] == [NEWLINE];
  }

  lemma AnsweredItems(was: seq<Byte>, items: seq<Item>)
    ensures Answered(was, items, was + Render(items) + [NEWLINE])
  {
    hide Render;
  }

  /** A word the lexicon does not know occurs nowhere. */
  lemma UnknownWord(index: Index, w: seq<Byte>)
    requires index.Valid() && (w == [] || w !in index.lexicon.Words())
    ensures forall o :: o in TextOccs(Lines(index.input)) ==> o.word != w
    ensures Posting(0, Lines(index.input), w) == []
  {
    hide Index.TextOk, FilesOk, CachesOk, Lexicon.Valid;
    var lines := Lines(index.input);
    var occs := TextOccs(lines);
    forall o | o in occs ensures o.word != w {
      var i :| 0 <= i < |occs| && occs[i] == o;
      TextOccsExact(lines, o);
    }
    NoRecordsOf(0, occs, w);
  }

  lemma {:induction false} NoRecordsOf(id: U32, occs: seq<Occ>, w: seq<Byte>)
    requires forall o :: o in occs ==> o.word != w
    ensures WordRecords(id, occs, w) == []
  {
    if occs != [] {
      NoRecordsOf(id, occs[..|occs| - 1], w);
    }
  }

  // ------------------------------------------------ streaming a posting list

  lemma RenderNothing()
    ensures Render([]) == []
  {
    assert RenderEach([]) == [];
  }

  lemma {:induction false} EmitsReferences(c: Consumer, recs: seq<Record>)
    requires c.ToOutput?
    ensures c.EmitsAll(recs) == Render(RefsOf(recs))
  {
    hide Render, RenderItem;
    if recs == [] {
      RenderNothing();
    } else {
      var n := |recs| - 1;
      EmitsReferences(c, recs[..n]);
      assert RefsOf(recs) == RefsOf(recs[..n]) + [Ref(recs[n].line, recs[n].start)];
      RenderConcat(RefsOf(recs[..n]), [Ref(recs[n].line, recs[n].start)]);
      RenderOne(Ref(recs[n].line, recs[n].start));
    }
  }

  lemma {:induction false} EmitsVerified(c: Consumer, recs: seq<Record>)
    requires c.ToPhrase?
    ensures c.EmitsAll(recs) == Render(Verified(Lines(c.match_.input), c.match_.phrase, recs))
  {
    hide Render, RenderItem, CandidateHolds;
    if recs == [] {
      RenderNothing();
    } else {
      var n := |recs| - 1;
      EmitsVerified(c, recs[..n]);
      var lines, phrase := Lines(c.match_.input), c.match_.phrase;
      var front := Verified(lines, phrase, recs[..n]);
      if RecordHolds(lines, phrase, recs[n]) {
        RenderConcat(front, [Ref(recs[n].line, recs[n].start)]);
        RenderOne(Ref(recs[n].line, recs[n].start));
      } else {
        assert c.EmitsAll(recs[..n]) + [] == c.EmitsAll(recs[..n]) && front + [] == front;
      }
    }
  }

  /** Every record of a posting list names an existing line. */
  lemma PostingAccepted(index: Index, id: U32, w: seq<Byte>, c: Consumer)
    requires index.Valid() && (c.ToPhrase? ==> c.match_.input == index.input)
    ensures AcceptsAll(c, Posting(id, Lines(index.input), w))
  {
    hide Posting, Fits, Lexicon.Valid, Knows, FilesOk, CachesOk;
    PostingLines(id, Lines(index.input), w);
  }

  /** Hand a word's whole posting list to a consumer, building its cache if needed. */
  method StreamPosting(index: Index, id: U32, bucket: nat, c: Consumer) returns (ok: bool)
    requires index.Valid() && id < |index.lexicon.entries| && bucket == BucketOf(index.lexicon.Words()[id])
    requires c.Valid() && c.Count() == 0 && c.Repr() !! {index.lexicon, index.lexicon.slots}
    requires c.ToPhrase? ==> c.match_.input == index.input
    modifies index.lexicon`entries, c.Repr()
    ensures ok && index.Valid() && c.Valid()
    ensures c.Out().Contents() ==
      old(c.Out().Contents()) + c.EmitsAll(Posting(id, Lines(index.input), old(index.lexicon.Words()[id])))
  {
    hide Consumer.EmitsAll, Posting, RecordFile, DecodeAll, AcceptsAll, Consumer.Tally, Index.Valid, BucketOf;
    ghost var recs := Posting(id, Lines(index.input), index.lexicon.Words()[id]);
    ok := EnsureWordCache(index, id, bucket);
    CacheHolds(index, id);
    PostingAccepted(index, id, index.lexicon.Words()[id], c);
    DecodeRecordFile(recs);
    ok := ScanFile(index.lexicon.entries[id].cache.bytes, c);
  }

  /** The id of a word; one the lexicon does not know has no postings. */
  method FindWord(index: Index, word: seq<Byte>) returns (found: bool, id: U32, bucket: nat)
    requires index.Valid()
    ensures found <==> Lower(word) in index.lexicon.Words()
    ensures found ==> id < |index.lexicon.entries| && index.lexicon.Words()[id] == Lower(word)
    ensures found ==> bucket == BucketOf(Lower(word))
    ensures !found ==> Posting(id, Lines(index.input), Lower(word)) == []
  {
    found, id, bucket := index.lexicon.FindExisting(word);
    if !found {
      UnknownWord(index, Lower(word));
      id := 0;
    }
  }

  lemma NoWordIsEmpty(index: Index)
    requires index.Valid()
    ensures WordItems(Lines(index.input), []) == []
  {
    UnknownWord(index, []);
    PostingPrintsWord(0, Lines(index.input), []);
  }

  lemma TextNumbersFit(index: Index)
    requires index.Valid()
    ensures Fits(Lines(index.input)) && index.TextOk()
  {
  }

  // ------------------------------------------------ one word, one phrase

  method HandleSingle(index: Index, word: seq<Byte>, out: OutBuf) returns (ok: bool)
    requires Ready(index, out)
    modifies index.lexicon`entries, out, out.buf
    ensures ok && Ready(index, out)
    ensures Answered(old(out.Contents()), WordItems(Lines(index.input), Lower(word)), out.Contents())
  {
    hide Consumer.EmitsAll, Posting, Index.Valid, BucketOf, Answered, WordItems, Fits, Index.TextOk;
    ghost var lines, w, was := Lines(index.input), Lower(word), out.Contents();
    TextNumbersFit(index);
    if word == [] {
      NoWordIsEmpty(index);
      AnsweredNothing(was);
      EmitBlankLine(out);
      return true;
    }
    var found, id, bucket := FindWord(index, word);
    PostingPrintsWord(id, lines, w);
    if !found {
      AnsweredNothing(was);
      EmitBlankLine(out);
      return true;
    }
    var c := ToOutput(out);
    EmitsReferences(c, Posting(id, lines, w));
    AnsweredItems(was, WordItems(lines, w));
    ok := StreamPosting(index, id, bucket, c);
    EmitBlankLine(out);
  }

  /** The phrase of a proper phrase query, if it is one. */
  method ParsePhrase(query: seq<Byte>) returns (phrase: Option<seq<Byte>>)
    ensures phrase == QuotedPhrase(query)
    ensures forall p :: phrase == Some(p) <==> IsPhrase(query, p)
  {
    hide IsPhrase;
    forall p ensures QuotedPhrase(query) == Some(p) <==> IsPhrase(query, p) {
      QuotedPhraseExact(query, p);
    }
    if |query| < 2 || query[0] != QUOTE || query[|query| - 1] != QUOTE {
      return None;
    }
    var inner := query[1..|query| - 1];
    var quoted := ContainsChar(inner, QUOTE);
    if inner == [] || IsWordSep(inner[0]) || IsWordSep(inner[|inner| - 1]) || quoted {
      return None;
    }
    return Some(inner);
  }

  /** A phrase check over the index's own text and line table. */
  method PhraseConsumer(index: Index, phrase: seq<Byte>, out: OutBuf) returns (c: Consumer)
    requires index.TextOk() && out.Valid()
    ensures c.ToPhrase? && c.Valid() && c.Count() == 0 && c.Out() == out
    ensures c.match_.input == index.input && c.match_.phrase == phrase
    ensures fresh(c.match_) && c.Repr() == {c.match_, out, out.buf}
  {
    var m := new PhraseMatch(out, index.input, index.lineFile, index.lineCount, phrase);
    TableOfIndex(index, m);
    c := ToPhrase(m);
  }

  /** Search a phrase by the postings of its first word. */
  method SearchPhrase(index: Index, phrase: seq<Byte>, out: OutBuf) returns (ok: bool)
    requires Ready(index, out) && phrase != [] && !IsWordSep(phrase[0])
    modifies index.lexicon`entries, out, out.buf
    ensures ok && Ready(index, out)
    ensures Answered(old(out.Contents()), PhraseItems(Lines(index.input), phrase), out.Contents())
  {
    hide Consumer.EmitsAll, Posting, Index.Valid, BucketOf, Answered, PhraseItems, Fits, Index.TextOk;
    ghost var lines, w, was := Lines(index.input), FirstWord(phrase), out.Contents();
    TextNumbersFit(index);
    var wordEnd := FindWordEnd(phrase, 0);
    var found, id, bucket := FindWord(index, phrase[..wordEnd]);
    PostingPrintsPhrase(id, lines, phrase);
    if !found {
      AnsweredNothing(was);
      EmitBlankLine(out);
      return true;
    }
    hide Verified;
    var c := PhraseConsumer(index, phrase, out);
    EmitsVerified(c, Posting(id, lines, w));
    AnsweredItems(was, PhraseItems(lines, phrase));
    ok := StreamPosting(index, id, bucket, c);
    EmitBlankLine(out);
  }

  lemma TableOfIndex(index: Index, m: PhraseMatch)
    requires index.TextOk()
    requires m.input == index.input && m.lineFile == index.lineFile && m.lineCount == index.lineCount
    ensures m.TableOk()
  {
  }

  /** A quoted query; anything but a proper phrase gets the blank line. */
  method HandlePhrase(index: Index, query: seq<Byte>, out: OutBuf) returns (ok: bool)
    requires Ready(index, out)
    modifies index.lexicon`entries, out, out.buf
    ensures ok && Ready(index, out)
    ensures Answered(old(out.Contents()), PhraseQueryItems(Lines(index.input), query), out.Contents())
    ensures forall p :: IsPhrase(query, p) ==>
      Answered(old(out.Contents()), PhraseItems(Lines(index.input), p), out.Contents())
    ensures (forall p :: !IsPhrase(query, p)) ==> Answered(old(out.Contents()), [], out.Contents())
  {
    hide Index.Valid, Answered, PhraseItems, Lines, IsPhrase;
    PhraseQueryMeans(Lines(index.input), query);
    var phrase := ParsePhrase(query);
    match phrase
    case None =>
      AnsweredNothing(out.Contents());
      EmitBlankLine(out);
      ok := true;
    case Some(p) =>
      ok := SearchPhrase(index, p, out);
  }
}
