/** Driving a phrase search by the postings of the phrase's first word loses no position
    and adds none (PA1/query.c:446-486, PA1/query.c:706-750). */
module PhraseAnswers {
  import opened Bytes
  import opened Text
  import opened Output
  import opened NaiveScan
  import opened Records
  import opened Postings
  import opened Scan
  import opened PostingAnswers

  /** The first word of a phrase, folded. */
  function FirstWord(phrase: seq<Byte>): seq<Byte> {
    Lower(phrase[..SkipWord(phrase, 0)])
  }

  predicate RecordHolds(lines: seq<seq<Byte>>, phrase: seq<Byte>, r: Record) {
    1 <= r.line <= |lines| && CandidateHolds(lines[r.line - 1], phrase, r.start)
  }

  /** The references that survive the check of the line. */
  function Verified(lines: seq<seq<Byte>>, phrase: seq<Byte>, recs: seq<Record>): seq<Item> {
    if recs == [] then []
    else
      var n := |recs| - 1;
      Verified(lines, phrase, recs[..n])
      + if RecordHolds(lines, phrase, recs[n]) then [Ref(recs[n].line, recs[n].start)] else []
  }

  lemma {:induction false} VerifiedConcat(lines: seq<seq<Byte>>, phrase: seq<Byte>, a: seq<Record>, b: seq<Record>)
    ensures Verified(lines, phrase, a + b) == Verified(lines, phrase, a) + Verified(lines, phrase, b)
  {
    if b == [] {
      assert a + b == a;
    } else {
      var n := |b| - 1;
      VerifiedConcat(lines, phrase, a, b[..n]);
      assert (a + b)[..|a + b| - 1] == a + b[..n];
    }
  }

  /** Lines past the records' own do not matter. */
  lemma {:induction false} VerifiedPrefix(lines: seq<seq<Byte>>, n: nat, phrase: seq<Byte>, recs: seq<Record>)
    requires n <= |lines| && forall i {:trigger recs[i]} :: 0 <= i < |recs| ==> recs[i].line <= n
    ensures Verified(lines[..n], phrase, recs) == Verified(lines, phrase, recs)
  {
    hide CandidateHolds;
    if recs != [] {
      var m := |recs| - 1;
      VerifiedPrefix(lines, n, phrase, recs[..m]);
      assert 1 <= recs[m].line ==> lines[..n][recs[m].line - 1] == lines[recs[m].line - 1];
    }
  }

  /** The tokens that spell `w` and carry the phrase. */
  function TokenRefs(line: seq<Byte>, no: nat, toks: seq<Token>, w: seq<Byte>, phrase: seq<Byte>): seq<Item>
    requires TokensFit(line, toks)
  {
    if toks == [] then []
    else
      (if WordAt(line, toks[0]) == w && CandidateHolds(line, phrase, toks[0].start)
       then [Ref(no, toks[0].start)] else [])
      + TokenRefs(line, no, toks[1..], w, phrase)
  }

  lemma UnfoldTokenRefs(line: seq<Byte>, no: nat, toks: seq<Token>, w: seq<Byte>, phrase: seq<Byte>)
    requires TokensFit(line, toks) && toks != []
    ensures TokenRefs(line, no, toks, w, phrase) ==
      (if WordAt(line, toks[0]) == w && CandidateHolds(line, phrase, toks[0].start)
       then [Ref(no, toks[0].start)] else [])
      + TokenRefs(line, no, toks[1..], w, phrase)
  {
  }

  lemma OneVerified(id: U32, lines: seq<seq<Byte>>, o: Occ, w: seq<Byte>, phrase: seq<Byte>)
    requires OccFits(o) && 1 <= o.line <= |lines|
    ensures Verified(lines, phrase, WordRecords(id, [o], w)) ==
      if o.word == w && CandidateHolds(lines[o.line - 1], phrase, o.start) then [Ref(o.line, o.start)] else []
  {
    hide CandidateHolds;
    assert WordRecords(id, [o], w) == if o.word == w then [RecordOf(id, o)] else [];
    assert Verified(lines, phrase, [RecordOf(id, o)])
        == if RecordHolds(lines, phrase, RecordOf(id, o)) then [Ref(o.line, o.start)] else [];
  }

  lemma NoTokens(id: U32, lines: seq<seq<Byte>>, no: nat, w: seq<Byte>, phrase: seq<Byte>)
    requires 1 <= no <= |lines|
    ensures Verified(lines, phrase, WordRecords(id, LineOccs(lines[no - 1], no, []), w)) == []
    ensures TokenRefs(lines[no - 1], no, [], w, phrase) == []
  {
  }

  lemma {:induction false} LineVerified(id: U32, lines: seq<seq<Byte>>, no: U32, toks: seq<Token>, w: seq<Byte>,
                                        phrase: seq<Byte>)
    requires 1 <= no <= |lines| && TokensFit(lines[no - 1], toks) && |lines[no - 1]| < U32_LIMIT
    ensures Verified(lines, phrase, WordRecords(id, LineOccs(lines[no - 1], no, toks), w)) ==
      TokenRefs(lines[no - 1], no, toks, w, phrase)
  {
    hide WordRecords, Verified, WordAt, CandidateHolds, LineOccs, TokenRefs;
    var line := lines[no - 1];
    if toks == [] {
      NoTokens(id, lines, no, w, phrase);
    } else {
      var first, rest := Occ(WordAt(line, toks[0]), no, toks[0].start), LineOccs(line, no, toks[1..]);
      assert LineOccs(line, no, toks) == [first] + rest;
      LineVerified(id, lines, no, toks[1..], w, phrase);
      UnfoldTokenRefs(line, no, toks, w, phrase);
      WordRecordsConcat(id, [first], rest, w);
      VerifiedConcat(lines, phrase, WordRecords(id, [first], w), WordRecords(id, rest, w));
      OneVerified(id, lines, first, w, phrase);
    }
  }

  // ------------------------------------------------ every byte offset

  lemma FoldKeepsSeps(c: Byte, d: Byte)
    requires AsciiLower(c) == AsciiLower(d)
    ensures IsWordSep(c) <==> IsWordSep(d)
  {
  }

  lemma SameSeps(line: seq<Byte>, phrase: seq<Byte>, p: nat, i: nat)
    requires p + |phrase| <= |line| && Lower(line[p..p + |phrase|]) == Lower(phrase) && i < |phrase|
    ensures IsWordSep(line[p + i]) <==> IsWordSep(phrase[i])
  {
    assert Lower(line[p..p + |phrase|])[i] == Lower(phrase)[i];
    FoldKeepsSeps(line[p + i], phrase[i]);
  }

  /** The word at `p` is as long as the phrase's first word. */
  lemma SameWordLength(line: seq<Byte>, phrase: seq<Byte>, p: nat)
    requires p + |phrase| <= |line| && (p + |phrase| == |line| || IsWordSep(line[p + |phrase|]))
    requires forall i {:trigger phrase[i]} :: 0 <= i < |phrase| ==> (IsWordSep(line[p + i]) <==> IsWordSep(phrase[i]))
    ensures SkipWord(line, p) == p + SkipWord(phrase, 0)
  {
    var k, end := SkipWord(phrase, 0), SkipWord(line, p);
    assert k < |phrase| ==> IsWordSep(phrase[k]);
    assert SepAt(line, p + k) || p + k == |line|;
    assert SepAt(phrase, end - p) || |phrase| <= end - p;
  }

  /** Where a phrase is carried, its first word is the word that starts there. */
  lemma CarriesFirstWord(line: seq<Byte>, phrase: seq<Byte>, p: nat)
    requires CandidateHolds(line, phrase, p) && phrase != [] && !IsWordSep(phrase[0])
    ensures !IsWordSep(line[p])
    ensures WordAt(line, Token(p, SkipWord(line, p))) == FirstWord(phrase)
  {
    hide Lower, IsWordSep;
    forall i | 0 <= i < |phrase| ensures IsWordSep(line[p + i]) <==> IsWordSep(phrase[i]) {
      SameSeps(line, phrase, p, i);
    }
    SameSeps(line, phrase, p, 0);
    SameWordLength(line, phrase, p);
    FoldedSlice(line, phrase, p, SkipWord(phrase, 0));
  }

  lemma FoldedSlice(line: seq<Byte>, phrase: seq<Byte>, p: nat, k: nat)
    requires p + |phrase| <= |line| && Lower(line[p..p + |phrase|]) == Lower(phrase) && k <= |phrase|
    ensures Lower(line[p..p + k]) == Lower(phrase[..k])
  {
    forall i | 0 <= i < k ensures AsciiLower(line[p + i]) == AsciiLower(phrase[i]) {
      assert Lower(line[p..p + |phrase|])[i] == Lower(phrase)[i];
    }
  }

  /** Offsets that follow a word byte carry no phrase. */
  lemma {:induction false} NoneInside(line: seq<Byte>, no: nat, phrase: seq<Byte>, p: nat, end: nat)
    requires 0 < p <= end <= |line| && forall i :: p - 1 <= i < end - 1 ==> !IsWordSep(line[i])
    ensures PhraseRefs(line, no, phrase, p) == PhraseRefs(line, no, phrase, end)
    decreases end - p
  {
    if p < end {
      assert !PhraseStandsAt(line, phrase, p);
      NoneInside(line, no, phrase, p + 1, end);
    }
  }

  lemma SepCarriesNothing(line: seq<Byte>, no: nat, phrase: seq<Byte>, pos: nat)
    requires pos < |line| && IsWordSep(line[pos]) && phrase != [] && !IsWordSep(phrase[0])
    ensures PhraseRefs(line, no, phrase, pos) == PhraseRefs(line, no, phrase, pos + 1)
  {
    if PhraseStandsAt(line, phrase, pos) {
      SameSeps(line, phrase, pos, 0);
    }
  }

  lemma WordStart(line: seq<Byte>, phrase: seq<Byte>, pos: nat)
    requires pos < |line| && IsBoundary(line, pos) && !IsWordSep(line[pos]) && phrase != [] && !IsWordSep(phrase[0])
    ensures PhraseStandsAt(line, phrase, pos) <==>
      WordAt(line, Token(pos, SkipWord(line, pos))) == FirstWord(phrase) && CandidateHolds(line, phrase, pos)
  {
    if CandidateHolds(line, phrase, pos) {
      CarriesFirstWord(line, phrase, pos);
    }
  }

  /** From a word start, both ways of searching come to the end of the word alike. */
  lemma WordStartStep(line: seq<Byte>, no: nat, phrase: seq<Byte>, pos: nat)
    requires pos < |line| && IsBoundary(line, pos) && !IsWordSep(line[pos]) && phrase != [] && !IsWordSep(phrase[0])
    requires TokensFit(line, TokensFrom(line, pos)) && TokensFit(line, TokensFrom(line, SkipWord(line, pos)))
    ensures var end := SkipWord(line, pos);
      var here := if PhraseStandsAt(line, phrase, pos) then [Ref(no, pos)] else [];
      && PhraseRefs(line, no, phrase, pos) == here + PhraseRefs(line, no, phrase, end)
      && TokenRefs(line, no, TokensFrom(line, pos), FirstWord(phrase), phrase)
           == here + TokenRefs(line, no, TokensFrom(line, end), FirstWord(phrase), phrase)
  {
    hide PhraseStandsAt, CandidateHolds, WordAt, FirstWord, TokensFrom, TokenRefs, PhraseRefs;
    var end := SkipWord(line, pos);
    TokensAtWord(line, pos);
    PhraseRefsStep(line, no, phrase, pos);
    NoneInside(line, no, phrase, pos + 1, end);
    WordStart(line, phrase, pos);
    UnfoldTokenRefs(line, no, TokensFrom(line, pos), FirstWord(phrase), phrase);
  }

  lemma TokensAtWord(line: seq<Byte>, pos: nat)
    requires pos < |line| && !IsWordSep(line[pos])
    ensures TokensFrom(line, pos) != [] && TokensFrom(line, pos)[0] == Token(pos, SkipWord(line, pos))
    ensures TokensFrom(line, pos)[1..] == TokensFrom(line, SkipWord(line, pos))
  {
  }

  lemma PhraseRefsStep(line: seq<Byte>, no: nat, phrase: seq<Byte>, p: nat)
    requires p < |line|
    ensures PhraseRefs(line, no, phrase, p) ==
      (if PhraseStandsAt(line, phrase, p) then [Ref(no, p)] else []) + PhraseRefs(line, no, phrase, p + 1)
  {
  }

  lemma NothingAtEnd(line: seq<Byte>, no: nat, phrase: seq<Byte>)
    ensures TokensFrom(line, |line|) == [] && PhraseRefs(line, no, phrase, |line|) == []
    ensures TokenRefs(line, no, [], FirstWord(phrase), phrase) == []
  {
  }

  /** Trying the word starts alone finds what trying every offset finds. */
  lemma {:induction false} WordStartsSuffice(line: seq<Byte>, no: nat, phrase: seq<Byte>, pos: nat)
    requires pos <= |line| && IsBoundary(line, pos) && phrase != [] && !IsWordSep(phrase[0])
    requires TokensFit(line, TokensFrom(line, pos))
    ensures TokenRefs(line, no, TokensFrom(line, pos), FirstWord(phrase), phrase) == PhraseRefs(line, no, phrase, pos)
    decreases |line| - pos
  {
    hide PhraseStandsAt, CandidateHolds, WordAt, FirstWord, TokensFrom, TokenRefs, PhraseRefs, TokensFit, SkipWord;
    if pos == |line| {
      NothingAtEnd(line, no, phrase);
    } else if IsWordSep(line[pos]) {
      SkipOneSep(line, pos);
      SepCarriesNothing(line, no, phrase, pos);
      WordStartsSuffice(line, no, phrase, pos + 1);
    } else {
      var end := SkipWord(line, pos);
      TokensFromFit(line, end);
      WordStartsSuffice(line, no, phrase, end);
      WordStartStep(line, no, phrase, pos);
    }
  }

  /** Checking the first word's postings against their lines prints exactly the positions
      at which the phrase stands in some line. */
  lemma {:induction false} PostingPrintsPhrase(id: U32, lines: seq<seq<Byte>>, phrase: seq<Byte>)
    requires Fits(lines) && phrase != [] && !IsWordSep(phrase[0])
    ensures Verified(lines, phrase, Posting(id, lines, FirstWord(phrase))) == PhraseItems(lines, phrase)
  {
    if lines != [] {
      var n, w := |lines| - 1, FirstWord(phrase);
      var occs, front := OccsFrom(lines[n], n + 1, 0), Posting(id, lines[..n], w);
      PostingPrintsPhrase(id, lines[..n], phrase);
      hide Verified, FirstWord, WordRecords;
      PostingLines(id, lines[..n], w);
      VerifiedPrefix(lines, n, phrase, front);
      WordRecordsConcat(id, TextOccs(lines[..n]), occs, w);
      TokensFromFit(lines[n], 0);
      LineVerified(id, lines, n + 1, Tokens(lines[n]), w, phrase);
      WordStartsSuffice(lines[n], n + 1, phrase, 0);
      VerifiedConcat(lines, phrase, front, WordRecords(id, occs, w));
    }
  }

  lemma PostingLines(id: U32, lines: seq<seq<Byte>>, w: seq<Byte>)
    requires Fits(lines)
    ensures forall i {:trigger Posting(id, lines, w)[i]} :: 0 <= i < |Posting(id, lines, w)| ==>
      1 <= Posting(id, lines, w)[i].line <= |lines|
  {
    hide Posting, Fits;
    var recs := Posting(id, lines, w);
    forall i | 0 <= i < |recs| ensures 1 <= recs[i].line <= |lines| {
      PostingMember(id, lines, w, recs[i]);
      assert recs[i] in recs;
    }
  }
}
