/** Pattern queries `a*b`: a merge join of two posting lists on the line number
    (PA1/query.c:948-1105). */
module PatternQuery {
  import opened Bytes
  import opened Text
  import opened Files
  import opened Output
  import opened NaiveScan
  import opened Options
  import opened Records
  import opened Readers
  import opened LexiconTable
  import opened Postings
  import opened LineSources
  import opened Intersection
  import opened LineAnswers
  import opened IndexBuild
  import opened WordCache
  import opened StreamQuery

  // ------------------------------------------------ the query's two words

  method FindStar(query: seq<Byte>) returns (star: nat)
    ensures star == IndexOf(query, STAR)
  {
    star := 0;
    while star < |query| && query[star] != STAR
      invariant star <= |query| && STAR !in query[..star]
    {
      star := star + 1;
    }
    IndexOfUnique(query, STAR, star);
  }

  method HasSpaceOrTab(data: seq<Byte>) returns (has: bool)
    ensures has <==> exists i :: 0 <= i < |data| && IsWordSep(data[i])
  {
    var i := 0;
    while i < |data|
      invariant i <= |data| && forall k :: 0 <= k < i ==> !IsWordSep(data[k])
    {
      if IsWordSep(data[i]) {
        return true;
      }
      i := i + 1;
    }
    return false;
  }

  method ParsePattern(query: seq<Byte>) returns (pair: Option<(seq<Byte>, seq<Byte>)>)
    ensures pair == StarredPair(query)
    ensures forall a, b :: pair == Some((a, b)) <==> IsPattern(query, a, b)
  {
    hide IsPattern;
    forall a, b ensures StarredPair(query) == Some((a, b)) <==> IsPattern(query, a, b) {
      StarredPairExact(query, a, b);
    }
    var star := FindStar(query);
    if star == 0 || star + 1 >= |query| {
      return None;
    }
    var second := ContainsChar(query[star + 1..], STAR);
    if second {
      return None;
    }
    var separated := HasSpaceOrTab(query);
    if separated {
      return None;
    }
    return Some((query[..star], query[star + 1..]));
  }

  // ------------------------------------------------ the join

  /** A reader between line groups: it holds the first record of a group, or is through. */
  ghost predicate AtGroup(r: OccurrenceReader)
    reads r, r.Repr
  {
    r.Valid() && (r.hasRecord || r.Upcoming() == [])
  }

  lemma LastStartStep(recs: seq<Record>, line: nat)
    requires 2 <= |recs| && recs[0].line == line && recs[1].line == line
    ensures LastStart(recs, line) == LastStart(recs[1..], line)
  {
  }

  lemma LastStartEnd(recs: seq<Record>, line: nat)
    requires recs != [] && recs[0].line == line && (|recs| == 1 || recs[1].line != line)
    ensures LastStart(recs, line) == recs[0].start
  {
  }

  /** Pass the current line's records, keeping the start of the last one. */
  method TakeLast(r: OccurrenceReader) returns (st: Status, last: U32)
    requires r.Valid() && r.hasRecord
    modifies r.Repr, r.io
    ensures st == Got || st == Error
    ensures st == Got ==> AtGroup(r) && r.Pending() == AfterLine(old(r.Pending()), old(r.current.line))
    ensures st == Got ==> last == LastStart(old(r.Pending()), old(r.current.line))
    ensures st == Error <==> r.io.cuts != old(r.io.cuts)
    ensures r.io.Aligned() ==> st == Got
  {
    hide Reads.Aligned, AfterLine, LastStart;
    var line := r.current.line;
    ghost var all := r.Pending();
    while true
      invariant r.Valid() && r.hasRecord && r.current.line == line && r.io.cuts == old(r.io.cuts)
      invariant AfterLine(r.Pending(), line) == AfterLine(all, line)
      invariant LastStart(r.Pending(), line) == LastStart(all, line)
      decreases |r.Upcoming()|
    {
      ghost var pending, upcoming := r.Pending(), r.Upcoming();
      assert pending[1..] == upcoming;
      AfterLineStep(pending, line);
      last := r.current.start;
      st := r.Next();
      if st == Error {
        return;
      }
      assert st == Got ==> r.Pending() == upcoming;
      if st == End || r.current.line != line {
        NothingToSkip(r.Pending(), line);
        LastStartEnd(pending, line);
        return Got, last;
      }
      LastStartStep(pending, line);
    }
  }

  /** The readers share nothing, and their reads arrive the same way. */
  ghost predicate Pair(left: OccurrenceReader, right: OccurrenceReader) {
    left.Repr !! right.Repr && left.io == right.io && left.io !in left.Repr && left.io !in right.Repr
  }

  ghost predicate Apart(left: OccurrenceReader, right: OccurrenceReader, out: OutBuf) {
    Pair(left, right) && {out, out.buf} !! left.Repr && {out, out.buf} !! right.Repr
  }

  lemma AtGroupHead(r: OccurrenceReader)
    requires AtGroup(r)
    ensures r.Valid() && r in r.Repr
    ensures r.hasRecord <==> r.Pending() != []
    ensures r.hasRecord ==> r.Pending()[0] == r.current
  {
  }

  /** The lower of two different lines is skipped. */
  method SkipLower(left: OccurrenceReader, right: OccurrenceReader) returns (st: Status)
    requires AtGroup(left) && AtGroup(right) && left.hasRecord && right.hasRecord
    requires Pair(left, right) && left.current.line != right.current.line
    modifies left.Repr, right.Repr, left.io
    ensures st == Got || st == Error
    ensures st == Got ==> AtGroup(left) && AtGroup(right)
    ensures st == Got ==> Joined(left.Pending(), right.Pending()) == Joined(old(left.Pending()), old(right.Pending()))
    ensures st == Got ==> |left.Pending()| + |right.Pending()| < |old(left.Pending())| + |old(right.Pending())|
    ensures st == Error <==> left.io.cuts != old(left.io.cuts)
    ensures left.io.Aligned() ==> st == Got
  {
    hide Reads.Aligned, AfterLine, OccurrenceReader.Valid, OccurrenceReader.Pending;
    AtGroupHead(left);
    AtGroupHead(right);
    ghost var l, r := left.Pending(), right.Pending();
    if left.current.line < right.current.line {
      FewerAfter(l);
      st := SkipLine(left);
    } else {
      FewerAfter(r);
      st := SkipLine(right);
    }
  }

  lemma FewerAfter(recs: seq<Record>)
    requires recs != []
    ensures |AfterLine(recs, recs[0].line)| < |recs|
  {
  }

  /** On a common line both groups are passed; the line matches iff the first left start is
      below the last right one. */
  method TakeBoth(left: OccurrenceReader, right: OccurrenceReader) returns (st: Status, line: U32, matches: bool)
    requires AtGroup(left) && AtGroup(right) && left.hasRecord && right.hasRecord
    requires Pair(left, right) && left.current.line == right.current.line
    modifies left.Repr, right.Repr, left.io
    ensures st == Got || st == Error
    ensures st == Got ==> AtGroup(left) && AtGroup(right)
    ensures st == Got ==>
      Joined(old(left.Pending()), old(right.Pending())) ==
        (if matches then [line] else []) + Joined(left.Pending(), right.Pending())
    ensures st == Got ==> |left.Pending()| + |right.Pending()| < |old(left.Pending())| + |old(right.Pending())|
    ensures st == Error <==> left.io.cuts != old(left.io.cuts)
    ensures left.io.Aligned() ==> st == Got
  {
    hide Reads.Aligned, AfterLine, LastStart, OccurrenceReader.Valid, OccurrenceReader.Pending;
    AtGroupHead(left);
    AtGroupHead(right);
    ghost var l, r := left.Pending(), right.Pending();
    FewerAfter(l);
    FewerAfter(r);
    line, matches := left.current.line, false;
    var firstLeft := left.current.start;
    st := SkipLine(left);
    if st == Error {
      return;
    }
    var lastRight;
    st, lastRight := TakeLast(right);
    matches := firstLeft < lastRight;
  }

  /** `sofar` is printed, and with the join of what is pending makes `all`. */
  ghost predicate Joining(l: seq<Record>, r: seq<Record>, base: seq<Byte>, all: seq<U32>, sofar: seq<U32>,
                          out: seq<Byte>) {
    sofar + Joined(l, r) == all && out == base + Written(AsText, sofar)
  }

  lemma JoiningWithin(l: seq<Record>, r: seq<Record>, base: seq<Byte>, all: seq<U32>, sofar: seq<U32>, out: seq<Byte>)
    requires Joining(l, r, base, all, sofar, out)
    ensures Within(base, Written(AsText, all), out)
  {
    hide Joined, Written;
    WrittenPrefix(AsText, base, sofar, all);
  }

  /** One round of the join. */
  method JoinRound(left: OccurrenceReader, right: OccurrenceReader, out: OutBuf, ghost base: seq<Byte>,
                   ghost all: seq<U32>, ghost sofar: seq<U32>)
    returns (st: Status, ghost now: seq<U32>)
    requires AtGroup(left) && AtGroup(right) && left.hasRecord && right.hasRecord && out.Valid()
      && Apart(left, right, out)
    requires Joining(left.Pending(), right.Pending(), base, all, sofar, out.Contents())
    modifies left.Repr, right.Repr, out, out.buf, left.io
    ensures out.Valid() && (st == Got || st == Error)
    ensures Within(base, Written(AsText, all), out.Contents())
    ensures st == Got ==> AtGroup(left) && AtGroup(right)
    ensures st == Got ==> Joining(left.Pending(), right.Pending(), base, all, now, out.Contents())
    ensures st == Got ==> |left.Pending()| + |right.Pending()| < |old(left.Pending())| + |old(right.Pending())|
    ensures st == Error <==> left.io.cuts != old(left.io.cuts)
    ensures left.io.Aligned() ==> st == Got
  {
    hide Reads.Aligned, AtGroup, Joined, Written, Within, OccurrenceReader.Valid, OccurrenceReader.Pending;
    AtGroupHead(left);
    AtGroupHead(right);
    JoiningWithin(left.Pending(), right.Pending(), base, all, sofar, out.Contents());
    now := sofar;
    if left.current.line != right.current.line {
      st := SkipLower(left, right);
    } else {
      var line, matches;
      st, line, matches := TakeBoth(left, right);
      if st == Got {
        AtGroupHead(left);
        AtGroupHead(right);
        if matches {
          ConcatAssoc(sofar, [line], Joined(left.Pending(), right.Pending()));
          WriteMatch(AsText, out, line, base, sofar);
          now := sofar + [line];
          JoiningWithin(left.Pending(), right.Pending(), base, all, now, out.Contents());
        } else {
          assert [] + Joined(left.Pending(), right.Pending()) == Joined(left.Pending(), right.Pending());
        }
      }
    }
  }

  lemma JoinStart(l: seq<Record>, r: seq<Record>, base: seq<Byte>)
    ensures Joining(l, r, base, Joined(l, r), [], base)
  {
    NothingWritten(AsText, base);
    assert [] + Joined(l, r) == Joined(l, r);
  }

  lemma JoinEnd(l: seq<Record>, r: seq<Record>, base: seq<Byte>, all: seq<U32>, sofar: seq<U32>, out: seq<Byte>)
    requires Joining(l, r, base, all, sofar, out) && (l == [] || r == [])
    ensures Outcome(base, LineItems(all), out + [NEWLINE], true)
  {
    assert sofar + [] == sofar;
    AnsweredItems(base, LineItems(all));
  }

  /** The first record of each reader. */
  method FetchFirst(left: OccurrenceReader, right: OccurrenceReader) returns (ok: bool)
    requires left.Valid() && right.Valid() && !left.hasRecord && !right.hasRecord && Pair(left, right)
    modifies left.Repr, right.Repr, left.io
    ensures ok ==> AtGroup(left) && AtGroup(right)
    ensures old(left.WillCut()) ==> !ok
    ensures ok ==> left.Pending() == old(left.Upcoming()) && right.Pending() == old(right.Upcoming())
    ensures ok <==> left.io.cuts == old(left.io.cuts)
    ensures left.io.Aligned() ==> ok
  {
    hide Reads.Aligned, OccurrenceReader.Valid, OccurrenceReader.Upcoming, OccurrenceReader.WillCut;
    RightAside(left, right);
    var st := left.Next();
    if st == Error {
      return false;
    }
    st := right.Next();
    if st == Error {
      return false;
    }
    return true;
  }

  lemma RightAside(left: OccurrenceReader, right: OccurrenceReader)
    requires left.Valid() && right.Valid() && left.Repr !! right.Repr
    ensures left in left.Repr && right in right.Repr
  {
  }

  lemma FailedJoin(base: seq<Byte>, all: seq<U32>, now: seq<Byte>)
    requires Within(base, Written(AsText, all), now)
    ensures Outcome(base, LineItems(all), now, false)
  {
    hide Within, Render;
    FailedOutcome(base, LineItems(all), now);
  }

  /** Print the lines on which a left record precedes a right one; fails exactly when a read
      ends inside a record. */
  method Join(left: OccurrenceReader, right: OccurrenceReader, out: OutBuf) returns (ok: bool)
    requires left.Valid() && right.Valid() && !left.hasRecord && !right.hasRecord
    requires out.Valid() && Apart(left, right, out)
    modifies left.Repr, right.Repr, out, out.buf, left.io
    ensures out.Valid()
    ensures Outcome(old(out.Contents()), LineItems(Joined(old(left.Upcoming()), old(right.Upcoming()))),
      out.Contents(), ok)
    ensures old(left.WillCut()) ==> !ok
    ensures ok <==> left.io.cuts == old(left.io.cuts)
    ensures left.io.Aligned() ==> ok
  {
    hide Reads.Aligned, AtGroup, Joined, Joining, Outcome, Within;
    hide OccurrenceReader.Valid, OccurrenceReader.Pending, OccurrenceReader.Upcoming, OccurrenceReader.WillCut;
    ghost var base, all, sofar := out.Contents(), Joined(left.Upcoming(), right.Upcoming()), [];
    JoinStart(left.Upcoming(), right.Upcoming(), base);
    SilentOutcome(base, LineItems(all));
    ok := FetchFirst(left, right);
    if !ok {
      return;
    }
    AtGroupHead(left);
    AtGroupHead(right);
    while left.hasRecord && right.hasRecord
      invariant AtGroup(left) && AtGroup(right) && left.Valid() && right.Valid() && out.Valid()
      invariant Joining(left.Pending(), right.Pending(), base, all, sofar, out.Contents())
      invariant left.io.cuts == old(left.io.cuts)
      decreases |left.Pending()| + |right.Pending()|
    {
      var st;
      st, sofar := JoinRound(left, right, out, base, all, sofar);
      if st == Error {
        FailedJoin(base, all, out.Contents());
        return false;
      }
      AtGroupHead(left);
      AtGroupHead(right);
    }
    AtGroupHead(left);
    AtGroupHead(right);
    JoinEnd(left.Pending(), right.Pending(), base, all, sofar, out.Contents());
    EmitBlankLine(out);
    ok := true;
  }

  // ------------------------------------------------ the query

  /** A pattern with an unknown word matches no line. */
  lemma UnknownPattern(lines: seq<seq<Byte>>, lId: U32, rId: U32, a: seq<Byte>, b: seq<Byte>)
    requires Fits(lines) && (Posting(lId, lines, Lower(a)) == [] || Posting(rId, lines, Lower(b)) == [])
    ensures PatternItems(lines, a, b) == []
  {
    JoinedIsPassing(lId, rId, lines, Lower(a), Lower(b));
  }

  method OpenReader(index: Index, id: U32) returns (reader: OccurrenceReader)
    requires index.Valid() && HasCache(index, id)
    ensures id < |index.lexicon.Words()|
    ensures reader.Valid() && fresh(reader.Repr) && !reader.hasRecord && reader.io == index.io
    ensures reader.pos == reader.len && reader.unread == Posting(id, Lines(index.input), index.lexicon.Words()[id])
    ensures reader.Upcoming() == Posting(id, Lines(index.input), index.lexicon.Words()[id])
  {
    hide Index.Valid, Posting, RecordFile, OccurrenceReader.Upcoming;
    CacheHolds(index, id);
    reader := new OccurrenceReader(index.lexicon.entries[id].cache.bytes, index.io,
      Posting(id, Lines(index.input), index.lexicon.Words()[id]));
  }

  /** Make both caches and open a reader on each. */
  method OpenBoth(index: Index, lId: U32, lBucket: nat, rId: U32, rBucket: nat)
    returns (left: OccurrenceReader, right: OccurrenceReader)
    requires index.Valid() && lId < |index.lexicon.entries| && rId < |index.lexicon.entries|
    requires lBucket == BucketOf(index.lexicon.Words()[lId]) && rBucket == BucketOf(index.lexicon.Words()[rId])
    modifies index.lexicon`entries
    ensures index.Valid() && index.lexicon.Words() == old(index.lexicon.Words())
    ensures left.Valid() && fresh(left.Repr) && !left.hasRecord && left.io == index.io
    ensures right.Valid() && fresh(right.Repr) && !right.hasRecord && right.io == index.io
    ensures left.Repr !! right.Repr && left.pos == left.len
    ensures left.unread == left.Upcoming() == Posting(lId, Lines(index.input), index.lexicon.Words()[lId])
    ensures right.Upcoming() == Posting(rId, Lines(index.input), index.lexicon.Words()[rId])
  {
    hide Index.Valid, Posting, BucketOf, HasCache, OccurrenceReader.Valid, OccurrenceReader.Upcoming;
    var ok := EnsureWordCache(index, lId, lBucket);
    ok := EnsureWordCache(index, rId, rBucket);
    left := OpenReader(index, lId);
    right := OpenReader(index, rId);
  }

  /** The next cursor read of a record file would bring a single byte. */
  ghost predicate OneByteNext(io: Reads)
    reads io
  {
    io.plan(io.count, RECORD_SIZE) == 1
  }

  lemma OneByteCuts(reader: OccurrenceReader)
    requires reader.Valid() && reader.pos == reader.len && reader.unread != [] && OneByteNext(reader.io)
    ensures reader.WillCut()
  {
    hide OccurrenceReader.Valid;
  }

  /** Join two known words' postings. */
  method JoinWords(index: Index, lId: U32, lBucket: nat, rId: U32, rBucket: nat, out: OutBuf) returns (ok: bool)
    requires Ready(index, out) && lId < |index.lexicon.entries| && rId < |index.lexicon.entries|
    requires lBucket == BucketOf(index.lexicon.Words()[lId]) && rBucket == BucketOf(index.lexicon.Words()[rId])
    modifies index.lexicon`entries, out, out.buf, index.io
    ensures Ready(index, out)
    ensures Outcome(old(out.Contents()),
      LineItems(PassingLines(Lines(index.input),
        InOrder(old(index.lexicon.Words()[lId]), old(index.lexicon.Words()[rId])))), out.Contents(), ok)
    ensures ok <==> index.io.cuts == old(index.io.cuts)
    ensures index.io.Aligned() ==> ok
    ensures old(OneByteNext(index.io)) && Posting(lId, Lines(index.input), old(index.lexicon.Words()[lId])) != []
      ==> !ok
  {
    hide Index.Valid, Reads.Aligned, Posting, Outcome, BucketOf, Fits, HasCache, OneByteNext;
    hide OccurrenceReader.Valid, OccurrenceReader.Upcoming, OccurrenceReader.WillCut;
    TextNumbersFit(index);
    JoinedIsPassing(lId, rId, Lines(index.input), index.lexicon.Words()[lId], index.lexicon.Words()[rId]);
    var left, right := OpenBoth(index, lId, lBucket, rId, rBucket);
    if OneByteNext(index.io) && left.unread != [] {
      OneByteCuts(left);
    }
    ok := Join(left, right, out);
  }

  ghost predicate Occurs(lines: seq<seq<Byte>>, w: seq<Byte>) {
    exists o :: o in TextOccs(lines) && o.word == w
  }

  /** A proper pattern of two words of the text. */
  ghost predicate BothOccur(lines: seq<seq<Byte>>, query: seq<Byte>) {
    var pair := StarredPair(query);
    pair.Some? && Occurs(lines, Lower(pair.value.0)) && Occurs(lines, Lower(pair.value.1))
  }

  lemma OccurringIsPosted(id: U32, lines: seq<seq<Byte>>, w: seq<Byte>)
    requires Occurs(lines, w)
    ensures Posting(id, lines, w) != []
  {
    var o :| o in TextOccs(lines) && o.word == w;
    WordRecordsMember(id, TextOccs(lines), w, RecordOf(id, o));
  }

  /** Look both words up; a pattern of which one is unknown matches no line. */
  method FindBoth(index: Index, a: seq<Byte>, b: seq<Byte>)
    returns (found: bool, lId: U32, lBucket: nat, rId: U32, rBucket: nat)
    requires index.Valid()
    ensures !found ==> PatternItems(Lines(index.input), a, b) == []
    ensures !found ==> !(Occurs(Lines(index.input), Lower(a)) && Occurs(Lines(index.input), Lower(b)))
    ensures found ==> lId < |index.lexicon.entries| && rId < |index.lexicon.entries|
    ensures found ==> index.lexicon.Words()[lId] == Lower(a) && index.lexicon.Words()[rId] == Lower(b)
    ensures found ==> lBucket == BucketOf(Lower(a)) && rBucket == BucketOf(Lower(b))
    ensures found && Occurs(Lines(index.input), Lower(a)) ==> Posting(lId, Lines(index.input), Lower(a)) != []
  {
    hide Index.Valid, Posting, PatternItems, BucketOf, Fits, Occurs;
    TextNumbersFit(index);
    rId, rBucket := 0, 0;
    found, lId, lBucket := FindWord(index, a);
    if Occurs(Lines(index.input), Lower(a)) {
      OccurringIsPosted(lId, Lines(index.input), Lower(a));
    }
    if !found {
      UnknownPattern(Lines(index.input), lId, 0, a, b);
      return;
    }
    found, rId, rBucket := FindWord(index, b);
    if Occurs(Lines(index.input), Lower(b)) {
      OccurringIsPosted(rId, Lines(index.input), Lower(b));
    }
    if !found {
      UnknownPattern(Lines(index.input), 0, rId, a, b);
    }
  }

  /** A pattern query; anything but two words around one star gets the blank line. It fails
      exactly when a read ends inside a record, as a first read of one byte does. */
  method HandlePattern(index: Index, query: seq<Byte>, out: OutBuf) returns (ok: bool)
    requires Ready(index, out)
    modifies index.lexicon`entries, out, out.buf, index.io
    ensures Ready(index, out)
    ensures Outcome(old(out.Contents()), PatternQueryItems(Lines(index.input), query), out.Contents(), ok)
    ensures forall a, b :: IsPattern(query, a, b) ==>
      Outcome(old(out.Contents()), PatternItems(Lines(index.input), a, b), out.Contents(), ok)
    ensures (forall a, b :: !IsPattern(query, a, b)) ==> Outcome(old(out.Contents()), [], out.Contents(), ok)
    ensures ok <==> index.io.cuts == old(index.io.cuts)
    ensures index.io.Aligned() ==> ok
    ensures old(OneByteNext(index.io)) && BothOccur(Lines(index.input), query) ==> !ok
  {
    hide Index.Valid, Reads.Aligned, Posting, Outcome, BucketOf, Fits, StarredPair, PassingLines, OneByteNext, Occurs;
    hide IsPattern;
    PatternQueryMeans(Lines(index.input), query);
    NothingOutcome(out.Contents());
    var pair := ParsePattern(query);
    if pair == None {
      EmitBlankLine(out);
      return true;
    }
    var found, lId, lBucket, rId, rBucket := FindBoth(index, pair.value.0, pair.value.1);
    if !found {
      EmitBlankLine(out);
      return true;
    }
    ok := JoinWords(index, lId, lBucket, rId, rBucket, out);
  }
}
