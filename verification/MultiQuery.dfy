/** Multi-word queries: the distinct words' line streams are intersected pairwise, rarest
    first, through line-set files (PA1/query.c:801-946). */
module MultiQuery {
  import opened Bytes
  import opened Text
  import opened Files
  import opened Output
  import opened NaiveScan
  import opened Records
  import opened Readers
  import opened LexiconTable
  import opened Postings
  import opened LineSources
  import opened Intersection
  import opened LineAnswers
  import opened IndexBuild
  import opened WordCache
  import opened WordChoice
  import opened StreamQuery

  // ------------------------------------------------ which lines are meant

  /** The words the picks stand for. */
  function Picked(words: seq<seq<Byte>>, picks: seq<Pick>): set<seq<Byte>> {
    set p | p in picks && p.id < |words| :: words[p.id]
  }

  /** Ids exist and come with their buckets. */
  ghost predicate PicksOk(words: seq<seq<Byte>>, picks: seq<Pick>) {
    forall i {:trigger picks[i]} :: 0 <= i < |picks| ==>
      picks[i].id < |words| && picks[i].bucket == BucketOf(words[picks[i].id])
  }

  ghost function WordLines(lines: seq<seq<Byte>>, words: set<seq<Byte>>): seq<U32>
    requires Fits(lines)
  {
    LinesPassing(lines, AllWords(words))
  }

  lemma PickedOne(words: seq<seq<Byte>>, picks: seq<Pick>)
    requires |picks| == 1 && PicksOk(words, picks)
    ensures Picked(words, picks) == {words[picks[0].id]}
  {
    assert picks[0] in picks;
  }

  lemma PickedStep(words: seq<seq<Byte>>, picks: seq<Pick>, k: nat)
    requires k < |picks| && PicksOk(words, picks)
    ensures Picked(words, picks[..k + 1]) == Picked(words, picks[..k]) + {words[picks[k].id]}
  {
    assert picks[..k + 1] == picks[..k] + [picks[k]];
    assert picks[k] in picks[..k + 1];
  }

  lemma PickedSubset(words: seq<seq<Byte>>, picks: seq<Pick>, k: nat)
    requires k <= |picks|
    ensures Picked(words, picks[..k]) <= Picked(words, picks)
  {
  }

  /** The chosen words in any order are the query's words. */
  lemma PickedAre(words: seq<seq<Byte>>, picks: seq<Pick>, chosen: seq<seq<Byte>>, sorted: seq<Pick>)
    requires Stand(words, picks, chosen) && multiset(sorted) == multiset(picks)
    ensures Picked(words, sorted) == (set w | w in chosen) && PicksOk(words, sorted) && |sorted| == |picks|
  {
    assert forall p :: p in sorted <==> p in multiset(sorted);
    assert forall p :: p in picks <==> p in multiset(picks);
    assert forall i :: 0 <= i < |sorted| ==> sorted[i] in sorted;
    forall w | w in chosen ensures w in Picked(words, sorted) {
      var i :| 0 <= i < |chosen| && chosen[i] == w;
      assert picks[i] in picks;
    }
    assert |multiset(sorted)| == |multiset(picks)|;
  }

  lemma {:induction false} PassingBound(lines: seq<seq<Byte>>, test: LineTest)
    ensures |PassingLines(lines, test)| <= |lines|
  {
    if lines != [] {
      PassingBound(lines[..|lines| - 1], test);
    }
  }

  /** No line passes a stronger test than one that no line passes. */
  lemma NoneFewer(lines: seq<seq<Byte>>, some: set<seq<Byte>>, all: set<seq<Byte>>)
    requires Fits(lines) && some <= all && WordLines(lines, some) == []
    ensures WordLines(lines, all) == []
  {
    hide HasWord, Fits;
    PassingLinesExact(lines, AllWords(some));
    PassingLinesExact(lines, AllWords(all));
    assert forall k :: k in PassingLines(lines, AllWords(all)) ==> k in PassingLines(lines, AllWords(some));
    NonEmptyHasMember(PassingLines(lines, AllWords(all)));
  }

  /** A word without postings leaves no line. */
  lemma UnknownLeavesNone(lines: seq<seq<Byte>>, w: seq<Byte>, all: set<seq<Byte>>)
    requires Fits(lines) && w in all && Posting(0, lines, w) == []
    ensures WordLines(lines, all) == []
  {
    GroupsArePassing(0, lines, w);
    NoneFewer(lines, {w}, all);
  }

  /** A merge stage with another pick. */
  lemma StageLines(lines: seq<seq<Byte>>, words: seq<seq<Byte>>, picks: seq<Pick>, k: nat)
    requires Fits(lines) && 0 < k < |picks| && PicksOk(words, picks)
    ensures StrictlyAscending(WordLines(lines, Picked(words, picks[..k])))
    ensures StrictlyAscending(WordLines(lines, {words[picks[k].id]}))
    ensures var both := Common(WordLines(lines, Picked(words, picks[..k])), WordLines(lines, {words[picks[k].id]}));
      && both == WordLines(lines, Picked(words, picks[..k + 1]))
      && (|both| % U32_LIMIT == 0 ==> both == [] && WordLines(lines, Picked(words, picks)) == [])
  {
    hide Picked, Common, PassingLines;
    PickedStep(words, picks, k);
    CommonIsPassing(lines, Picked(words, picks[..k]), {words[picks[k].id]});
    CommonIsPassing(lines, {words[picks[k].id]}, {});
    PassingBound(lines, AllWords(Picked(words, picks[..k + 1])));
    PickedSubset(words, picks, k + 1);
    if WordLines(lines, Picked(words, picks[..k + 1])) == [] {
      NoneFewer(lines, Picked(words, picks[..k + 1]), Picked(words, picks));
    }
  }

  // ------------------------------------------------ the steps

  /** The lines of one word as a stream. */
  method OpenWord(index: Index, id: U32, bucket: nat) returns (source: LineNumberSource)
    requires index.Valid() && id < |index.lexicon.entries| && bucket == BucketOf(index.lexicon.Words()[id])
    modifies index.lexicon`entries
    ensures index.Valid() && index.lexicon.Words() == old(index.lexicon.Words()) && Fits(Lines(index.input))
    ensures source.Valid() && fresh(source.Repr) && source.io == index.io
    ensures source.Remaining() == WordLines(Lines(index.input), {index.lexicon.Words()[id]})
  {
    hide Index.Valid, Posting, Groups, RecordFile, BucketOf, Fits, LineNumberSource.Valid, LineNumberSource.Remaining,
      PassingLines;
    TextNumbersFit(index);
    var ok := EnsureWordCache(index, id, bucket);
    CacheHolds(index, id);
    ghost var recs := Posting(id, Lines(index.input), index.lexicon.Words()[id]);
    GroupsArePassing(id, Lines(index.input), index.lexicon.Words()[id]);
    source := new LineNumberSource.OverWord(index.lexicon.entries[id].cache.bytes, index.io, recs);
  }

  lemma AnsweredLines(was: seq<Byte>, lines: seq<U32>)
    ensures Outcome(was, LineItems(lines), was + Written(AsText, lines) + [NEWLINE], true)
  {
    hide Render;
    AnsweredItems(was, LineItems(lines));
  }

  lemma FailedLines(was: seq<Byte>, lines: seq<U32>, now: seq<Byte>)
    requires Within(was, Written(AsText, lines), now)
    ensures Outcome(was, LineItems(lines), now, false)
  {
    hide Render, Within;
    FailedOutcome(was, LineItems(lines), now);
  }

  /** Print every line of a source. */
  method OutputSource(source: LineNumberSource, out: OutBuf) returns (ok: bool)
    requires source.Valid() && out.Valid() && {out, out.buf} !! source.Repr
    modifies source.Repr, out, out.buf, source.io
    ensures out.Valid()
    ensures Outcome(old(out.Contents()), LineItems(old(source.Remaining())), out.Contents(), ok)
    ensures ok <==> source.io.cuts == old(source.io.cuts)
    ensures source.io.Aligned() ==> ok
  {
    hide Reads.Aligned, Outcome, Written, Within, LineNumberSource.Valid, LineNumberSource.Remaining;
    ghost var base, all, sofar := out.Contents(), source.Remaining(), [];
    NothingWritten(AsText, base);
    NothingWithin(base, Written(AsText, all));
    ok := false;
    var st := source.Next();
    while st == Got
      invariant out.Valid() && (source.io.Aligned() ==> st != Error)
      invariant st != Error ==> source.Valid() && out.Contents() == base + Written(AsText, sofar)
      invariant st == Error <==> source.io.cuts != old(source.io.cuts)
      invariant Within(base, Written(AsText, all), out.Contents())
      invariant st == Got ==> sofar + [source.current] + source.Remaining() == all
      invariant st == End ==> sofar == all
      decreases |all| - |sofar|
    {
      WriteMatch(AsText, out, source.current, base, sofar);
      sofar := sofar + [source.current];
      WrittenPrefix(AsText, base, sofar, all);
      st := source.Next();
    }
    if st == Error {
      FailedLines(base, all, out.Contents());
      return;
    }
    AnsweredLines(base, all);
    EmitBlankLine(out);
    ok := true;
  }

  /** Intersect two sources into the answer. */
  method IntersectToOutput(left: LineNumberSource, right: LineNumberSource, out: OutBuf) returns (ok: bool)
    requires left.Valid() && right.Valid() && out.Valid() && Separated(left, right, out)
    requires StrictlyAscending(left.Remaining()) && StrictlyAscending(right.Remaining())
    modifies left.Repr, right.Repr, out, out.buf, left.io
    ensures out.Valid()
    ensures Outcome(old(out.Contents()), LineItems(Common(old(left.Remaining()), old(right.Remaining()))),
      out.Contents(), ok)
    ensures ok <==> left.io.cuts == old(left.io.cuts)
    ensures left.io.Aligned() ==> ok
  {
    hide Reads.Aligned, Outcome, Common, Written, Within, LineNumberSource.Valid, LineNumberSource.Remaining;
    ghost var base, all := out.Contents(), Common(left.Remaining(), right.Remaining());
    AnsweredLines(base, all);
    var matches;
    ok, matches := Intersect(left, right, out, AsText);
    if ok {
      EmitBlankLine(out);
    } else {
      FailedLines(base, all, out.Contents());
    }
  }

  /** Intersect two sources into a fresh line-set file. */
  method IntersectToFile(left: LineNumberSource, right: LineNumberSource)
    returns (ok: bool, file: seq<Byte>, matches: U32)
    requires left.Valid() && right.Valid() && left.Repr !! right.Repr
    requires left.io == right.io && left.io !in left.Repr && left.io !in right.Repr
    requires StrictlyAscending(left.Remaining()) && StrictlyAscending(right.Remaining())
    modifies left.Repr, right.Repr, left.io
    ensures ok ==> file == LineFile(Common(old(left.Remaining()), old(right.Remaining())))
    ensures ok ==> matches == |Common(old(left.Remaining()), old(right.Remaining()))| % U32_LIMIT
    ensures ok <==> left.io.cuts == old(left.io.cuts)
    ensures left.io.Aligned() ==> ok
  {
    hide Common, LineFile, StrictlyAscending, LineNumberSource.Valid, LineNumberSource.Remaining;
    var out := new OutBuf();
    ok, matches := Intersect(left, right, out, AsCells);
    out.Flush();
    file := out.file;
  }

  // ------------------------------------------------ the stages

  ghost predicate Prepared(index: Index, ids: seq<U32>, buckets: seq<nat>, picks: seq<Pick>)
    reads index.lexicon, index.lexicon.slots
  {
    && index.Valid() && Holds(ids, buckets, picks)
    && PicksOk(index.lexicon.Words(), picks)
  }

  lemma PickAt(index: Index, ids: seq<U32>, buckets: seq<nat>, picks: seq<Pick>, k: nat)
    requires Prepared(index, ids, buckets, picks) && k < |picks|
    ensures index.Valid() && k < |ids| && k < |buckets| && ids[k] == picks[k].id && buckets[k] == picks[k].bucket
    ensures ids[k] < |index.lexicon.entries| && buckets[k] == BucketOf(index.lexicon.Words()[ids[k]])
  {
  }

  /** Open the source of pick `k`. */
  method OpenPick(index: Index, ids: seq<U32>, buckets: seq<nat>, k: nat, ghost picks: seq<Pick>)
    returns (source: LineNumberSource)
    requires Prepared(index, ids, buckets, picks) && k < |picks|
    modifies index.lexicon`entries
    ensures Prepared(index, ids, buckets, picks) && index.lexicon.Words() == old(index.lexicon.Words())
      && Fits(Lines(index.input))
    ensures source.Valid() && fresh(source.Repr) && source.io == index.io
    ensures picks[k].id < |index.lexicon.Words()|
    ensures source.Remaining() == WordLines(Lines(index.input), {index.lexicon.Words()[picks[k].id]})
  {
    PickAt(index, ids, buckets, picks, k);
    hide Index.Valid, Holds, BucketOf, Fits, LineNumberSource.Valid, LineNumberSource.Remaining, WordLines;
    source := OpenWord(index, ids[k], buckets[k]);
  }

  /** Open the sources of the first two picks. */
  method OpenFirstTwo(index: Index, ids: seq<U32>, buckets: seq<nat>, ghost picks: seq<Pick>)
    returns (left: LineNumberSource, right: LineNumberSource)
    requires Prepared(index, ids, buckets, picks) && 2 <= |picks|
    modifies index.lexicon`entries
    ensures Prepared(index, ids, buckets, picks) && index.lexicon.Words() == old(index.lexicon.Words())
      && Fits(Lines(index.input))
    ensures left.Valid() && fresh(left.Repr) && left.io == index.io
    ensures right.Valid() && fresh(right.Repr) && right.io == index.io
    ensures left.Repr !! right.Repr
    ensures picks[0].id < |index.lexicon.Words()| && picks[1].id < |index.lexicon.Words()|
    ensures left.Remaining() == WordLines(Lines(index.input), {index.lexicon.Words()[picks[0].id]})
    ensures right.Remaining() == WordLines(Lines(index.input), {index.lexicon.Words()[picks[1].id]})
  {
    hide Prepared, Fits, LineNumberSource.Valid, LineNumberSource.Remaining, WordLines;
    left := OpenPick(index, ids, buckets, 0, picks);
    right := OpenPick(index, ids, buckets, 1, picks);
  }

  lemma FirstStage(lines: seq<seq<Byte>>, words: seq<seq<Byte>>, picks: seq<Pick>)
    requires Fits(lines) && 2 <= |picks| && PicksOk(words, picks)
    ensures picks[0].id < |words| && picks[1].id < |words|
    ensures StrictlyAscending(WordLines(lines, {words[picks[0].id]}))
      && StrictlyAscending(WordLines(lines, {words[picks[1].id]}))
    ensures var both := Common(WordLines(lines, {words[picks[0].id]}), WordLines(lines, {words[picks[1].id]}));
      && both == WordLines(lines, Picked(words, picks[..2]))
      && (|picks| == 2 ==> LineItems(both) == LinesAnswer(lines, Picked(words, picks)))
      && (|both| % U32_LIMIT == 0 ==> LinesAnswer(lines, Picked(words, picks)) == [])
  {
    StageLines(lines, words, picks, 1);
    PickedOne(words, picks[..1]);
    assert |picks| == 2 ==> picks[..2] == picks;
  }

  /** Two words: merge straight into the answer. */
  method MergeTwo(index: Index, ids: seq<U32>, buckets: seq<nat>, out: OutBuf, ghost picks: seq<Pick>)
    returns (ok: bool)
    requires Ready(index, out) && Prepared(index, ids, buckets, picks) && |picks| == 2
    modifies index.lexicon`entries, out, out.buf, index.io
    ensures Ready(index, out)
    ensures Outcome(old(out.Contents()), LinesAnswer(Lines(index.input), Picked(old(index.lexicon.Words()), picks)),
      out.Contents(), ok)
    ensures ok <==> index.io.cuts == old(index.io.cuts)
    ensures index.io.Aligned() ==> ok
  {
    hide Index.Valid, Reads.Aligned, PicksOk, Holds, Fits, Outcome, StrictlyAscending, Picked, Common, WordLines,
      LinesAnswer, Lines;
    hide LineNumberSource.Valid, LineNumberSource.Remaining;
    TextNumbersFit(index);
    FirstStage(Lines(index.input), index.lexicon.Words(), picks);
    var left, right := OpenFirstTwo(index, ids, buckets, picks);
    ok := IntersectToOutput(left, right, out);
  }

  /** The line-set file holds the lines common to the first `k` picks. */
  ghost predicate StageFile(lines: seq<seq<Byte>>, words: seq<seq<Byte>>, picks: seq<Pick>, k: nat, file: seq<Byte>) {
    Fits(lines) && k <= |picks| && file == LineFile(WordLines(lines, Picked(words, picks[..k])))
  }

  /** Open the line-set file and pick `k`. */
  method OpenStage(index: Index, ids: seq<U32>, buckets: seq<nat>, k: nat, file: seq<Byte>, ghost picks: seq<Pick>)
    returns (left: LineNumberSource, right: LineNumberSource)
    requires Prepared(index, ids, buckets, picks) && k < |picks|
    requires StageFile(Lines(index.input), index.lexicon.Words(), picks, k, file)
    modifies index.lexicon`entries
    ensures Prepared(index, ids, buckets, picks) && index.lexicon.Words() == old(index.lexicon.Words())
      && Fits(Lines(index.input))
    ensures left.Valid() && fresh(left.Repr) && left.io == index.io
    ensures right.Valid() && fresh(right.Repr) && right.io == index.io
    ensures left.Repr !! right.Repr && picks[k].id < |index.lexicon.Words()|
    ensures left.Remaining() == WordLines(Lines(index.input), Picked(index.lexicon.Words(), picks[..k]))
    ensures right.Remaining() == WordLines(Lines(index.input), {index.lexicon.Words()[picks[k].id]})
  {
    hide Prepared, Fits, LineFile, Picked, LineNumberSource.Valid, LineNumberSource.Remaining, WordLines;
    ghost var sofar := WordLines(Lines(index.input), Picked(index.lexicon.Words(), picks[..k]));
    left := new LineNumberSource.OverLines(file, index.io, sofar);
    right := OpenPick(index, ids, buckets, k, picks);
  }

  /** What merging with pick `k` gives. */
  lemma NextStage(lines: seq<seq<Byte>>, words: seq<seq<Byte>>, picks: seq<Pick>, k: nat)
    requires Fits(lines) && 0 < k < |picks| && PicksOk(words, picks)
    ensures StrictlyAscending(WordLines(lines, Picked(words, picks[..k])))
      && StrictlyAscending(WordLines(lines, {words[picks[k].id]}))
    ensures var both := Common(WordLines(lines, Picked(words, picks[..k])), WordLines(lines, {words[picks[k].id]}));
      && StageFile(lines, words, picks, k + 1, LineFile(both))
      && (|both| % U32_LIMIT == 0 ==> LinesAnswer(lines, Picked(words, picks)) == [])
      && (k + 1 == |picks| ==> LineItems(both) == LinesAnswer(lines, Picked(words, picks)))
  {
    hide LineFile, Common;
    StageLines(lines, words, picks, k);
    assert k + 1 == |picks| ==> picks[..k + 1] == picks;
  }

  /** A middle stage: merge into the next line-set file. */
  method MergeStage(index: Index, ids: seq<U32>, buckets: seq<nat>, k: nat, file: seq<Byte>, ghost picks: seq<Pick>)
    returns (ok: bool, next: seq<Byte>, matches: U32)
    requires Prepared(index, ids, buckets, picks) && 0 < k < |picks|
    requires StageFile(Lines(index.input), index.lexicon.Words(), picks, k, file)
    modifies index.lexicon`entries, index.io
    ensures Prepared(index, ids, buckets, picks) && index.lexicon.Words() == old(index.lexicon.Words())
    ensures ok ==> StageFile(Lines(index.input), index.lexicon.Words(), picks, k + 1, next)
    ensures ok && matches == 0 ==> LinesAnswer(Lines(index.input), Picked(index.lexicon.Words(), picks)) == []
    ensures ok <==> index.io.cuts == old(index.io.cuts)
    ensures index.io.Aligned() ==> ok
  {
    hide Index.Valid, PicksOk, Holds, Fits, StrictlyAscending, Picked, Common, WordLines, LineFile, LinesAnswer,
      StageFile;
    hide LineNumberSource.Valid, LineNumberSource.Remaining;
    TextNumbersFit(index);
    NextStage(Lines(index.input), index.lexicon.Words(), picks, k);
    var left, right := OpenStage(index, ids, buckets, k, file, picks);
    ok, next, matches := IntersectToFile(left, right);
  }

  /** The last stage: merge into the answer. */
  method MergeLast(index: Index, ids: seq<U32>, buckets: seq<nat>, k: nat, file: seq<Byte>, out: OutBuf,
                   ghost picks: seq<Pick>)
    returns (ok: bool)
    requires Ready(index, out) && Prepared(index, ids, buckets, picks) && 0 < k && k + 1 == |picks|
    requires StageFile(Lines(index.input), index.lexicon.Words(), picks, k, file)
    modifies index.lexicon`entries, out, out.buf, index.io
    ensures Ready(index, out)
    ensures Outcome(old(out.Contents()), LinesAnswer(Lines(index.input), Picked(old(index.lexicon.Words()), picks)),
      out.Contents(), ok)
    ensures ok <==> index.io.cuts == old(index.io.cuts)
    ensures index.io.Aligned() ==> ok
  {
    hide Index.Valid, Reads.Aligned, PicksOk, Holds, Fits, Outcome, StrictlyAscending, Picked, Common, WordLines,
      LineFile, LinesAnswer, StageFile;
    hide LineNumberSource.Valid, LineNumberSource.Remaining;
    TextNumbersFit(index);
    NextStage(Lines(index.input), index.lexicon.Words(), picks, k);
    var left, right := OpenStage(index, ids, buckets, k, file, picks);
    ok := IntersectToOutput(left, right, out);
  }

  /** The first stage: merge the first two picks into a line-set file. */
  method MergeFirst(index: Index, ids: seq<U32>, buckets: seq<nat>, ghost picks: seq<Pick>)
    returns (ok: bool, next: seq<Byte>, matches: U32)
    requires Prepared(index, ids, buckets, picks) && 2 <= |picks|
    modifies index.lexicon`entries, index.io
    ensures Prepared(index, ids, buckets, picks) && index.lexicon.Words() == old(index.lexicon.Words())
    ensures ok ==> StageFile(Lines(index.input), index.lexicon.Words(), picks, 2, next)
    ensures ok && matches == 0 ==> LinesAnswer(Lines(index.input), Picked(index.lexicon.Words(), picks)) == []
    ensures ok <==> index.io.cuts == old(index.io.cuts)
    ensures index.io.Aligned() ==> ok
  {
    hide Index.Valid, PicksOk, Holds, Fits, StrictlyAscending, Picked, Common, WordLines, LineFile, LinesAnswer;
    hide LineNumberSource.Valid, LineNumberSource.Remaining;
    TextNumbersFit(index);
    FirstStage(Lines(index.input), index.lexicon.Words(), picks);
    var left, right := OpenFirstTwo(index, ids, buckets, picks);
    ok, next, matches := IntersectToFile(left, right);
  }

  /** Three words or more: stage by stage, stopping early once no line is left. */
  method MergeMany(index: Index, ids: seq<U32>, buckets: seq<nat>, count: nat, out: OutBuf, ghost picks: seq<Pick>)
    returns (ok: bool)
    requires Ready(index, out) && Prepared(index, ids, buckets, picks) && 3 <= |picks| == count
    modifies index.lexicon`entries, out, out.buf, index.io
    ensures Ready(index, out)
    ensures Outcome(old(out.Contents()), LinesAnswer(Lines(index.input), Picked(old(index.lexicon.Words()), picks)),
      out.Contents(), ok)
    ensures ok <==> index.io.cuts == old(index.io.cuts)
    ensures index.io.Aligned() ==> ok
  {
    hide Index.Valid, Reads.Aligned, PicksOk, Holds, Fits, Outcome, Picked, LinesAnswer, StageFile;
    NothingOutcome(out.Contents());
    SilentOutcome(out.Contents(), LinesAnswer(Lines(index.input), Picked(index.lexicon.Words(), picks)));
    var current, matches;
    ok, current, matches := MergeFirst(index, ids, buckets, picks);
    if !ok {
      return;
    }
    if matches == 0 {
      EmitBlankLine(out);
      return;
    }
    var i := 2;
    while i + 1 < count
      invariant 2 <= i < count && Ready(index, out) && Prepared(index, ids, buckets, picks)
      invariant index.lexicon.Words() == old(index.lexicon.Words()) && out.Contents() == old(out.Contents())
      invariant index.io.cuts == old(index.io.cuts)
      invariant StageFile(Lines(index.input), index.lexicon.Words(), picks, i, current)
    {
      ok, current, matches := MergeStage(index, ids, buckets, i, current, picks);
      if !ok {
        return;
      }
      if matches == 0 {
        EmitBlankLine(out);
        return;
      }
      i := i + 1;
    }
    ok := MergeLast(index, ids, buckets, i, current, out, picks);
  }

  // ------------------------------------------------ the whole query

  ghost predicate AllCached(index: Index, picks: seq<Pick>, k: nat)
    reads index.lexicon
  {
    forall i {:trigger picks[i]} :: 0 <= i < k && i < |picks| ==> HasCache(index, picks[i].id)
  }

  /** Give every chosen word its cache file. */
  method EnsureAll(index: Index, ids: seq<U32>, buckets: seq<nat>, count: nat, ghost picks: seq<Pick>)
    returns (ok: bool)
    requires Prepared(index, ids, buckets, picks) && count == |picks|
    modifies index.lexicon`entries
    ensures ok && Prepared(index, ids, buckets, picks) && index.lexicon.Words() == old(index.lexicon.Words())
    ensures AllCached(index, picks, |picks|)
  {
    hide Index.Valid, PicksOk, Holds, HasCache, BucketOf;
    var i := 0;
    while i < count
      invariant i <= count && Prepared(index, ids, buckets, picks)
        && index.lexicon.Words() == old(index.lexicon.Words())
      invariant AllCached(index, picks, i)
    {
      PickAt(index, ids, buckets, picks, i);
      ok := EnsureWordCache(index, ids[i], buckets[i]);
      i := i + 1;
    }
    ok := true;
  }

  /** The picks run from the rarest word to the most frequent (counts as stored, modulo 2^32). */
  ghost predicate ByRarity(lines: seq<seq<Byte>>, words: seq<seq<Byte>>, picks: seq<Pick>)
    requires PicksOk(words, picks)
  {
    forall i, j :: 0 <= i < j < |picks| && picks[i].id < U32_LIMIT && picks[j].id < U32_LIMIT ==>
      |Posting(picks[i].id, lines, words[picks[i].id])| % U32_LIMIT
        <= |Posting(picks[j].id, lines, words[picks[j].id])| % U32_LIMIT
  }

  /** Sorting by cached size is sorting by rarity. */
  lemma SortedByRarity(index: Index, picks: seq<Pick>)
    requires index.Valid() && PicksOk(index.lexicon.Words(), picks) && AllCached(index, picks, |picks|)
    requires InRange(index.lexicon.entries, picks) && BySize(index.lexicon.entries, picks)
    ensures ByRarity(Lines(index.input), index.lexicon.Words(), picks)
  {
    hide Index.Valid, Posting;
    forall i | 0 <= i < |picks|
      ensures picks[i].id < |index.lexicon.entries| && index.lexicon.entries[picks[i].id].cacheCount
           == |Posting(picks[i].id, Lines(index.input), index.lexicon.Words()[picks[i].id])| % U32_LIMIT
    {
      CacheHolds(index, picks[i].id);
    }
  }

  /** The picks are the query's words, each once, rarest first. */
  ghost predicate Chosen(index: Index, query: seq<Byte>, picks: seq<Pick>)
    reads index.lexicon
  {
    && PicksOk(index.lexicon.Words(), picks)
    && Picked(index.lexicon.Words(), picks) == WordSet(query)
    && ByRarity(Lines(index.input), index.lexicon.Words(), picks)
    && (picks == [] <==> QueryWords(query) == [])
  }

  lemma ChosenSorted(index: Index, query: seq<Byte>, picks: seq<Pick>)
    requires index.Valid() && Stand(index.lexicon.Words(), picks, Distinct(QueryWords(query)))
    requires AllCached(index, picks, |picks|)
    ensures InRange(index.lexicon.entries, picks) && Chosen(index, query, Sorted(index.lexicon.entries, picks))
    ensures |Sorted(index.lexicon.entries, picks)| == |picks|
  {
    hide Index.Valid, ByRarity, BySize, Distinct, QueryWords;
    var es, words := index.lexicon.entries, index.lexicon.Words();
    SortedExact(es, picks);
    var sorted := Sorted(es, picks);
    DistinctExact(QueryWords(query));
    PickedAre(words, picks, Distinct(QueryWords(query)), sorted);
    assert (set w | w in Distinct(QueryWords(query))) == WordSet(query);
    CachedToo(index, picks, sorted);
    SortedByRarity(index, sorted);
    assert QueryWords(query) != [] ==> QueryWords(query)[0] in Distinct(QueryWords(query));
    assert Distinct(QueryWords(query)) != [] ==> Distinct(QueryWords(query))[0] in QueryWords(query);
  }

  lemma CachedToo(index: Index, picks: seq<Pick>, sorted: seq<Pick>)
    requires AllCached(index, picks, |picks|) && multiset(sorted) == multiset(picks)
    ensures AllCached(index, sorted, |sorted|)
  {
    forall i | 0 <= i < |sorted| ensures HasCache(index, sorted[i].id) {
      assert sorted[i] in multiset(sorted);
      assert sorted[i] in picks;
    }
  }

  lemma StandIsOk(words: seq<seq<Byte>>, picks: seq<Pick>, chosen: seq<seq<Byte>>)
    requires Stand(words, picks, chosen)
    ensures PicksOk(words, picks)
  {
  }

  /** Collect the query's words, cache them all and sort them by size. */
  method PrepareWords(index: Index, query: seq<Byte>)
    returns (known: bool, ids: seq<U32>, buckets: seq<nat>, count: nat, ghost picks: seq<Pick>)
    requires index.Valid() && |query| <= QUERY_LIMIT
    modifies index.lexicon`entries
    ensures index.Valid() && index.lexicon.Words() == old(index.lexicon.Words())
    ensures known <==> forall w :: w in QueryWords(query) ==> w in index.lexicon.Words()
    ensures known ==> Prepared(index, ids, buckets, picks) && count == |picks| && Chosen(index, query, picks)
  {
    hide Index.Valid, PicksOk, Holds, Distinct, QueryWords, Stand, Chosen, AllCached, InRange, Sorted;
    ids, buckets := [], [];
    var wordIds, bucketOf := new U32[WORD_ROOM](_ => 0), new nat[WORD_ROOM](_ => 0);
    LexiconValid(index);
    known, count, picks := CollectQueryWords(index.lexicon, query, wordIds, bucketOf);
    if !known {
      return;
    }
    StandIsOk(index.lexicon.Words(), picks, Distinct(QueryWords(query)));
    ids, buckets := wordIds[..], bucketOf[..];
    var ok := EnsureAll(index, ids, buckets, count, picks);
    assert wordIds[..] == ids && bucketOf[..] == buckets;
    ChosenSorted(index, query, picks);
    SortBySize(index.lexicon.entries, wordIds, bucketOf, count, picks);
    picks := Sorted(index.lexicon.entries, picks);
    ids, buckets := wordIds[..], bucketOf[..];
    ChosenOk(index, query, picks);
  }

  lemma LexiconValid(index: Index)
    requires index.Valid()
    ensures index.lexicon.Valid()
  {
  }

  lemma ChosenOk(index: Index, query: seq<Byte>, picks: seq<Pick>)
    requires Chosen(index, query, picks)
    ensures PicksOk(index.lexicon.Words(), picks) && Picked(index.lexicon.Words(), picks) == WordSet(query)
    ensures picks == [] <==> QueryWords(query) == []
  {
  }

  /** With one of its words unknown a query matches no line. */
  lemma UnknownMatchesNone(index: Index, query: seq<Byte>)
    requires index.Valid() && exists w :: w in QueryWords(query) && w !in index.lexicon.Words()
    ensures MultiItems(Lines(index.input), query) == []
  {
    hide Index.Valid, QueryWords, Fits, Posting;
    var w :| w in QueryWords(query) && w !in index.lexicon.Words();
    TextNumbersFit(index);
    UnknownWord(index, w);
    UnknownLeavesNone(Lines(index.input), w, WordSet(query));
  }

  /** Answer from the chosen words: one is listed, two are merged, more go in stages. */
  method AnswerPicks(index: Index, ids: seq<U32>, buckets: seq<nat>, count: nat, out: OutBuf, ghost picks: seq<Pick>)
    returns (ok: bool)
    requires Ready(index, out) && Prepared(index, ids, buckets, picks) && 1 <= |picks| == count
    modifies index.lexicon`entries, out, out.buf, index.io
    ensures Ready(index, out)
    ensures Outcome(old(out.Contents()), LinesAnswer(Lines(index.input), Picked(old(index.lexicon.Words()), picks)),
      out.Contents(), ok)
    ensures ok <==> index.io.cuts == old(index.io.cuts)
    ensures index.io.Aligned() ==> ok
  {
    hide Index.Valid, Reads.Aligned, PicksOk, Holds, Outcome, Picked;
    hide LineNumberSource.Valid, LineNumberSource.Remaining;
    if count == 1 {
      PreparedPicks(index, ids, buckets, picks);
      PickedOne(index.lexicon.Words(), picks);
      var source := OpenPick(index, ids, buckets, 0, picks);
      ok := OutputSource(source, out);
    } else if count == 2 {
      ok := MergeTwo(index, ids, buckets, out, picks);
    } else {
      ok := MergeMany(index, ids, buckets, count, out, picks);
    }
  }

  lemma PreparedPicks(index: Index, ids: seq<U32>, buckets: seq<nat>, picks: seq<Pick>)
    requires Prepared(index, ids, buckets, picks)
    ensures PicksOk(index.lexicon.Words(), picks)
  {
  }

  /** A query of several words lists the lines that have them all. */
  method HandleMulti(index: Index, query: seq<Byte>, out: OutBuf) returns (ok: bool)
    requires Ready(index, out) && |query| <= QUERY_LIMIT
    modifies index.lexicon`entries, out, out.buf, index.io
    ensures Ready(index, out)
    ensures Outcome(old(out.Contents()), MultiItems(Lines(index.input), query), out.Contents(), ok)
    ensures ok <==> index.io.cuts == old(index.io.cuts)
    ensures index.io.Aligned() ==> ok
  {
    hide Index.Valid, Reads.Aligned, Outcome, Picked, QueryWords, Chosen, Prepared, LinesAnswer, WordSet, PicksOk;
    NothingOutcome(out.Contents());
    var known, ids, buckets, count;
    ghost var picks;
    known, ids, buckets, count, picks := PrepareWords(index, query);
    if !known {
      UnknownMatchesNone(index, query);
      EmitBlankLine(out);
      return true;
    }
    ChosenOk(index, query, picks);
    if count == 0 {
      EmitBlankLine(out);
      return true;
    }
    ok := AnswerPicks(index, ids, buckets, count, out, picks);
  }
}
