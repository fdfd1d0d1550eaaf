/** Choosing the words of a multi-word query: collecting their distinct ids and putting
    the rarest first (PA1/query.c:654-680, PA1/query.c:752-799). */
module WordChoice {
  import opened Bytes
  import opened Text
  import opened NaiveScan
  import opened LexiconTable
  import opened Postings

  const QUERY_LIMIT := 4096
  const WORD_ROOM := QUERY_LIMIT / 2 + 1

  // ------------------------------------------------ sorting by cached size

  /** A chosen word: its id and the bucket that goes with it. */
  datatype Pick = Pick(id: U32, bucket: nat)

  /** Every pick names an entry. */
  ghost predicate InRange(es: seq<LexEntry>, picks: seq<Pick>) {
    forall i {:trigger picks[i]} :: 0 <= i < |picks| ==> picks[i].id < |es|
  }

  ghost predicate BySize(es: seq<LexEntry>, picks: seq<Pick>)
    requires InRange(es, picks)
  {
    forall i, j :: 0 <= i < j < |picks| ==> es[picks[i].id].cacheCount <= es[picks[j].id].cacheCount
  }

  /** Where insertion stops: behind the last pick that is no larger. */
  function Place(es: seq<LexEntry>, picks: seq<Pick>, size: U32): (j: nat)
    requires InRange(es, picks)
    ensures j <= |picks|
  {
    if picks == [] || es[picks[|picks| - 1].id].cacheCount <= size then |picks|
    else Place(es, picks[..|picks| - 1], size)
  }

  function Inserted(es: seq<LexEntry>, picks: seq<Pick>, p: Pick): seq<Pick>
    requires InRange(es, picks) && p.id < |es|
  {
    var j := Place(es, picks, es[p.id].cacheCount);
    picks[..j] + [p] + picks[j..]
  }

  function Sorted(es: seq<LexEntry>, picks: seq<Pick>): (s: seq<Pick>)
    requires InRange(es, picks)
    ensures |s| == |picks| && InRange(es, s)
  {
    if picks == [] then [] else Inserted(es, Sorted(es, picks[..|picks| - 1]), picks[|picks| - 1])
  }

  lemma {:induction false} PlaceExact(es: seq<LexEntry>, picks: seq<Pick>, size: U32)
    requires InRange(es, picks) && BySize(es, picks)
    ensures var j := Place(es, picks, size);
      && (forall i :: 0 <= i < j ==> es[picks[i].id].cacheCount <= size)
      && (forall i :: j <= i < |picks| ==> size < es[picks[i].id].cacheCount)
  {
    if picks != [] && size < es[picks[|picks| - 1].id].cacheCount {
      PlaceExact(es, picks[..|picks| - 1], size);
    }
  }

  lemma InsertedSame(picks: seq<Pick>, p: Pick, j: nat)
    requires j <= |picks|
    ensures multiset(picks[..j] + [p] + picks[j..]) == multiset(picks) + multiset{p}
  {
    assert picks == picks[..j] + picks[j..];
  }

  lemma InsertedOrdered(es: seq<LexEntry>, picks: seq<Pick>, p: Pick, j: nat)
    requires InRange(es, picks) && p.id < |es| && BySize(es, picks) && j <= |picks|
    requires forall i :: 0 <= i < j ==> es[picks[i].id].cacheCount <= es[p.id].cacheCount
    requires forall i :: j <= i < |picks| ==> es[p.id].cacheCount < es[picks[i].id].cacheCount
    ensures InRange(es, picks[..j] + [p] + picks[j..]) && BySize(es, picks[..j] + [p] + picks[j..])
  {
    var more := picks[..j] + [p] + picks[j..];
    forall i | 0 <= i < |more| ensures more[i] == if i < j then picks[i] else if i == j then p else picks[i - 1] {
    }
  }

  lemma InsertedExact(es: seq<LexEntry>, picks: seq<Pick>, p: Pick)
    requires InRange(es, picks) && p.id < |es| && BySize(es, picks)
    ensures InRange(es, Inserted(es, picks, p)) && BySize(es, Inserted(es, picks, p))
    ensures multiset(Inserted(es, picks, p)) == multiset(picks) + multiset{p}
  {
    PlaceExact(es, picks, es[p.id].cacheCount);
    var j := Place(es, picks, es[p.id].cacheCount);
    InsertedOrdered(es, picks, p, j);
    InsertedSame(picks, p, j);
  }

  /** Sorting orders by size and only rearranges: each id keeps its bucket. */
  lemma {:induction false} SortedExact(es: seq<LexEntry>, picks: seq<Pick>)
    requires InRange(es, picks)
    ensures BySize(es, Sorted(es, picks))
    ensures multiset(Sorted(es, picks)) == multiset(picks)
  {
    hide BySize, Inserted;
    if picks != [] {
      var n := |picks| - 1;
      SortedExact(es, picks[..n]);
      InsertedExact(es, Sorted(es, picks[..n]), picks[n]);
      assert picks == picks[..n] + [picks[n]];
    } else {
      SortedNone(es);
    }
  }

  lemma SortedNone(es: seq<LexEntry>)
    ensures Sorted(es, []) == [] && BySize(es, [])
  {
  }

  lemma {:induction false} PlaceFound(es: seq<LexEntry>, picks: seq<Pick>, size: U32, j: nat)
    requires InRange(es, picks) && j <= |picks|
    requires forall i {:trigger picks[i]} :: j <= i < |picks| ==> size < es[picks[i].id].cacheCount
    requires j == 0 || es[picks[j - 1].id].cacheCount <= size
    ensures Place(es, picks, size) == j
  {
    if j < |picks| {
      PlaceFound(es, picks[..|picks| - 1], size, j);
    }
  }

  /** The two arrays hold `picks` at their front. */
  ghost predicate Holds(ids: seq<U32>, buckets: seq<nat>, picks: seq<Pick>) {
    && |ids| == |buckets| && |picks| <= |ids|
    && (forall k {:trigger ids[k]} {:trigger buckets[k]} :: 0 <= k < |picks| ==>
      ids[k] == picks[k].id && buckets[k] == picks[k].bucket)
  }

  /** Mid-insertion: a hole at `j`, the picks above it moved up by one, the rest as before. */
  ghost predicate Shifting(ids: seq<U32>, buckets: seq<nat>, wasIds: seq<U32>, wasBuckets: seq<nat>,
                           sorted: seq<Pick>, j: nat) {
    var i := |sorted|;
    && |ids| == |buckets| == |wasIds| == |wasBuckets| && j <= i < |ids|
    && (forall k {:trigger ids[k]} {:trigger buckets[k]} :: 0 <= k < |ids| ==>
          if k < j then ids[k] == sorted[k].id && buckets[k] == sorted[k].bucket
          else if k == j then true
          else if k <= i then ids[k] == sorted[k - 1].id && buckets[k] == sorted[k - 1].bucket
          else ids[k] == wasIds[k] && buckets[k] == wasBuckets[k])
  }

  lemma ShiftStep(ids: seq<U32>, buckets: seq<nat>, wasIds: seq<U32>, wasBuckets: seq<nat>, sorted: seq<Pick>, j: nat)
    requires Shifting(ids, buckets, wasIds, wasBuckets, sorted, j) && 0 < j
    ensures ids[j - 1] == sorted[j - 1].id
    ensures Shifting(ids[j := ids[j - 1]], buckets[j := buckets[j - 1]], wasIds, wasBuckets, sorted, j - 1)
  {
  }

  lemma ShiftDone(ids: seq<U32>, buckets: seq<nat>, wasIds: seq<U32>, wasBuckets: seq<nat>, sorted: seq<Pick>, j: nat,
                  p: Pick)
    requires Shifting(ids, buckets, wasIds, wasBuckets, sorted, j)
    ensures Holds(ids[j := p.id], buckets[j := p.bucket], sorted[..j] + [p] + sorted[j..])
    ensures ids[j := p.id][|sorted| + 1..] == wasIds[|sorted| + 1..]
      && buckets[j := p.bucket][|sorted| + 1..] == wasBuckets[|sorted| + 1..]
  {
  }

  method SetBoth(wordIds: array<U32>, buckets: array<nat>, j: nat, id: U32, bucket: nat)
    requires wordIds as object != buckets && j < wordIds.Length && j < buckets.Length
    modifies wordIds, buckets
    ensures wordIds[..] == old(wordIds[..])[j := id] && buckets[..] == old(buckets[..])[j := bucket]
  {
    wordIds[j] := id;
    buckets[j] := bucket;
  }

  /** Shift the larger picks up by one until the place for pick `i` is free; put it there. */
  method InsertPick(es: seq<LexEntry>, wordIds: array<U32>, buckets: array<nat>, i: nat, ghost sorted: seq<Pick>)
    requires wordIds as object != buckets && i < wordIds.Length == buckets.Length && |sorted| == i
    requires Holds(wordIds[..], buckets[..], sorted) && InRange(es, sorted) && wordIds[i] < |es|
    modifies wordIds, buckets
    ensures Holds(wordIds[..], buckets[..], Inserted(es, sorted, Pick(old(wordIds[i]), old(buckets[i]))))
    ensures wordIds[..][i + 1..] == old(wordIds[..])[i + 1..] && buckets[..][i + 1..] == old(buckets[..])[i + 1..]
  {
    ghost var wasIds, wasBuckets := wordIds[..], buckets[..];
    var wordId, bucket := wordIds[i], buckets[i];
    var size := es[wordId].cacheCount;
    var j := i;
    assert Shifting(wordIds[..], buckets[..], wasIds, wasBuckets, sorted, i);
    hide Shifting, Holds, Place;
    while j > 0
      invariant j <= i && Shifting(wordIds[..], buckets[..], wasIds, wasBuckets, sorted, j)
      invariant forall k {:trigger sorted[k]} :: j <= k < i ==> size < es[sorted[k].id].cacheCount
    {
      ShiftStep(wordIds[..], buckets[..], wasIds, wasBuckets, sorted, j);
      if es[wordIds[j - 1]].cacheCount <= size {
        break;
      }
      SetBoth(wordIds, buckets, j, wordIds[j - 1], buckets[j - 1]);
      j := j - 1;
    }
    ShiftDone(wordIds[..], buckets[..], wasIds, wasBuckets, sorted, j, Pick(wordId, bucket));
    PlaceFound(es, sorted, size, j);
    SetBoth(wordIds, buckets, j, wordId, bucket);
  }

  /** Picks `i`.. of the arrays are still as they were. */
  ghost predicate Waiting(ids: seq<U32>, buckets: seq<nat>, picks: seq<Pick>, i: nat) {
    && |picks| <= |ids| == |buckets|
    && (forall k {:trigger ids[k]} {:trigger buckets[k]} :: i <= k < |picks| ==>
      ids[k] == picks[k].id && buckets[k] == picks[k].bucket)
  }

  lemma WaitingStep(ids: seq<U32>, buckets: seq<nat>, moreIds: seq<U32>, moreBuckets: seq<nat>, picks: seq<Pick>,
                    i: nat)
    requires Waiting(ids, buckets, picks, i) && i < |picks|
    requires |moreIds| == |ids| && |moreBuckets| == |buckets|
    requires moreIds[i + 1..] == ids[i + 1..] && moreBuckets[i + 1..] == buckets[i + 1..]
    ensures Waiting(moreIds, moreBuckets, picks, i + 1)
  {
    forall k | i + 1 <= k < |picks| ensures moreIds[k] == picks[k].id && moreBuckets[k] == picks[k].bucket {
      assert moreIds[k] == moreIds[i + 1..][k - i - 1] && moreBuckets[k] == moreBuckets[i + 1..][k - i - 1];
      assert ids[k] == ids[i + 1..][k - i - 1] && buckets[k] == buckets[i + 1..][k - i - 1];
    }
  }

  lemma SortedStep(es: seq<LexEntry>, picks: seq<Pick>, i: nat)
    requires InRange(es, picks) && i < |picks|
    ensures Sorted(es, picks[..i + 1]) == Inserted(es, Sorted(es, picks[..i]), picks[i])
  {
    assert picks[..i + 1][..i] == picks[..i];
  }

  lemma SortedStart(es: seq<LexEntry>, ids: seq<U32>, buckets: seq<nat>, picks: seq<Pick>, i: nat)
    requires InRange(es, picks) && Holds(ids, buckets, picks) && i <= |picks| && i <= 1
    ensures Holds(ids, buckets, Sorted(es, picks[..i])) && Waiting(ids, buckets, picks, i)
  {
    if i == 1 {
      SortedStep(es, picks, 0);
      SortedNone(es);
      assert picks[..0] == [];
    } else {
      SortedNone(es);
      assert picks[..0] == [];
    }
  }

  /** Insertion sort of both arrays together. */
  method SortBySize(es: seq<LexEntry>, wordIds: array<U32>, buckets: array<nat>, count: nat, ghost picks: seq<Pick>)
    requires wordIds as object != buckets && wordIds.Length == buckets.Length && |picks| == count <= wordIds.Length
    requires Holds(wordIds[..], buckets[..], picks) && InRange(es, picks)
    modifies wordIds, buckets
    ensures Holds(wordIds[..], buckets[..], Sorted(es, picks))
  {
    var i := 1;
    SortedStart(es, wordIds[..], buckets[..], picks, if count == 0 then 0 else 1);
    hide Holds, Sorted, Inserted;
    while i < count
      invariant 1 <= i && (i <= count || count == 0)
      invariant Holds(wordIds[..], buckets[..], Sorted(es, picks[..if count == 0 then 0 else i]))
      invariant Waiting(wordIds[..], buckets[..], picks, i)
    {
      SortedStep(es, picks, i);
      ghost var ids, bs := wordIds[..], buckets[..];
      InsertPick(es, wordIds, buckets, i, Sorted(es, picks[..i]));
      WaitingStep(ids, bs, wordIds[..], buckets[..], picks, i);
      i := i + 1;
    }
    assert picks[..count] == picks;
  }

  // ------------------------------------------------ collecting the words

  /** The words of a query from byte `pos` on. */
  ghost function WordsFrom(query: seq<Byte>, pos: nat): seq<seq<Byte>>
    requires pos <= |query|
  {
    TokensFromFit(query, pos);
    QueryWordsOf(query, TokensFrom(query, pos))
  }

  lemma WordsFromStart(query: seq<Byte>)
    ensures WordsFrom(query, 0) == QueryWords(query)
  {
  }

  lemma WordsFromStep(query: seq<Byte>, pos: nat)
    requires pos <= |query|
    ensures var start := SkipSeps(query, pos);
      WordsFrom(query, pos) ==
        if start == |query| then []
        else [Lower(query[start..SkipWord(query, start)])] + WordsFrom(query, SkipWord(query, start))
  {
    TokensFromFit(query, pos);
    var start := SkipSeps(query, pos);
    if start < |query| {
      var end := SkipWord(query, start);
      TokensFromFit(query, end);
      assert TokensFrom(query, pos) == [Token(start, end)] + TokensFrom(query, end);
    }
  }

  /** Each word once, in the order of first appearance. */
  function Distinct(ws: seq<seq<Byte>>): seq<seq<Byte>> {
    if ws == [] then []
    else
      var front, w := Distinct(ws[..|ws| - 1]), ws[|ws| - 1];
      if w in front then front else front + [w]
  }

  lemma {:induction false} DistinctExact(ws: seq<seq<Byte>>)
    ensures NoDuplicates(Distinct(ws)) && |Distinct(ws)| <= |ws|
    ensures forall w :: w in Distinct(ws) <==> w in ws
  {
    if ws != [] {
      DistinctExact(ws[..|ws| - 1]);
      assert ws == ws[..|ws| - 1] + [ws[|ws| - 1]];
    }
  }

  lemma DistinctSnoc(ws: seq<seq<Byte>>, w: seq<Byte>)
    ensures Distinct(ws + [w]) == if w in Distinct(ws) then Distinct(ws) else Distinct(ws) + [w]
  {
    assert (ws + [w])[..|ws|] == ws;
  }

  /** The picks stand for `chosen`: each id is its word's and comes with the word's bucket. */
  ghost predicate Stand(words: seq<seq<Byte>>, picks: seq<Pick>, chosen: seq<seq<Byte>>) {
    && |picks| == |chosen|
    && (forall i {:trigger picks[i]} :: 0 <= i < |picks| ==>
          picks[i].id < |words| && words[picks[i].id] == chosen[i] && picks[i].bucket == BucketOf(chosen[i]))
  }

  lemma StandSnoc(words: seq<seq<Byte>>, picks: seq<Pick>, chosen: seq<seq<Byte>>, p: Pick, w: seq<Byte>)
    requires Stand(words, picks, chosen) && p.id < |words| && words[p.id] == w && p.bucket == BucketOf(w)
    ensures Stand(words, picks + [p], chosen + [w])
  {
  }

  /** A word was chosen before iff its id was. */
  lemma ChosenById(words: seq<seq<Byte>>, picks: seq<Pick>, chosen: seq<seq<Byte>>, id: nat)
    requires Stand(words, picks, chosen) && NoDuplicates(words) && id < |words|
    ensures words[id] in chosen <==> exists i :: 0 <= i < |picks| && picks[i].id == id
  {
    if words[id] in chosen {
      var i :| 0 <= i < |chosen| && chosen[i] == words[id];
      assert picks[i].id == id;
    }
  }

  method AlreadyPicked(wordIds: array<U32>, count: nat, wordId: U32, ghost picks: seq<Pick>, ghost buckets: seq<nat>)
    returns (duplicate: bool)
    requires count == |picks| && Holds(wordIds[..], buckets, picks)
    ensures duplicate <==> exists i :: 0 <= i < |picks| && picks[i].id == wordId
  {
    var i := 0;
    while i < count
      invariant i <= count && forall k :: 0 <= k < i ==> picks[k].id != wordId
    {
      assert wordIds[..][i] == picks[i].id;
      if wordIds[i] == wordId {
        return true;
      }
      i := i + 1;
    }
    return false;
  }

  /** After the words `done`, with those from `pos` on to come. */
  ghost predicate Collecting(words: seq<seq<Byte>>, query: seq<Byte>, pos: nat, done: seq<seq<Byte>>,
                             picks: seq<Pick>, ids: seq<U32>, buckets: seq<nat>) {
    && pos <= |query| && done + WordsFrom(query, pos) == QueryWords(query)
    && (forall w :: w in done ==> w in words)
    && Stand(words, picks, Distinct(done))
    && Holds(ids, buckets, picks)
  }

  lemma CollectStart(words: seq<seq<Byte>>, query: seq<Byte>, ids: seq<U32>, buckets: seq<nat>)
    requires |ids| == |buckets|
    ensures Collecting(words, query, 0, [], [], ids, buckets)
  {
    WordsFromStart(query);
    assert [] + WordsFrom(query, 0) == WordsFrom(query, 0);
  }

  lemma CollectEnd(words: seq<seq<Byte>>, query: seq<Byte>, pos: nat, done: seq<seq<Byte>>, picks: seq<Pick>,
                   ids: seq<U32>, buckets: seq<nat>)
    requires Collecting(words, query, pos, done, picks, ids, buckets) && SkipSeps(query, pos) == |query|
    ensures done == QueryWords(query)
  {
    WordsFromStep(query, pos);
    assert done + [] == done;
  }

  /** The next word of the query. */
  lemma CollectNext(words: seq<seq<Byte>>, query: seq<Byte>, pos: nat, done: seq<seq<Byte>>, picks: seq<Pick>,
                    ids: seq<U32>, buckets: seq<nat>)
      returns (w: seq<Byte>)
    requires Collecting(words, query, pos, done, picks, ids, buckets) && SkipSeps(query, pos) < |query|
    ensures w == Lower(query[SkipSeps(query, pos)..SkipWord(query, SkipSeps(query, pos))]) && w in QueryWords(query)
    ensures done + [w] + WordsFrom(query, SkipWord(query, SkipSeps(query, pos))) == QueryWords(query)
    ensures |picks| < |QueryWords(query)|
  {
    var end := SkipWord(query, SkipSeps(query, pos));
    w := Lower(query[SkipSeps(query, pos)..end]);
    WordsFromStep(query, pos);
    ConcatAssoc(done, [w], WordsFrom(query, end));
    DistinctExact(done);
    assert QueryWords(query)[|done|] == w;
  }

  lemma CollectStep(words: seq<seq<Byte>>, query: seq<Byte>, pos: nat, end: nat, done: seq<seq<Byte>>, w: seq<Byte>,
                    picks: seq<Pick>, ids: seq<U32>, buckets: seq<nat>, id: U32, bucket: nat)
    requires Collecting(words, query, pos, done, picks, ids, buckets) && NoDuplicates(words)
    requires end <= |query| && done + [w] + WordsFrom(query, end) == QueryWords(query)
    requires id < |words| && words[id] == w && bucket == BucketOf(w) && |picks| < |ids|
    ensures (exists i :: 0 <= i < |picks| && picks[i].id == id) ==>
      Collecting(words, query, end, done + [w], picks, ids, buckets)
    ensures !(exists i :: 0 <= i < |picks| && picks[i].id == id) ==>
      Collecting(words, query, end, done + [w], picks + [Pick(id, bucket)], ids[|picks| := id],
        buckets[|picks| := bucket])
  {
    hide Stand, NoDuplicates, Distinct, WordsFrom, QueryWords;
    DistinctSnoc(done, w);
    ChosenById(words, picks, Distinct(done), id);
    if w !in Distinct(done) {
      StandSnoc(words, picks, Distinct(done), Pick(id, bucket), w);
    }
  }

  lemma WordsFit(query: seq<Byte>)
    requires |query| <= QUERY_LIMIT
    ensures |QueryWords(query)| < WORD_ROOM
  {
    TokenCount(query, 0);
  }

  /** Collect the distinct ids of the query's words; stop at the first unknown word. The
      arrays have room for every query within the limit. */
  method CollectQueryWords(lexicon: Lexicon, query: seq<Byte>, wordIds: array<U32>, buckets: array<nat>)
    returns (known: bool, count: nat, ghost picks: seq<Pick>)
    requires lexicon.Valid() && |query| <= QUERY_LIMIT
    requires wordIds as object != buckets && wordIds.Length == buckets.Length == WORD_ROOM
    requires wordIds as object != lexicon.slots
    modifies wordIds, buckets
    ensures known <==> forall w :: w in QueryWords(query) ==> w in lexicon.Words()
    ensures known ==> count == |picks| <= WORD_ROOM && Holds(wordIds[..], buckets[..], picks)
    ensures known ==> Stand(lexicon.Words(), picks, Distinct(QueryWords(query)))
  {
    WordsFit(query);
    lexicon.WordsDistinct();
    CollectStart(lexicon.Words(), query, wordIds[..], buckets[..]);
    hide Collecting, Holds, Stand, NoDuplicates, Distinct, QueryWords, Lexicon.Valid;
    ghost var words, done := lexicon.Words(), [];
    var pos := 0;
    count, picks := 0, [];
    while pos < |query|
      invariant lexicon.Valid() && pos <= |query| && count == |picks|
      invariant Collecting(words, query, pos, done, picks, wordIds[..], buckets[..])
    {
      var start := FindSepsEnd(query, pos);
      if start >= |query| {
        break;
      }
      var end := FindWordEnd(query, start);
      ghost var w := CollectNext(words, query, pos, done, picks, wordIds[..], buckets[..]);
      var found, wordId, bucket := lexicon.FindExisting(query[start..end]);
      if !found {
        return false, 0, [];
      }
      CollectStep(words, query, pos, end, done, w, picks, wordIds[..], buckets[..], wordId, bucket);
      CollectHolds(words, query, pos, done, picks, wordIds[..], buckets[..]);
      var duplicate := AlreadyPicked(wordIds, count, wordId, picks, buckets[..]);
      if !duplicate {
        SetBoth(wordIds, buckets, count, wordId, bucket);
        picks := picks + [Pick(wordId, bucket)];
        count := count + 1;
      }
      pos, done := end, done + [w];
    }
    CollectEnd(words, query, pos, done, picks, wordIds[..], buckets[..]);
    CollectDone(words, query, pos, done, picks, wordIds[..], buckets[..]);
    known := true;
  }

  lemma CollectHolds(words: seq<seq<Byte>>, query: seq<Byte>, pos: nat, done: seq<seq<Byte>>, picks: seq<Pick>,
                     ids: seq<U32>, buckets: seq<nat>)
    requires Collecting(words, query, pos, done, picks, ids, buckets)
    ensures Holds(ids, buckets, picks)
  {
  }

  lemma CollectDone(words: seq<seq<Byte>>, query: seq<Byte>, pos: nat, done: seq<seq<Byte>>, picks: seq<Pick>,
                    ids: seq<U32>, buckets: seq<nat>)
    requires Collecting(words, query, pos, done, picks, ids, buckets) && done == QueryWords(query)
    ensures Holds(ids, buckets, picks) && |picks| <= |ids| && Stand(words, picks, Distinct(done))
    ensures forall w :: w in QueryWords(query) ==> w in words
  {
  }
}
