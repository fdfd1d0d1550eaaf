/** Filling a word's cache file on first use (PA1/query.c:132-181). */
module WordCache {
  import opened Bytes
  import opened Text
  import opened Files
  import opened Records
  import opened LexiconTable
  import opened Postings
  import opened Scan
  import opened IndexBuild

  /** A cache writer keeps exactly the records with its id, and counts them. */
  lemma {:induction false} CacheKeepsId(c: Consumer, recs: seq<Record>)
    requires c.ToCache?
    ensures c.EmitsAll(recs) == RecordFile(WithId(recs, c.writer.wordId))
    ensures c.Tally(recs) == |WithId(recs, c.writer.wordId)|
  {
    hide RecordFile, EncodeRecord;
    if recs == [] {
      NoRecords();
    } else {
      var n := |recs| - 1;
      CacheKeepsId(c, recs[..n]);
      if recs[n].word == c.writer.wordId {
        RecordFileSnoc(WithId(recs[..n], c.writer.wordId), recs[n]);
      } else {
        assert c.EmitsAll(recs[..n]) + [] == c.EmitsAll(recs[..n]);
        assert WithId(recs[..n], c.writer.wordId) + [] == WithId(recs[..n], c.writer.wordId);
      }
    }
  }

  lemma NoRecords()
    ensures RecordFile([]) == []
  {
  }

  /** A bucket file, scanned for an id, gives the id's posting list. */
  lemma BucketHoldsPosting(index: Index, id: U32, bucket: nat)
    requires index.Valid() && id < |index.lexicon.entries| && bucket == BucketOf(index.lexicon.Words()[id])
    ensures bucket < |index.occFiles|
    ensures var content := index.occFiles[bucket];
      && |content| % RECORD_SIZE == 0
      && WithId(DecodeAll(content), id) == Posting(id, Lines(index.input), index.lexicon.Words()[id])
  {
    hide TextOccs, WordRecords, BucketRecords, WithId, DecodeAll, RecordFile, Knows, BucketOf, CachesOk, Index.TextOk,
      Chained;
    var words, occs := index.lexicon.Words(), TextOccs(Lines(index.input));
    index.lexicon.WordsDistinct();
    DecodeRecordFile(BucketRecords(words, occs, bucket));
    BucketScanIsWord(words, occs, id);
  }

  /** Scan the bucket file for one id into a fresh file. */
  method FillCache(bucketFile: seq<Byte>, id: U32) returns (ok: bool, bytes: seq<Byte>, count: U32)
    ensures ok == (|bucketFile| % RECORD_SIZE == 0)
    ensures bytes == RecordFile(WithId(DecodeAll(bucketFile), id))
    ensures count == |WithId(DecodeAll(bucketFile), id)| % U32_LIMIT
  {
    hide Consumer.EmitsAll, Consumer.Tally, RecordFile, DecodeAll, WithId;
    var out := new OutBuf();
    var writer := new CacheWriter(out, id);
    var c := ToCache(writer);
    CacheKeepsId(c, DecodeAll(bucketFile));
    ok := ScanFile(bucketFile, c);
    count := writer.count;
    out.Flush();
    bytes := out.file;
  }

  ghost predicate HasCache(index: Index, id: U32)
    reads index.lexicon
  {
    id < |index.lexicon.entries| && index.lexicon.entries[id].cache.Cached?
  }

  lemma CacheHolds(index: Index, id: U32)
    requires index.Valid() && HasCache(index, id)
    ensures id < |index.lexicon.Words()|
    ensures index.lexicon.entries[id].cache.bytes ==
      RecordFile(Posting(id, Lines(index.input), index.lexicon.Words()[id]))
    ensures index.lexicon.entries[id].cacheCount ==
      |Posting(id, Lines(index.input), index.lexicon.Words()[id])| % U32_LIMIT
  {
    assert CacheOk(index.lexicon.entries[id], id, Lines(index.input));
  }

  lemma CachesStep(es: seq<LexEntry>, lines: seq<seq<Byte>>, id: U32, e: LexEntry)
    requires CachesOk(es, lines) && id < |es| && CacheOk(e, id, lines)
    ensures CachesOk(es[id := e], lines)
  {
    hide CacheOk;
    var now := es[id := e];
    forall i | 0 <= i < |now| ensures CacheOk(now[i], i, lines) {
      assert i != id ==> CacheOk(es[i], i, lines);
    }
  }

  /** Make sure word `id` has its cache file; nothing else about the index changes. */
  method EnsureWordCache(index: Index, id: U32, bucket: nat) returns (ok: bool)
    requires index.Valid() && id < |index.lexicon.entries| && bucket == BucketOf(index.lexicon.Words()[id])
    modifies index.lexicon`entries
    ensures ok && index.Valid() && index.lexicon.Words() == old(index.lexicon.Words())
    ensures HasCache(index, id) && forall k :: old(HasCache(index, k)) ==> HasCache(index, k)
  {
    BucketHoldsPosting(index, id, bucket);
    hide TextOccs, WordRecords, BucketRecords, WithId, DecodeAll, RecordFile, Knows, BucketOf, CachesOk, FilesOk,
      Index.TextOk, Lexicon.Valid;
    if index.lexicon.entries[id].cache.Cached? {
      return true;
    }
    var count, bytes;
    ok, bytes, count := FillCache(index.occFiles[bucket], id);
    if !ok {
      return;
    }
    CachesStep(index.lexicon.entries, Lines(index.input), id,
      index.lexicon.entries[id].(cache := Cached(bytes), cacheCount := count));
    index.lexicon.SetCache(id, bytes, count);
  }
}
