/** The lexicon (PA1/index.c:4-152): a chained hash table from folded words to dense
    ids, with the chain links kept inside the entries and `0` as the end mark. */
module LexiconTable {
  import opened Bytes

  const LEXICON_SLOTS_INIT := 4096
  const OCC_BUCKETS := 256

  /** The contents of the cache file at `cache_path`, once there is one. */
  datatype CacheFile = NoCache | Cached(bytes: seq<Byte>)

  datatype LexEntry = LexEntry(
    text: seq<Byte>, id: U32, hash: U32, bucket: nat,
    cache: CacheFile, cacheCount: U32, next: U32)

  // ------------------------------------------------ the table's meaning

  function SlotOf(hash: U32, slots: nat): (slot: nat)
    requires 0 < slots
    ensures slot < slots
  {
    hash % slots
  }

  /** The slot of every entry in a table of `slots` slots. */
  function SlotKeys(es: seq<LexEntry>, slots: nat): (keys: seq<nat>)
    requires 0 < slots
    ensures |keys| == |es|
    ensures forall i :: 0 <= i < |es| ==> keys[i] < slots
  {
    seq(|es|, i requires 0 <= i < |es| => SlotOf(es[i].hash, slots))
  }

  /** One more than the largest index below `k` whose key is `slot`; 0 if none. */
  function PrevIn(keys: seq<nat>, slot: nat, k: nat): (p: nat)
    requires k <= |keys|
    ensures p <= k
    ensures 0 < p ==> keys[p - 1] == slot
    ensures forall i :: p <= i < k ==> keys[i] != slot
  {
    if k == 0 then 0
    else if keys[k - 1] == slot then k
    else PrevIn(keys, slot, k - 1)
  }

  /** Entry `i` links to the previous entry of its slot and every head to its slot's last. */
  ghost predicate Linked(keys: seq<nat>, links: seq<nat>, heads: seq<U32>) {
    && |links| <= |keys|
    && (forall s {:trigger heads[s]} :: 0 <= s < |heads| ==> heads[s] == PrevIn(keys, s, |links|))
    && (forall i {:trigger links[i]} :: 0 <= i < |links| ==> links[i] == PrevIn(keys, keys[i], i))
  }

  function Links(es: seq<LexEntry>): (links: seq<nat>)
    ensures |links| == |es|
    ensures forall i {:trigger links[i]} :: 0 <= i < |es| ==> links[i] == es[i].next
  {
    seq(|es|, i requires 0 <= i < |es| => es[i].next)
  }

  ghost predicate Chained(es: seq<LexEntry>, heads: seq<U32>) {
    0 < |heads| && Linked(SlotKeys(es, |heads|), Links(es), heads)
  }

  /** What is stored about the word with id `i`. */
  ghost predicate EntryOk(e: LexEntry, i: nat) {
    && e.id == i
    && Lower(e.text) == e.text
    && e.hash == HashOf(e.text)
    && e.bucket == e.hash % OCC_BUCKETS
  }

  function Texts(es: seq<LexEntry>): (ws: seq<seq<Byte>>)
    ensures |ws| == |es|
    ensures forall i {:trigger ws[i]} :: 0 <= i < |es| ==> ws[i] == es[i].text
  {
    seq(|es|, i requires 0 <= i < |es| => es[i].text)
  }

  ghost predicate NoDuplicates(ws: seq<seq<Byte>>) {
    forall i, j :: 0 <= i < j < |ws| ==> ws[i] != ws[j]
  }

  ghost predicate EntriesOk(es: seq<LexEntry>) {
    && |es| < U32_LIMIT
    && (forall i {:trigger EntryOk(es[i], i)} :: 0 <= i < |es| ==> EntryOk(es[i], i))
    && NoDuplicates(Texts(es))
  }

  /** The entries agree on everything but links and caches. */
  ghost predicate SameWords(es: seq<LexEntry>, fs: seq<LexEntry>) {
    && |es| == |fs|
    && (forall i :: 0 <= i < |es| ==>
          && es[i].text == fs[i].text && es[i].id == fs[i].id
          && es[i].hash == fs[i].hash && es[i].bucket == fs[i].bucket)
  }

  /** Keys past `k` do not matter. */
  lemma {:induction false} PrevInPrefix(keys: seq<nat>, more: seq<nat>, slot: nat, k: nat)
    requires k <= |keys| && keys <= more
    ensures PrevIn(keys, slot, k) == PrevIn(more, slot, k)
  {
    if k > 0 {
      PrevInPrefix(keys, more, slot, k - 1);
    }
  }

  /** Chaining one more entry in front of its slot, as insertion and rehashing do. */
  lemma LinkOne(keys: seq<nat>, links: seq<nat>, heads: seq<U32>, head: U32)
    requires Linked(keys, links, heads) && |links| < |keys|
    requires keys[|links|] < |heads| && head == |links| + 1
    ensures Linked(keys, links + [heads[keys[|links|]]], heads[keys[|links|] := head])
  {
  }

  lemma LinkedPrefix(keys: seq<nat>, more: seq<nat>, links: seq<nat>, heads: seq<U32>)
    requires Linked(keys, links, heads) && keys <= more
    ensures Linked(more, links, heads)
  {
    forall s | 0 <= s < |heads| ensures heads[s] == PrevIn(more, s, |links|) {
      PrevInPrefix(keys, more, s, |links|);
    }
    forall i | 0 <= i < |links| ensures links[i] == PrevIn(more, more[i], i) {
      PrevInPrefix(keys, more, keys[i], i);
    }
  }

  lemma SameWordsOk(es: seq<LexEntry>, fs: seq<LexEntry>)
    requires EntriesOk(es) && SameWords(es, fs)
    ensures EntriesOk(fs) && Texts(fs) == Texts(es)
  {
    forall i | 0 <= i < |fs| ensures EntryOk(fs[i], i) {
      assert EntryOk(es[i], i);
    }
    assert Texts(fs) == Texts(es);
  }

  lemma ChainedSame(es: seq<LexEntry>, fs: seq<LexEntry>, heads: seq<U32>)
    requires Chained(es, heads) && SameWords(es, fs)
    requires forall i :: 0 <= i < |es| ==> es[i].next == fs[i].next
    ensures Chained(fs, heads)
  {
    assert SlotKeys(es, |heads|) == SlotKeys(fs, |heads|);
    assert Links(es) == Links(fs);
  }

  /** The indices a walk of the links visits from `link` on. */
  ghost function Walk(links: seq<nat>, link: nat): seq<nat>
    requires link <= |links|
    requires forall i :: 0 <= i < |links| ==> links[i] <= i
    decreases link
  {
    if link == 0 then [] else [link - 1] + Walk(links, links[link - 1])
  }

  /** The entries of `slot` below `k`, latest first. */
  function Members(keys: seq<nat>, slot: nat, k: nat): seq<nat>
    requires k <= |keys|
  {
    if k == 0 then []
    else (if keys[k - 1] == slot then [k - 1] else []) + Members(keys, slot, k - 1)
  }

  lemma {:induction false} MembersAre(keys: seq<nat>, slot: nat, k: nat)
    requires k <= |keys|
    ensures forall i: nat {:trigger i in Members(keys, slot, k)} ::
      i in Members(keys, slot, k) <==> i < k && keys[i] == slot
  {
    if k > 0 {
      MembersAre(keys, slot, k - 1);
      var rest := Members(keys, slot, k - 1);
      if keys[k - 1] == slot {
        InCons(k - 1, rest);
      } else {
        assert [] + rest == rest;
      }
    }
  }

  lemma InCons(x: nat, rest: seq<nat>)
    ensures forall i {:trigger i in [x] + rest} :: i in [x] + rest <==> i == x || i in rest
  {
  }

  ghost predicate Descending(s: seq<nat>) {
    forall i {:trigger s[i]} :: 0 < i < |s| ==> s[i] < s[i - 1]
  }

  lemma DescendingCons(x: nat, rest: seq<nat>)
    requires Descending(rest) && (forall i :: i in rest ==> i < x)
    ensures Descending([x] + rest)
  {
    assert rest != [] ==> rest[0] in rest;
  }

  lemma {:induction false} MembersExact(keys: seq<nat>, slot: nat, k: nat)
    requires k <= |keys|
    ensures forall i: nat {:trigger i in Members(keys, slot, k)} ::
      i in Members(keys, slot, k) <==> i < k && keys[i] == slot
    ensures Descending(Members(keys, slot, k))
  {
    hide Descending;
    MembersAre(keys, slot, k);
    if k == 0 {
      NoneDescends();
    } else {
      MembersExact(keys, slot, k - 1);
      var rest := Members(keys, slot, k - 1);
      if keys[k - 1] == slot {
        DescendingCons(k - 1, rest);
      } else {
        assert [] + rest == rest;
      }
    }
  }

  lemma NoneDescends()
    ensures Descending([])
  {
  }

  lemma WalkStep(links: seq<nat>, link: nat)
    requires 0 < link <= |links|
    requires forall i :: 0 <= i < |links| ==> links[i] <= i
    ensures Walk(links, link) == [link - 1] + Walk(links, links[link - 1])
  {
  }

  lemma LinkAt(keys: seq<nat>, links: seq<nat>, heads: seq<U32>, i: nat)
    requires Linked(keys, links, heads) && i < |links|
    ensures links[i] == PrevIn(keys, keys[i], i)
  {
  }

  /** Walking the chain of a slot visits exactly its entries, in strictly decreasing order. */
  lemma {:induction false} WalkVisitsSlot(keys: seq<nat>, links: seq<nat>, heads: seq<U32>, slot: nat, k: nat)
    requires Linked(keys, links, heads) && |links| == |keys| && k <= |keys|
    requires forall i :: 0 <= i < |links| ==> links[i] <= i
    ensures Walk(links, PrevIn(keys, slot, k)) == Members(keys, slot, k)
    decreases k
  {
    hide Linked;
    if k > 0 {
      WalkVisitsSlot(keys, links, heads, slot, k - 1);
      if keys[k - 1] == slot {
        LinkAt(keys, links, heads, k - 1);
        WalkStep(links, k);
      } else {
        assert [] + Members(keys, slot, k - 1) == Members(keys, slot, k - 1);
      }
    } else {
      assert Walk(links, 0) == [];
    }
  }

  /** The chain of the slot a word hashes to is where the word's entry is, if there is one. */
  lemma ChainFor(es: seq<LexEntry>, heads: seq<U32>, word: seq<Byte>) returns (keys: seq<nat>)
    requires EntriesOk(es) && Chained(es, heads)
    ensures |keys| == |es|
    ensures forall s {:trigger heads[s]} :: 0 <= s < |heads| ==> heads[s] == PrevIn(keys, s, |es|)
    ensures forall i {:trigger es[i]} :: 0 <= i < |es| ==> es[i].next == PrevIn(keys, keys[i], i)
    ensures forall i {:trigger es[i]} :: 0 <= i < |es| ==>
      Lower(es[i].text) == es[i].text
      && (es[i].text == word ==> es[i].hash == HashOf(word) && keys[i] == SlotOf(HashOf(word), |heads|))
  {
    keys := SlotKeys(es, |heads|);
    forall i | 0 <= i < |es|
      ensures es[i].next == PrevIn(keys, keys[i], i)
      ensures Lower(es[i].text) == es[i].text
      ensures es[i].text == word ==> es[i].hash == HashOf(word) && keys[i] == SlotOf(HashOf(word), |heads|)
    {
      assert Links(es)[i] == es[i].next;
      assert EntryOk(es[i], i);
    }
  }

  // ------------------------------------------------ the table

  class Lexicon {
    var entries: seq<LexEntry>
    var slots: array<U32>

    /** Heads and links form the chains, words are distinct, and the load is below 3/4. */
    ghost predicate Valid() reads this, slots {
      && EntriesOk(entries)
      && Chained(entries, slots[..])
      && 4 * |entries| < 3 * slots.Length
    }

    /** The map the table stands for: word `i` has id `i`. */
    ghost function Words(): seq<seq<Byte>> reads this {
      Texts(entries)
    }

    lemma WordsDistinct()
      requires Valid()
      ensures NoDuplicates(Words()) && |Words()| == |entries| < U32_LIMIT
    {
    }

    constructor ()
      ensures Valid() && NoCaches(entries) && Words() == [] && fresh(slots)
    {
      entries := [];
      slots := new U32[LEXICON_SLOTS_INIT](_ => 0);
    }

    /** Rebuild the chains over `nextSlots` slots; no word, id or cache changes. */
    method Rehash(nextSlots: nat)
      requires Valid() && 4 * |entries| < 3 * nextSlots
      modifies this
      ensures Valid() && fresh(slots) && slots.Length == nextSlots
      ensures SameWords(old(entries), entries) && SameCaches(old(entries), entries)
      ensures Words() == old(Words())
    {
      assert |entries| < U32_LIMIT;
      hide Relinked, Chained, EntriesOk, SameWords, SameCaches;
      ghost var was := entries;
      var heads := new U32[nextSlots](_ => 0);
      RelinkedNone(was, heads[..]);
      var i := 0;
      while i < |entries|
        invariant i <= |entries| == |was| && Relinked(was, entries, heads[..], i)
      {
        RelinkEntry(was, heads, i);
        i := i + 1;
      }
      RelinkedAll(was, entries, heads[..]);
      slots := heads;
    }

    /** Put entry `i` in front of its chain in the new table. */
    method RelinkEntry(ghost was: seq<LexEntry>, heads: array<U32>, i: nat)
      requires i < |entries| < U32_LIMIT && Relinked(was, entries, heads[..], i)
      modifies `entries, heads
      ensures |entries| == |old(entries)| && Relinked(was, entries, heads[..], i + 1)
    {
      hide Relinked, SlotOf;
      RelinkOne(was, entries, heads[..], i);
      var slot := SlotOf(entries[i].hash, heads.Length);
      entries := entries[i := entries[i].(next := heads[slot])];
      SetHead(heads, slot, (i + 1) % U32_LIMIT);
    }

    /** `found` iff the folded word is present, and then its index. */
    method Lookup(data: seq<Byte>, hash: U32) returns (found: bool, index: nat)
      requires Valid() && hash == HashOf(Lower(data))
      ensures found ==> index < |entries| && entries[index].text == Lower(data)
      ensures !found ==> Lower(data) !in Words()
    {
      var slot := SlotOf(hash, slots.Length);
      ghost var keys := ChainFor(entries, slots[..], Lower(data));
      hide Chained;
      assert slots[..][slot] == slots[slot];
      found, index := FollowChain(entries, keys, slot, slots[slot], data, hash);
    }

    /** The id of a known word, or the next dense id for a new one. */
    method FindOrAdd(data: seq<Byte>) returns (wordId: U32, bucket: nat)
      requires Valid() && |entries| + 1 < U32_LIMIT
      modifies this, slots
      ensures Valid() && (slots == old(slots) || fresh(slots))
      ensures Words() == if Lower(data) in old(Words()) then old(Words()) else old(Words()) + [Lower(data)]
      ensures wordId < |Words()| && Words()[wordId] == Lower(data)
      ensures bucket == HashOf(Lower(data)) % OCC_BUCKETS
      ensures old(NoCaches(entries)) ==> NoCaches(entries)
    {
      var hash := HashLowerBytes(data);
      var found, index := Lookup(data, hash);
      if found {
        assert Words()[index] == Lower(data) && EntryOk(entries[index], index);
        return entries[index].id, entries[index].bucket;
      }
      if (|entries| + 1) * 4 >= slots.Length * 3 {
        Rehash(slots.Length * 2);
      }
      wordId, bucket := Insert(Lower(data), hash);
    }

    /** Put a new word in front of its chain. */
    method Insert(text: seq<Byte>, hash: U32) returns (wordId: U32, bucket: nat)
      requires Valid() && 4 * (|entries| + 1) < 3 * slots.Length && |entries| + 1 < U32_LIMIT
      requires Lower(text) == text && hash == HashOf(text) && text !in Words()
      modifies this`entries, slots
      ensures Valid() && Words() == old(Words()) + [text]
      ensures wordId == |old(entries)| && bucket == hash % OCC_BUCKETS
      ensures old(NoCaches(entries)) ==> NoCaches(entries)
    {
      hide SlotOf, HashOf, Chained;
      var slot := SlotOf(hash, slots.Length);
      var entry := LexEntry(text, |entries| % U32_LIMIT, hash, hash % OCC_BUCKETS, NoCache, 0, slots[slot]);
      AddChained(entries, slots[..], entry);
      AddEntryOk(entries, entry);
      hide EntriesOk;
      SetHead(slots, slot, (|entries| + 1) % U32_LIMIT);
      entries := entries + [entry];
      return entry.id, entry.bucket;
    }

    method FindExisting(data: seq<Byte>) returns (found: bool, wordId: U32, bucket: nat)
      requires Valid()
      ensures found <==> Lower(data) in Words()
      ensures found ==> wordId < |entries| && Words()[wordId] == Lower(data)
      ensures found ==> bucket == HashOf(Lower(data)) % OCC_BUCKETS
    {
      var hash := HashLowerBytes(data);
      var index;
      found, index := Lookup(data, hash);
      if !found {
        return false, 0, 0;
      }
      assert Words()[index] == Lower(data) && EntryOk(entries[index], index);
      return true, entries[index].id, entries[index].bucket;
    }

    /** Record a word's cache file and its size (PA1/query.c:178-179). */
    method SetCache(wordId: U32, bytes: seq<Byte>, count: U32)
      requires Valid() && wordId < |entries|
      modifies `entries
      ensures Valid() && Words() == old(Words())
      ensures entries == old(entries[wordId := entries[wordId].(cache := Cached(bytes), cacheCount := count)])
    {
      ghost var was := entries;
      entries := entries[wordId := entries[wordId].(cache := Cached(bytes), cacheCount := count)];
      ChainedSame(was, entries, slots[..]);
      SameWordsOk(was, entries);
    }
  }

  method SetHead(heads: array<U32>, slot: nat, link: U32)
    requires slot < heads.Length
    modifies heads
    ensures heads[..] == old(heads[..])[slot := link]
  {
    heads[slot] := link;
  }

  ghost predicate SameCaches(es: seq<LexEntry>, fs: seq<LexEntry>)
    requires |es| == |fs|
  {
    forall i :: 0 <= i < |es| ==> es[i].cache == fs[i].cache && es[i].cacheCount == fs[i].cacheCount
  }

  ghost predicate NoCaches(es: seq<LexEntry>) {
    forall i :: 0 <= i < |es| ==> es[i].cache == NoCache
  }

  /** Rehashing has relinked the first `i` entries into the new heads. */
  ghost predicate Relinked(was: seq<LexEntry>, es: seq<LexEntry>, heads: seq<U32>, i: nat) {
    && SameWords(was, es) && SameCaches(was, es)
    && i <= |es| && 0 < |heads|
    && Linked(SlotKeys(was, |heads|), Links(es)[..i], heads)
  }

  lemma RelinkedNone(was: seq<LexEntry>, heads: seq<U32>)
    requires 0 < |heads| && forall s :: 0 <= s < |heads| ==> heads[s] == 0
    ensures Relinked(was, was, heads, 0)
  {
  }

  lemma RelinkOne(was: seq<LexEntry>, es: seq<LexEntry>, heads: seq<U32>, i: nat)
    requires Relinked(was, es, heads, i) && i < |es| && i + 1 < U32_LIMIT
    ensures Relinked(was, es[i := es[i].(next := heads[SlotOf(es[i].hash, |heads|)])],
                     heads[SlotOf(es[i].hash, |heads|) := i + 1], i + 1)
  {
    var keys := SlotKeys(was, |heads|);
    var slot := SlotOf(es[i].hash, |heads|);
    assert keys[i] == slot;
    LinkOne(keys, Links(es)[..i], heads, i + 1);
    assert Links(es[i := es[i].(next := heads[slot])])[..i + 1] == Links(es)[..i] + [heads[slot]];
  }

  lemma RelinkedAll(was: seq<LexEntry>, es: seq<LexEntry>, heads: seq<U32>)
    requires Relinked(was, es, heads, |es|) && EntriesOk(was)
    ensures Chained(es, heads) && EntriesOk(es) && Texts(es) == Texts(was)
    ensures SameWords(was, es) && SameCaches(was, es)
  {
    SameWordsOk(was, es);
    assert SlotKeys(es, |heads|) == SlotKeys(was, |heads|);
    assert Links(es)[..|es|] == Links(es);
  }

  lemma AddChained(es: seq<LexEntry>, heads: seq<U32>, entry: LexEntry)
    requires Chained(es, heads) && |es| + 1 < U32_LIMIT
    requires entry.next == heads[SlotOf(entry.hash, |heads|)]
    ensures Chained(es + [entry], heads[SlotOf(entry.hash, |heads|) := |es| + 1])
  {
    var slot := SlotOf(entry.hash, |heads|);
    var keys := SlotKeys(es, |heads|);
    KeysSnoc(es, entry, |heads|);
    LinkedPrefix(keys, keys + [slot], Links(es), heads);
    LinkOne(keys + [slot], Links(es), heads, |es| + 1);
    assert Links(es + [entry]) == Links(es) + [entry.next];
  }

  lemma KeysSnoc(es: seq<LexEntry>, entry: LexEntry, slots: nat)
    requires 0 < slots
    ensures SlotKeys(es + [entry], slots) == SlotKeys(es, slots) + [SlotOf(entry.hash, slots)]
  {
  }

  lemma AddEntryOk(es: seq<LexEntry>, entry: LexEntry)
    requires EntriesOk(es) && |es| + 1 < U32_LIMIT
    requires EntryOk(entry, |es|) && entry.text !in Texts(es)
    ensures EntriesOk(es + [entry])
    ensures Texts(es + [entry]) == Texts(es) + [entry.text]
  {
    var more := es + [entry];
    forall i | 0 <= i < |more| ensures EntryOk(more[i], i) {
      assert i < |es| ==> EntryOk(es[i], i);
    }
    assert Texts(more) == Texts(es) + [entry.text];
  }

  /** Follow the links from `head`; every entry of the word would lie on them. */
  method FollowChain(es: seq<LexEntry>, ghost keys: seq<nat>, ghost slot: nat, head: U32, data: seq<Byte>, hash: U32)
    returns (found: bool, index: nat)
    requires |keys| == |es| && head == PrevIn(keys, slot, |es|)
    requires forall i {:trigger es[i]} :: 0 <= i < |es| ==> es[i].next == PrevIn(keys, keys[i], i)
    requires forall i {:trigger es[i]} :: 0 <= i < |es| ==>
      Lower(es[i].text) == es[i].text && (es[i].text == Lower(data) ==> es[i].hash == hash && keys[i] == slot)
    ensures found ==> index < |es| && es[index].text == Lower(data)
    ensures !found ==> forall i :: 0 <= i < |es| ==> es[i].text != Lower(data)
  {
    var link: nat := head;
    while link != 0
      invariant link <= |es|
      invariant 0 < link ==> keys[link - 1] == slot
      invariant forall i :: link <= i < |es| ==> es[i].text != Lower(data)
      decreases link
    {
      var entry := es[link - 1];
      if entry.hash == hash && |entry.text| == |data| {
        var equal := CaseEqualBytes(entry.text, data);
        if equal {
          return true, link - 1;
        }
      }
      link := entry.next;
    }
    return false, 0;
  }
}
