/** The answers the index must reproduce, each defined by scanning every line of the
    text (the oracle of PA1/more_tests/run_tests.py:82-179, with the C code followed
    where the two differ). Nothing here mentions ids, buckets, caches or merges. */
module NaiveScan {
  import opened Bytes
  import opened Text
  import opened Output
  import opened Options

  // ------------------------------------------------------- one line

  ghost predicate HasWord(line: seq<Byte>, w: seq<Byte>) {
    exists t :: IsWordRun(line, t) && WordAt(line, t) == w
  }

  /** Some `a` starts before some `b`. */
  ghost predicate HasInOrder(line: seq<Byte>, a: seq<Byte>, b: seq<Byte>) {
    exists t, u ::
      && IsWordRun(line, t) && WordAt(line, t) == a
      && IsWordRun(line, u) && WordAt(line, u) == b
      && t.start < u.start
  }

  /** The phrase stands at `p`: it begins where a word may begin, matches ignoring case
      and stops at a separator or the end of the line. */
  predicate PhraseStandsAt(line: seq<Byte>, phrase: seq<Byte>, p: nat) {
    && p + |phrase| <= |line|
    && (p == 0 || IsWordSep(line[p - 1]))
    && Lower(line[p..p + |phrase|]) == Lower(phrase)
    && (p + |phrase| == |line| || IsWordSep(line[p + |phrase|]))
  }

  /** The places of word `w` among `toks`, as references into line `no`. */
  function WordRefs(line: seq<Byte>, no: nat, toks: seq<Token>, w: seq<Byte>): seq<Item>
    requires forall t :: t in toks ==> t.start <= t.end <= |line|
  {
    if toks == [] then []
    else
      (if WordAt(line, toks[0]) == w then [Ref(no, toks[0].start)] else [])
      + WordRefs(line, no, toks[1..], w)
  }

  /** The positions from `p` on where the phrase stands: every byte offset is tried. */
  function PhraseRefs(line: seq<Byte>, no: nat, phrase: seq<Byte>, p: nat): seq<Item>
    requires p <= |line|
    decreases |line| - p
  {
    if p == |line| then []
    else (if PhraseStandsAt(line, phrase, p) then [Ref(no, p)] else []) + PhraseRefs(line, no, phrase, p + 1)
  }

  // ------------------------------------------------------- whole text

  /** A yes/no question about a line. */
  datatype LineTest = AllWords(words: set<seq<Byte>>) | InOrder(a: seq<Byte>, b: seq<Byte>)

  ghost predicate Passes(line: seq<Byte>, test: LineTest) {
    match test
    case AllWords(words) => forall w :: w in words ==> HasWord(line, w)
    case InOrder(a, b) => HasInOrder(line, a, b)
  }

  ghost function WordItems(lines: seq<seq<Byte>>, w: seq<Byte>): seq<Item> {
    if lines == [] then []
    else
      var n := |lines| - 1;
      TokensAreRuns(lines[n]);
      WordItems(lines[..n], w) + WordRefs(lines[n], n + 1, Tokens(lines[n]), w)
  }

  ghost function PhraseItems(lines: seq<seq<Byte>>, phrase: seq<Byte>): seq<Item> {
    if lines == [] then []
    else
      var n := |lines| - 1;
      PhraseItems(lines[..n], phrase) + PhraseRefs(lines[n], n + 1, phrase, 0)
  }

  /** The 1-based numbers of the lines that pass, in order. */
  ghost function PassingLines(lines: seq<seq<Byte>>, test: LineTest): seq<nat> {
    if lines == [] then []
    else
      var n := |lines| - 1;
      PassingLines(lines[..n], test) + if Passes(lines[n], test) then [n + 1] else []
  }

  function LineItems(numbers: seq<nat>): (items: seq<Item>)
    ensures |items| == |numbers|
  {
    seq(|numbers|, i requires 0 <= i < |numbers| => LineNo(numbers[i]))
  }

  // ------------------------------------------------------- queries

  /** The phrase between the outer quotes, when the query is a proper quoted phrase. */
  function QuotedPhrase(query: seq<Byte>): Option<seq<Byte>> {
    if |query| < 2 || query[0] != QUOTE || query[|query| - 1] != QUOTE then None
    else
      var phrase := query[1..|query| - 1];
      if phrase == [] || IsWordSep(phrase[0]) || IsWordSep(phrase[|phrase| - 1]) || QUOTE in phrase then None
      else Some(phrase)
  }

  /** The two words around the only star of a pattern query without separators. */
  function StarredPair(query: seq<Byte>): Option<(seq<Byte>, seq<Byte>)> {
    var star := IndexOf(query, STAR);
    if star == 0 || star + 1 >= |query| || STAR in query[star + 1..] then None
    else if exists i :: 0 <= i < |query| && IsWordSep(query[i]) then None
    else Some((query[..star], query[star + 1..]))
  }

  /** `query` is the phrase `p` in quotes, and `p` neither begins nor ends with a separator. */
  predicate IsPhrase(query: seq<Byte>, p: seq<Byte>) {
    && query == [QUOTE] + p + [QUOTE]
    && p != [] && !IsWordSep(p[0]) && !IsWordSep(p[|p| - 1]) && QUOTE !in p
  }

  /** Exactly the phrases in quotes are read as phrases, each as itself. */
  lemma QuotedPhraseExact(query: seq<Byte>, p: seq<Byte>)
    ensures QuotedPhrase(query) == Some(p) <==> IsPhrase(query, p)
  {
    if query == [QUOTE] + p + [QUOTE] {
      assert query[1..|query| - 1] == p;
    }
    if QuotedPhrase(query) == Some(p) {
      assert query == [query[0]] + query[1..|query| - 1] + [query[|query| - 1]];
    }
  }

  /** A word of a pattern. */
  predicate IsPlain(w: seq<Byte>) {
    w != [] && STAR !in w && forall i :: 0 <= i < |w| ==> !IsWordSep(w[i])
  }

  /** `query` is two words joined by a star. */
  predicate IsPattern(query: seq<Byte>, a: seq<Byte>, b: seq<Byte>) {
    query == a + [STAR] + b && IsPlain(a) && IsPlain(b)
  }

  /** Exactly two words joined by a star are read as a pattern, the left word first. */
  lemma StarredPairExact(query: seq<Byte>, a: seq<Byte>, b: seq<Byte>)
    ensures StarredPair(query) == Some((a, b)) <==> IsPattern(query, a, b)
  {
    if IsPattern(query, a, b) {
      PatternIsPair(query, a, b);
    }
    if StarredPair(query) == Some((a, b)) {
      PairIsPattern(query, a, b);
    }
  }

  lemma PatternIsPair(query: seq<Byte>, a: seq<Byte>, b: seq<Byte>)
    requires IsPattern(query, a, b)
    ensures StarredPair(query) == Some((a, b))
  {
    assert query[..|a|] == a && query[|a| + 1..] == b;
    IndexOfUnique(query, STAR, |a|);
    forall i | 0 <= i < |query| ensures !IsWordSep(query[i]) {
      assert query[i] == if i < |a| then a[i] else if i == |a| then STAR else b[i - |a| - 1];
    }
  }

  lemma PairIsPattern(query: seq<Byte>, a: seq<Byte>, b: seq<Byte>)
    requires StarredPair(query) == Some((a, b))
    ensures IsPattern(query, a, b)
  {
    var star := IndexOf(query, STAR);
    assert query == query[..star] + [query[star]] + query[star + 1..];
    assert forall i :: 0 <= i < |a| ==> a[i] == query[i];
    assert forall i :: 0 <= i < |b| ==> b[i] == query[star + 1 + i];
  }

  /** The folded words of a query, in order. */
  function QueryWordsOf(query: seq<Byte>, toks: seq<Token>): (ws: seq<seq<Byte>>)
    requires forall t :: t in toks ==> t.start <= t.end <= |query|
    ensures |ws| == |toks|
  {
    seq(|toks|, i requires 0 <= i < |toks| => WordAt(query, toks[i]))
  }

  ghost function QueryWords(query: seq<Byte>): (ws: seq<seq<Byte>>)
    ensures |ws| == |Tokens(query)|
  {
    TokensAreRuns(query);
    QueryWordsOf(query, Tokens(query))
  }

  /** The answer of a quoted query; anything but a proper phrase matches nothing. */
  ghost function PhraseQueryItems(lines: seq<seq<Byte>>, query: seq<Byte>): seq<Item> {
    match QuotedPhrase(query)
    case None => []
    case Some(phrase) => PhraseItems(lines, phrase)
  }

  ghost function PatternItems(lines: seq<seq<Byte>>, a: seq<Byte>, b: seq<Byte>): seq<Item> {
    LineItems(PassingLines(lines, InOrder(Lower(a), Lower(b))))
  }

  /** The answer of a starred query; anything but a proper pattern matches nothing. */
  ghost function PatternQueryItems(lines: seq<seq<Byte>>, query: seq<Byte>): seq<Item> {
    match StarredPair(query)
    case None => []
    case Some(pair) => PatternItems(lines, pair.0, pair.1)
  }

  /** A phrase in quotes asks for that phrase, any other quoted query for nothing. */
  lemma PhraseQueryMeans(lines: seq<seq<Byte>>, query: seq<Byte>)
    ensures forall p {:trigger IsPhrase(query, p)} :: IsPhrase(query, p) ==>
      PhraseQueryItems(lines, query) == PhraseItems(lines, p)
    ensures (forall p :: !IsPhrase(query, p)) ==> PhraseQueryItems(lines, query) == []
  {
    hide QuotedPhrase, IsPhrase, PhraseItems;
    forall p ensures QuotedPhrase(query) == Some(p) <==> IsPhrase(query, p) {
      QuotedPhraseExact(query, p);
    }
  }

  /** Two words joined by a star ask for the lines with the left one before the right one,
      any other starred query for nothing. */
  lemma PatternQueryMeans(lines: seq<seq<Byte>>, query: seq<Byte>)
    ensures forall a, b {:trigger IsPattern(query, a, b)} :: IsPattern(query, a, b) ==>
      PatternQueryItems(lines, query) == PatternItems(lines, a, b)
    ensures (forall a, b :: !IsPattern(query, a, b)) ==> PatternQueryItems(lines, query) == []
  {
    hide StarredPair, IsPattern, PatternItems;
    forall a, b ensures StarredPair(query) == Some((a, b)) <==> IsPattern(query, a, b) {
      StarredPairExact(query, a, b);
    }
  }

  ghost function WordSet(query: seq<Byte>): set<seq<Byte>> {
    set w | w in QueryWords(query)
  }

  /** The answer for lines that have all of `words`. */
  ghost function LinesAnswer(lines: seq<seq<Byte>>, words: set<seq<Byte>>): seq<Item> {
    LineItems(PassingLines(lines, AllWords(words)))
  }

  /** The answer of a query of several words; no words at all match nothing. */
  ghost function MultiItems(lines: seq<seq<Byte>>, query: seq<Byte>): seq<Item> {
    if QueryWords(query) == [] then [] else LinesAnswer(lines, WordSet(query))
  }

  ghost function AnswerItems(lines: seq<seq<Byte>>, query: seq<Byte>): seq<Item> {
    if QUOTE in query then PhraseQueryItems(lines, query)
    else if STAR in query then PatternQueryItems(lines, query)
    else if |QueryWords(query)| == 1 then WordItems(lines, QueryWords(query)[0])
    else MultiItems(lines, query)
  }

  /** What one query prints: its items and the one newline that ends them. */
  ghost function Answer(text: seq<Byte>, query: seq<Byte>): seq<Byte> {
    Render(AnswerItems(Lines(text), query)) + [NEWLINE]
  }

  ghost predicate StrictlyAscending(s: seq<nat>) {
    forall i, j :: 0 <= i < j < |s| ==> s[i] < s[j]
  }

  lemma AscendingSnoc(front: seq<nat>, k: nat)
    requires StrictlyAscending(front) && (forall i :: i in front ==> i < k)
    ensures StrictlyAscending(front + [k])
    ensures forall i: nat {:trigger i in front + [k]} :: i in front + [k] <==> i in front || i == k
  {
    assert forall i :: 0 <= i < |front| ==> front[i] in front;
  }

  /** Line numbers run upwards and are exactly the passing ones. */
  lemma {:induction false} PassingLinesExact(lines: seq<seq<Byte>>, test: LineTest)
    ensures forall k :: k in PassingLines(lines, test) <==> 1 <= k <= |lines| && Passes(lines[k - 1], test)
    ensures StrictlyAscending(PassingLines(lines, test))
  {
    hide Passes;
    if lines != [] {
      var n := |lines| - 1;
      PassingLinesExact(lines[..n], test);
      AscendingSnoc(PassingLines(lines[..n], test), n + 1);
      assert PassingLines(lines[..n], test) + [] == PassingLines(lines[..n], test);
    }
  }
}
