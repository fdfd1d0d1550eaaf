/** What each kind of query prints, said of the bytes of the text alone: the printed answer,
    read back, lists exactly the places or lines asked for (PA1/query.c:683-1160).
    Nothing here speaks of words as runs, of folding or of how a query is taken apart. */
module AnswerMeaning {
  import opened Bytes
  import opened Text
  import opened Output
  import opened Options
  import opened ReadBack
  import opened NaiveScan

  // ------------------------------------------------ words and phrases in a line

  predicate IsBlank(c: Byte) {
    c == 32 || c == 9
  }

  /** The same byte, or the same ASCII letter in upper and lower case. */
  predicate SameLetter(c: Byte, d: Byte) {
    c == d || (65 <= c <= 90 && d == c + 32) || (65 <= d <= 90 && c == d + 32)
  }

  predicate Alike(x: seq<Byte>, y: seq<Byte>) {
    |x| == |y| && forall i :: 0 <= i < |x| ==> SameLetter(x[i], y[i])
  }

  /** `w` stands at `p`: alike but for case, between blanks or the ends of the line. */
  predicate StandsAt(line: seq<Byte>, w: seq<Byte>, p: nat) {
    && p + |w| <= |line| && Alike(line[p..p + |w|], w)
    && (p == 0 || IsBlank(line[p - 1]))
    && (p + |w| == |line| || IsBlank(line[p + |w|]))
  }

  /** Folding makes alike exactly what differs in the case of letters only. */
  lemma FoldsAlike(x: seq<Byte>, y: seq<Byte>)
    ensures Lower(x) == Lower(y) <==> Alike(x, y)
  {
    if Lower(x) == Lower(y) {
      forall i | 0 <= i < |x| ensures SameLetter(x[i], y[i]) {
        assert Lower(x)[i] == Lower(y)[i];
      }
    }
  }

  lemma SepIsBlank()
    ensures forall c {:trigger IsWordSep(c)} :: IsWordSep(c) <==> IsBlank(c)
  {
  }

  lemma PhraseStands(line: seq<Byte>, phrase: seq<Byte>, p: nat)
    ensures PhraseStandsAt(line, phrase, p) <==> StandsAt(line, phrase, p)
  {
    SepIsBlank();
    if p + |phrase| <= |line| {
      FoldsAlike(line[p..p + |phrase|], phrase);
    }
  }

  predicate IsWord(w: seq<Byte>) {
    w != [] && forall i :: 0 <= i < |w| ==> !IsBlank(w[i])
  }

  /** A run of the line that spells `w` folded. */
  ghost predicate Spells(line: seq<Byte>, w: seq<Byte>, t: Token) {
    IsWordRun(line, t) && WordAt(line, t) == Lower(w)
  }

  /** A word stands exactly where a run spells it. */
  lemma WordStands(line: seq<Byte>, w: seq<Byte>, p: nat)
    requires IsWord(w)
    ensures StandsAt(line, w, p) <==> exists t :: Spells(line, w, t) && t.start == p
  {
    SepIsBlank();
    if StandsAt(line, w, p) {
      FoldsAlike(line[p..p + |w|], w);
      forall i | p <= i < p + |w| ensures !IsWordSep(line[i]) {
        assert SameLetter(line[p..p + |w|][i - p], w[i - p]);
      }
      assert Spells(line, w, Token(p, p + |w|));
    }
    if t :| Spells(line, w, t) && t.start == p {
      assert |Lower(w)| == t.end - t.start;
      FoldsAlike(line[t.start..t.end], w);
    }
  }

  // ------------------------------------------------ lists of places

  predicate Before(a: Item, b: Item) {
    a.Ref? && b.Ref? && (a.line < b.line || (a.line == b.line && a.start < b.start))
  }

  /** References to lines up to `n`, each before the next. */
  ghost predicate RefsInOrder(items: seq<Item>, n: nat) {
    && (forall i {:trigger items[i]} :: 0 <= i < |items| ==> items[i].Ref? && items[i].line <= n)
    && (forall i, j {:trigger items[i], items[j]} :: 0 <= i < j < |items| ==> Before(items[i], items[j]))
  }

  /** The references are in order and are exactly the places where `w` stands. */
  ghost predicate ArePlaces(items: seq<Item>, lines: seq<seq<Byte>>, w: seq<Byte>) {
    && RefsInOrder(items, |lines|)
    && (forall n: nat, p: nat {:trigger Ref(n, p) in items} ::
          Ref(n, p) in items <==> 1 <= n <= |lines| && StandsAt(lines[n - 1], w, p))
  }

  /** The references of one line, from place `from` on. */
  ghost predicate LineRefs(items: seq<Item>, no: nat, from: nat) {
    && (forall i {:trigger items[i]} :: 0 <= i < |items| ==>
          items[i].Ref? && items[i].line == no && from <= items[i].start)
    && (forall i, j {:trigger items[i], items[j]} :: 0 <= i < j < |items| ==> Before(items[i], items[j]))
  }

  lemma LineRefsCons(first: Item, items: seq<Item>, no: nat, from: nat)
    requires first.Ref? && first.line == no && LineRefs(items, no, from) && first.start < from
    ensures LineRefs([first] + items, no, first.start)
  {
  }

  lemma LineRefsWiden(items: seq<Item>, no: nat, from: nat, less: nat)
    requires LineRefs(items, no, from) && less <= from
    ensures LineRefs(items, no, less)
  {
  }

  lemma NoLineRefs(no: nat, from: nat)
    ensures LineRefs([], no, from)
  {
  }

  lemma InConcat(a: seq<Item>, b: seq<Item>)
    ensures forall x {:trigger x in a + b} :: x in a + b <==> x in a || x in b
  {
  }

  lemma RefsAppend(front: seq<Item>, here: seq<Item>, no: nat)
    requires 0 < no && RefsInOrder(front, no - 1) && LineRefs(here, no, 0)
    ensures RefsInOrder(front + here, no)
  {
  }

  /** One more line's references. */
  lemma PlacesSnoc(front: seq<Item>, here: seq<Item>, lines: seq<seq<Byte>>, line: seq<Byte>, w: seq<Byte>)
    requires ArePlaces(front, lines, w) && LineRefs(here, |lines| + 1, 0)
    requires forall p: nat {:trigger Ref(|lines| + 1, p) in here} ::
      Ref(|lines| + 1, p) in here <==> StandsAt(line, w, p)
    ensures ArePlaces(front + here, lines + [line], w)
  {
    hide StandsAt;
    var all, no := lines + [line], |lines| + 1;
    RefsAppend(front, here, no);
    InConcat(front, here);
    forall n: nat, p: nat
      ensures Ref(n, p) in front + here <==>
        1 <= n <= |all| && StandsAt(if 1 <= n <= |all| then all[n - 1] else [], w, p)
    {
      if Ref(n, p) in here {
        var i :| 0 <= i < |here| && here[i] == Ref(n, p);
      }
    }
  }

  // ------------------------------------------------ one line

  lemma {:induction false} PhraseRefsExact(line: seq<Byte>, no: nat, phrase: seq<Byte>, from: nat)
    requires from <= |line| && phrase != []
    ensures LineRefs(PhraseRefs(line, no, phrase, from), no, from)
    ensures forall p: nat {:trigger Ref(no, p) in PhraseRefs(line, no, phrase, from)} ::
      Ref(no, p) in PhraseRefs(line, no, phrase, from) <==> from <= p && StandsAt(line, phrase, p)
    decreases |line| - from
  {
    hide StandsAt, PhraseStandsAt, LineRefs;
    if from == |line| {
      NoLineRefs(no, from);
      forall p: nat ensures !(from <= p && StandsAt(line, phrase, p)) {
        PastEnd(line, phrase, p);
      }
    } else {
      PhraseRefsExact(line, no, phrase, from + 1);
      PhraseStands(line, phrase, from);
      var rest := PhraseRefs(line, no, phrase, from + 1);
      LineRefsCons(Ref(no, from), rest, no, from + 1);
      LineRefsWiden(rest, no, from + 1, from);
      InConcat([Ref(no, from)], rest);
      assert [] + rest == rest;
    }
  }

  lemma PastEnd(line: seq<Byte>, phrase: seq<Byte>, p: nat)
    requires phrase != []
    ensures StandsAt(line, phrase, p) ==> p < |line|
  {
  }

  ghost predicate StartsIn(line: seq<Byte>, toks: seq<Token>, w: seq<Byte>, p: nat)
    requires forall t :: t in toks ==> t.start <= t.end <= |line|
  {
    exists t :: t in toks && WordAt(line, t) == w && t.start == p
  }

  lemma NoneStarts(line: seq<Byte>, w: seq<Byte>)
    ensures forall p: nat {:trigger StartsIn(line, [], w, p)} :: !StartsIn(line, [], w, p)
  {
  }

  lemma StartsStep(line: seq<Byte>, toks: seq<Token>, w: seq<Byte>)
    requires toks != [] && forall t :: t in toks ==> t.start <= t.end <= |line|
    ensures forall t :: t in toks[1..] ==> t.start <= t.end <= |line|
    ensures forall p: nat {:trigger StartsIn(line, toks, w, p)} :: StartsIn(line, toks, w, p) <==>
      (WordAt(line, toks[0]) == w && toks[0].start == p) || StartsIn(line, toks[1..], w, p)
  {
    hide WordAt;
    assert forall u :: u in toks <==> u == toks[0] || u in toks[1..];
  }

  /** Tokens from place `from` on, one after the other. */
  ghost predicate LaidOut(line: seq<Byte>, toks: seq<Token>, from: nat) {
    && (forall t :: t in toks ==> from <= t.start < t.end <= |line|)
    && (forall i, j :: 0 <= i < j < |toks| ==> toks[i].end <= toks[j].start)
  }

  lemma LaidOutTail(line: seq<Byte>, toks: seq<Token>, from: nat)
    requires LaidOut(line, toks, from) && toks != []
    ensures from <= toks[0].start < toks[0].end <= |line| && LaidOut(line, toks[1..], toks[0].start + 1)
  {
  }

  lemma LaidOutFits(line: seq<Byte>, toks: seq<Token>, from: nat)
    requires LaidOut(line, toks, from)
    ensures forall t :: t in toks ==> t.start <= t.end <= |line|
  {
  }

  lemma UnfoldWordRefs(line: seq<Byte>, no: nat, toks: seq<Token>, w: seq<Byte>)
    requires toks != [] && forall t :: t in toks ==> t.start <= t.end <= |line|
    ensures forall t :: t in toks[1..] ==> t.start <= t.end <= |line|
    ensures WordRefs(line, no, toks, w) ==
      (if WordAt(line, toks[0]) == w then [Ref(no, toks[0].start)] else []) + WordRefs(line, no, toks[1..], w)
  {
  }

  /** The references are the starts of the tokens that spell `w`. */
  ghost predicate RefsAre(items: seq<Item>, line: seq<Byte>, no: nat, toks: seq<Token>, w: seq<Byte>)
    requires forall t :: t in toks ==> t.start <= t.end <= |line|
  {
    forall p: nat {:trigger Ref(no, p) in items} :: Ref(no, p) in items <==> StartsIn(line, toks, w, p)
  }

  lemma RefsAreCons(items: seq<Item>, line: seq<Byte>, no: nat, toks: seq<Token>, w: seq<Byte>)
    requires toks != [] && forall t :: t in toks ==> t.start <= t.end <= |line|
    requires forall t :: t in toks[1..] ==> t.start <= t.end <= |line|
    requires RefsAre(items, line, no, toks[1..], w)
    ensures RefsAre((if WordAt(line, toks[0]) == w then [Ref(no, toks[0].start)] else []) + items, line, no, toks, w)
  {
    hide WordAt, StartsIn;
    StartsStep(line, toks, w);
    InConcat([Ref(no, toks[0].start)], items);
    assert [] + items == items;
  }

  lemma {:induction false} WordRefsExact(line: seq<Byte>, no: nat, toks: seq<Token>, w: seq<Byte>, from: nat)
    requires LaidOut(line, toks, from)
    ensures forall t :: t in toks ==> t.start <= t.end <= |line|
    ensures LineRefs(WordRefs(line, no, toks, w), no, from)
    ensures RefsAre(WordRefs(line, no, toks, w), line, no, toks, w)
    decreases |toks|
  {
    LaidOutFits(line, toks, from);
    if toks == [] {
      NoneStarts(line, w);
    } else {
      hide WordAt, StartsIn, LineRefs, LaidOut, WordRefs, RefsAre;
      var t, rest := toks[0], toks[1..];
      LaidOutTail(line, toks, from);
      WordRefsExact(line, no, rest, w, t.start + 1);
      UnfoldWordRefs(line, no, toks, w);
      var refs := WordRefs(line, no, rest, w);
      RefsAreCons(refs, line, no, toks, w);
      LineRefsWiden(refs, no, t.start + 1, from);
      LineRefsCons(Ref(no, t.start), refs, no, t.start + 1);
      LineRefsWiden([Ref(no, t.start)] + refs, no, t.start, from);
      assert [] + refs == refs;
    }
  }

  // ------------------------------------------------ the whole text

  lemma {:induction false} PhraseItemsExact(lines: seq<seq<Byte>>, phrase: seq<Byte>)
    requires phrase != []
    ensures ArePlaces(PhraseItems(lines, phrase), lines, phrase)
  {
    hide StandsAt, PhraseStandsAt, PhraseRefs;
    if lines != [] {
      var n := |lines| - 1;
      PhraseItemsExact(lines[..n], phrase);
      PhraseRefsExact(lines[n], n + 1, phrase, 0);
      PlacesSnoc(PhraseItems(lines[..n], phrase), PhraseRefs(lines[n], n + 1, phrase, 0), lines[..n], lines[n], phrase);
      assert lines[..n] + [lines[n]] == lines;
    }
  }

  lemma TokensLaidOut(line: seq<Byte>)
    ensures LaidOut(line, Tokens(line), 0)
  {
    TokensAreRuns(line);
  }

  lemma LineWordRefs(line: seq<Byte>, no: nat, w: seq<Byte>)
    requires IsWord(w)
    ensures forall t :: t in Tokens(line) ==> t.start <= t.end <= |line|
    ensures LineRefs(WordRefs(line, no, Tokens(line), Lower(w)), no, 0)
    ensures forall p: nat {:trigger Ref(no, p) in WordRefs(line, no, Tokens(line), Lower(w))} ::
      Ref(no, p) in WordRefs(line, no, Tokens(line), Lower(w)) <==> StandsAt(line, w, p)
  {
    hide StandsAt, WordAt, WordRefs;
    TokensAreRuns(line);
    TokensLaidOut(line);
    WordRefsExact(line, no, Tokens(line), Lower(w), 0);
    forall p: nat ensures StartsIn(line, Tokens(line), Lower(w), p) <==> StandsAt(line, w, p) {
      WordStands(line, w, p);
      if t :| Spells(line, w, t) && t.start == p {
        assert t in Tokens(line);
      }
      if StartsIn(line, Tokens(line), Lower(w), p) {
        var t :| t in Tokens(line) && WordAt(line, t) == Lower(w) && t.start == p;
        assert Spells(line, w, t);
      }
    }
  }

  lemma {:induction false} WordItemsExact(lines: seq<seq<Byte>>, w: seq<Byte>)
    requires IsWord(w)
    ensures ArePlaces(WordItems(lines, Lower(w)), lines, w)
  {
    hide StandsAt, WordAt, WordRefs, Tokens, IsWord;
    if lines != [] {
      var n := |lines| - 1;
      WordItemsExact(lines[..n], w);
      LineWordRefs(lines[n], n + 1, w);
      PlacesSnoc(WordItems(lines[..n], Lower(w)), WordRefs(lines[n], n + 1, Tokens(lines[n]), Lower(w)), lines[..n],
        lines[n], w);
      assert lines[..n] + [lines[n]] == lines;
    }
  }

  // ------------------------------------------------ lists of lines

  /** Line numbers, each below the next. */
  ghost predicate NumbersInOrder(items: seq<Item>) {
    && (forall i {:trigger items[i]} :: 0 <= i < |items| ==> items[i].LineNo?)
    && (forall i, j {:trigger items[i], items[j]} :: 0 <= i < j < |items| ==> items[i].line < items[j].line)
  }

  /** The numbers are in order and are exactly the lines that pass. */
  ghost predicate AreLines(items: seq<Item>, lines: seq<seq<Byte>>, test: LineTest) {
    && NumbersInOrder(items)
    && (forall n: nat {:trigger LineNo(n) in items} ::
          LineNo(n) in items <==> 1 <= n <= |lines| && Passes(lines[n - 1], test))
  }

  lemma LinesExact(lines: seq<seq<Byte>>, test: LineTest)
    ensures AreLines(LineItems(PassingLines(lines, test)), lines, test)
  {
    hide Passes;
    PassingLinesExact(lines, test);
    var numbers := PassingLines(lines, test);
    var items := LineItems(numbers);
    forall n: nat ensures LineNo(n) in items <==> n in numbers {
      if n in numbers {
        var i :| 0 <= i < |numbers| && numbers[i] == n;
        assert items[i] == LineNo(n);
      }
    }
  }

  /** Some `a` stands before some `b`. */
  ghost predicate StandInOrder(line: seq<Byte>, a: seq<Byte>, b: seq<Byte>) {
    exists p: nat, q: nat :: StandsAt(line, a, p) && StandsAt(line, b, q) && p < q
  }

  lemma SpelledInOrder(line: seq<Byte>, a: seq<Byte>, b: seq<Byte>, p: nat, q: nat)
    requires IsWord(a) && IsWord(b) && StandsAt(line, a, p) && StandsAt(line, b, q) && p < q
    ensures HasInOrder(line, Lower(a), Lower(b))
  {
    hide StandsAt, IsWord;
    WordStands(line, a, p);
    WordStands(line, b, q);
    var t :| Spells(line, a, t) && t.start == p;
    var u :| Spells(line, b, u) && u.start == q;
    assert IsWordRun(line, t) && IsWordRun(line, u);
  }

  lemma InOrderStand(line: seq<Byte>, a: seq<Byte>, b: seq<Byte>)
    requires IsWord(a) && IsWord(b)
    ensures HasInOrder(line, Lower(a), Lower(b)) <==> StandInOrder(line, a, b)
  {
    if HasInOrder(line, Lower(a), Lower(b)) {
      var t, u :|
        && IsWordRun(line, t) && WordAt(line, t) == Lower(a)
        && IsWordRun(line, u) && WordAt(line, u) == Lower(b) && t.start < u.start;
      hide StandsAt, WordAt, IsWord, HasInOrder;
      assert Spells(line, a, t) && Spells(line, b, u);
      WordStands(line, a, t.start);
      WordStands(line, b, u.start);
    }
    if p: nat, q: nat :| StandsAt(line, a, p) && StandsAt(line, b, q) && p < q {
      hide StandsAt, HasInOrder;
      SpelledInOrder(line, a, b, p, q);
    }
  }

  ghost predicate StandsSomewhere(line: seq<Byte>, w: seq<Byte>) {
    exists p: nat :: StandsAt(line, w, p)
  }

  lemma HasWordStands(line: seq<Byte>, w: seq<Byte>)
    requires IsWord(w)
    ensures HasWord(line, Lower(w)) <==> StandsSomewhere(line, w)
  {
    hide StandsAt, WordAt, IsWord;
    if HasWord(line, Lower(w)) {
      var t :| IsWordRun(line, t) && WordAt(line, t) == Lower(w);
      assert Spells(line, w, t);
      WordStands(line, w, t.start);
    }
    if p: nat :| StandsAt(line, w, p) {
      WordStands(line, w, p);
    }
  }

  // ------------------------------------------------ the words of a query

  /** The stretch `w` of the query at `p` is a word between blanks or the query's ends. */
  predicate WordOf(query: seq<Byte>, w: seq<Byte>, p: nat) {
    && IsWord(w) && p + |w| <= |query| && query[p..p + |w|] == w
    && (p == 0 || IsBlank(query[p - 1]))
    && (p + |w| == |query| || IsBlank(query[p + |w|]))
  }

  lemma WordIsToken(query: seq<Byte>, w: seq<Byte>, p: nat)
    requires WordOf(query, w, p)
    ensures Token(p, p + |w|) in Tokens(query)
  {
    TokensAreRuns(query);
    SepIsBlank();
    forall i | p <= i < p + |w| ensures !IsWordSep(query[i]) {
      assert query[i] == w[i - p];
    }
  }

  lemma TokenIsWord(query: seq<Byte>, t: Token)
    requires t in Tokens(query)
    ensures t.start < t.end <= |query| && WordOf(query, query[t.start..t.end], t.start)
  {
    TokensAreRuns(query);
    SepIsBlank();
  }

  lemma QueryWordAt(query: seq<Byte>, i: nat)
    requires i < |Tokens(query)|
    ensures Tokens(query)[i] in Tokens(query) && Tokens(query)[i].start <= Tokens(query)[i].end <= |query|
    ensures QueryWords(query)[i] == Lower(query[Tokens(query)[i].start..Tokens(query)[i].end])
  {
    TokensAreRuns(query);
  }

  /** The folded query words are the foldings of the words of the query. */
  lemma QueryWordsAre(query: seq<Byte>, v: seq<Byte>)
    ensures v in QueryWords(query) <==> exists w, p: nat :: WordOf(query, w, p) && v == Lower(w)
  {
    hide WordOf, Tokens, QueryWords, Lower;
    var toks, ws := Tokens(query), QueryWords(query);
    if v in ws {
      var i :| 0 <= i < |ws| && ws[i] == v;
      QueryWordAt(query, i);
      TokenIsWord(query, toks[i]);
    }
    if w, p: nat :| WordOf(query, w, p) && v == Lower(w) {
      WordIsToken(query, w, p);
      var i :| 0 <= i < |toks| && toks[i] == Token(p, p + |w|);
      QueryWordAt(query, i);
      WordSlice(query, w, p);
    }
  }

  lemma WordSlice(query: seq<Byte>, w: seq<Byte>, p: nat)
    requires WordOf(query, w, p)
    ensures p + |w| <= |query| && query[p..p + |w|] == w && IsWord(w)
  {
  }

  // ------------------------------------------------ what is printed

  /** The answer is items and a newline, and these are the items. */
  lemma AnswerReadBack(text: seq<Byte>, query: seq<Byte>)
    ensures ReadAnswer(Answer(text, query)) == Some(AnswerItems(Lines(text), query))
  {
    ItemsReadBack(AnswerItems(Lines(text), query));
  }

  predicate NoMarks(query: seq<Byte>) {
    QUOTE !in query && STAR !in query
  }

  /** A query of one word lists every place where the word stands. */
  lemma WordAnswer(text: seq<Byte>, query: seq<Byte>, w: seq<Byte>, p: nat)
    requires NoMarks(query) && WordOf(query, w, p)
    requires forall v, q: nat :: WordOf(query, v, q) ==> q == p
    ensures ReadAnswer(Answer(text, query)).Some?
    ensures ArePlaces(ReadAnswer(Answer(text, query)).value, Lines(text), w)
  {
    hide WordOf, ArePlaces, Render, ReadAnswer, Lines;
    AnswerReadBack(text, query);
    OnlyToken(query, w, p);
    WordSlice(query, w, p);
    assert QueryWords(query)[0] == Lower(w);
    WordItemsExact(Lines(text), w);
  }

  lemma StartsDiffer(query: seq<Byte>, i: nat, j: nat)
    requires i < j < |Tokens(query)|
    ensures Tokens(query)[i].start < Tokens(query)[j].start
  {
    TokensAreRuns(query);
    assert Tokens(query)[i] in Tokens(query);
  }

  lemma OnlyToken(query: seq<Byte>, w: seq<Byte>, p: nat)
    requires WordOf(query, w, p) && forall v, q: nat :: WordOf(query, v, q) ==> q == p
    ensures Tokens(query) == [Token(p, p + |w|)]
  {
    hide WordOf, Tokens;
    var toks := Tokens(query);
    WordIsToken(query, w, p);
    forall i | 0 <= i < |toks| ensures toks[i].start == p {
      TokenIsWord(query, toks[i]);
    }
    if |toks| > 1 {
      StartsDiffer(query, 0, 1);
      assert false;
    }
  }

  /** A phrase in quotes lists every place where the phrase stands. */
  lemma PhraseAnswer(text: seq<Byte>, p: seq<Byte>)
    requires p != [] && !IsBlank(p[0]) && !IsBlank(p[|p| - 1]) && QUOTE !in p
    ensures ReadAnswer(Answer(text, [QUOTE] + p + [QUOTE])).Some?
    ensures ArePlaces(ReadAnswer(Answer(text, [QUOTE] + p + [QUOTE])).value, Lines(text), p)
  {
    hide ArePlaces, Render, ReadAnswer, Lines, PhraseItems;
    var query := [QUOTE] + p + [QUOTE];
    AnswerReadBack(text, query);
    SepIsBlank();
    assert query[0] == QUOTE;
    QuotedPhraseExact(query, p);
    PhraseItemsExact(Lines(text), p);
  }

  /** Two words joined by a star list the lines where the left one stands before the right
      one. */
  lemma PatternAnswer(text: seq<Byte>, a: seq<Byte>, b: seq<Byte>)
    requires IsWord(a) && IsWord(b) && NoMarks(a) && NoMarks(b)
    ensures var printed := ReadAnswer(Answer(text, a + [STAR] + b));
      && printed.Some? && NumbersInOrder(printed.value)
      && (forall n: nat {:trigger LineNo(n) in printed.value} ::
            LineNo(n) in printed.value <==> 1 <= n <= |Lines(text)| && StandInOrder(Lines(text)[n - 1], a, b))
  {
    hide Render, ReadAnswer, Lines, NumbersInOrder, StandInOrder, HasInOrder, PassingLines;
    var query, lines := a + [STAR] + b, Lines(text);
    AnswerReadBack(text, query);
    SepIsBlank();
    assert query[|a|] == STAR;
    StarredPairExact(query, a, b);
    LinesExact(lines, InOrder(Lower(a), Lower(b)));
    forall i | 0 <= i < |lines|
      ensures Passes(lines[i], InOrder(Lower(a), Lower(b))) <==> StandInOrder(lines[i], a, b)
    {
      InOrderStand(lines[i], a, b);
    }
  }

  /** Every word of the query stands in the line. */
  ghost predicate AllStand(line: seq<Byte>, query: seq<Byte>) {
    forall w, p: nat {:trigger WordOf(query, w, p)} :: WordOf(query, w, p) ==> StandsSomewhere(line, w)
  }

  lemma AllWordsStand(line: seq<Byte>, query: seq<Byte>)
    ensures Passes(line, AllWords(WordSet(query))) <==> AllStand(line, query)
  {
    hide WordOf, StandsSomewhere, HasWord, QueryWords;
    forall v ensures v in QueryWords(query) <==> exists w, p: nat :: WordOf(query, w, p) && v == Lower(w) {
      QueryWordsAre(query, v);
    }
    forall w, p: nat | WordOf(query, w, p) ensures HasWord(line, Lower(w)) <==> StandsSomewhere(line, w) {
      WordSlice(query, w, p);
      HasWordStands(line, w);
    }
    if Passes(line, AllWords(WordSet(query))) {
      forall w, p: nat | WordOf(query, w, p) ensures StandsSomewhere(line, w) {
        assert Lower(w) in WordSet(query);
      }
    }
  }

  /** A query of several words lists the lines where all of them stand. */
  lemma WordsAnswer(text: seq<Byte>, query: seq<Byte>, v: seq<Byte>, w: seq<Byte>, p: nat, q: nat)
    requires NoMarks(query) && WordOf(query, v, p) && WordOf(query, w, q) && p != q
    ensures var printed := ReadAnswer(Answer(text, query));
      && printed.Some? && NumbersInOrder(printed.value)
      && (forall n: nat {:trigger LineNo(n) in printed.value} ::
            LineNo(n) in printed.value <==> 1 <= n <= |Lines(text)| && AllStand(Lines(text)[n - 1], query))
  {
    hide Render, ReadAnswer, Lines, NumbersInOrder, AllStand, PassingLines, WordOf, Tokens, Passes, WordSet;
    var lines := Lines(text);
    AnswerReadBack(text, query);
    WordIsToken(query, v, p);
    WordIsToken(query, w, q);
    assert |QueryWords(query)| == |Tokens(query)| > 1;
    LinesExact(lines, AllWords(WordSet(query)));
    forall i | 0 <= i < |lines| ensures Passes(lines[i], AllWords(WordSet(query))) <==> AllStand(lines[i], query) {
      AllWordsStand(lines[i], query);
    }
  }

  /** A quoted query that is no proper phrase, a starred one that is no proper pattern, and
      a query without words print the newline alone. */
  lemma OtherAnswer(text: seq<Byte>, query: seq<Byte>)
    requires QUOTE in query ==> forall p :: !IsPhrase(query, p)
    requires QUOTE !in query && STAR in query ==> forall a, b :: !IsPattern(query, a, b)
    requires NoMarks(query) ==> forall w, p: nat :: !WordOf(query, w, p)
    ensures Answer(text, query) == [NEWLINE]
  {
    hide WordOf, IsPhrase, IsPattern, PhraseItems, PatternItems;
    PhraseQueryMeans(Lines(text), query);
    PatternQueryMeans(Lines(text), query);
    if NoMarks(query) && Tokens(query) != [] {
      TokenIsWord(query, Tokens(query)[0]);
      assert false;
    }
    assert Render([]) + [NEWLINE] == [NEWLINE];
  }
}
