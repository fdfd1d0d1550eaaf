/** The whole search engine (PA1/query.c:1107-1160, PA1/main.c:43-111): every query is
    answered as the naive scan of the text answers it, whatever was asked before. */
module Query {
  import opened Bytes
  import opened Text
  import opened Files
  import opened Output
  import opened NaiveScan
  import opened Postings
  import opened IndexBuild
  import opened WordChoice
  import opened StreamQuery
  import opened MultiQuery
  import opened PatternQuery

  /** How many words a query has, and where the first one is. */
  method CountQueryWords(query: seq<Byte>) returns (count: nat, start: nat, len: nat)
    ensures count == |Tokens(query)|
    ensures 0 < count ==> Tokens(query)[0] == Token(start, start + len)
  {
    count, start, len := 0, 0, 0;
    var pos := 0;
    while pos < |query|
      invariant pos <= |query|
      invariant count + |TokensFrom(query, pos)| == |Tokens(query)|
      invariant count == 0 ==> pos == 0
      invariant 0 < count ==> 0 < |Tokens(query)| && Tokens(query)[0] == Token(start, start + len)
    {
      var from := FindSepsEnd(query, pos);
      if from >= |query| {
        return;
      }
      pos := FindWordEnd(query, from);
      if count == 0 {
        start, len := from, pos - from;
      }
      count := count + 1;
    }
  }

  lemma NoWords(lines: seq<seq<Byte>>, query: seq<Byte>)
    requires |Tokens(query)| == 0
    ensures MultiItems(lines, query) == []
  {
  }

  lemma OnlyWord(query: seq<Byte>, start: nat, len: nat)
    requires |Tokens(query)| == 1 && Tokens(query)[0] == Token(start, start + len)
    ensures start + len <= |query| && QueryWords(query)[0] == Lower(query[start..start + len])
  {
    TokensAreRuns(query);
    assert Tokens(query)[0] in Tokens(query);
  }

  /** Any query within the limit prints its naive answer and leaves the index intact. It
      fails exactly when a cursor read ends inside a cell, and then it has printed a front
      part of the answer. */
  method HandleQuery(index: Index, query: seq<Byte>, out: OutBuf) returns (ok: bool)
    requires Ready(index, out) && |query| <= QUERY_LIMIT
    modifies index.lexicon`entries, out, out.buf, index.io
    ensures Ready(index, out)
    ensures ok ==> out.Contents() == old(out.Contents()) + Answer(index.input, query)
    ensures Within(old(out.Contents()), Answer(index.input, query), out.Contents())
    ensures ok <==> index.io.cuts == old(index.io.cuts)
    ensures index.io.Aligned() ==> ok
    ensures old(OneByteNext(index.io)) && PatternOfText(index.input, query) ==> !ok
  {
    ghost var was := out.Contents();
    ok := Dispatch(index, query, out);
    OutcomeMeans(was, index.input, query, out.Contents(), ok);
  }

  /** A pattern query of two words of the text. */
  ghost predicate PatternOfText(text: seq<Byte>, query: seq<Byte>) {
    QUOTE !in query && STAR in query && BothOccur(Lines(text), query)
  }

  lemma OutcomeMeans(was: seq<Byte>, text: seq<Byte>, query: seq<Byte>, now: seq<Byte>, ok: bool)
    requires Outcome(was, AnswerItems(Lines(text), query), now, ok)
    ensures ok ==> now == was + Answer(text, query)
    ensures Within(was, Answer(text, query), now)
  {
    hide AnswerItems, Render;
  }

  /** Hand the query to the handler of its kind. */
  method Dispatch(index: Index, query: seq<Byte>, out: OutBuf) returns (ok: bool)
    requires Ready(index, out) && |query| <= QUERY_LIMIT
    modifies index.lexicon`entries, out, out.buf, index.io
    ensures Ready(index, out)
    ensures Outcome(old(out.Contents()), AnswerItems(Lines(index.input), query), out.Contents(), ok)
    ensures ok <==> index.io.cuts == old(index.io.cuts)
    ensures index.io.Aligned() ==> ok
    ensures old(OneByteNext(index.io)) && PatternOfText(index.input, query) ==> !ok
  {
    hide Index.Valid, Reads.Aligned, Outcome, Answered, OneByteNext, BothOccur;
    hide PhraseQueryItems, PatternQueryItems, WordItems, MultiItems, Tokens, QueryWords, Render;
    ghost var was := out.Contents();
    var quoted := ContainsChar(query, QUOTE);
    if quoted {
      ok := HandlePhrase(index, query, out);
      AnsweredOutcome(was, PhraseQueryItems(Lines(index.input), query), out.Contents());
      return;
    }
    var starred := ContainsChar(query, STAR);
    if starred {
      ok := HandlePattern(index, query, out);
      return;
    }
    var count, start, len := CountQueryWords(query);
    if count == 0 {
      NoWords(Lines(index.input), query);
      NothingOutcome(was);
      EmitBlankLine(out);
      return true;
    }
    if count == 1 {
      OnlyWord(query, start, len);
      ok := HandleSingle(index, query[start..start + len], out);
      AnsweredOutcome(was, WordItems(Lines(index.input), QueryWords(query)[0]), out.Contents());
      return;
    }
    ok := HandleMulti(index, query, out);
  }

  lemma {:induction false} FlattenMember(cells: seq<seq<Byte>>, c: Byte)
    requires c in Flatten(cells)
    ensures exists i :: 0 <= i < |cells| && c in cells[i]
  {
    var n := |cells| - 1;
    if c in Flatten(cells[..n]) {
      FlattenMember(cells[..n], c);
      var i :| 0 <= i < n && c in cells[..n][i];
      assert c in cells[i];
    }
  }

  /** An answer ends in the only newline it has, so answers can be told apart by lines. */
  lemma OnlyNewlineLast(text: seq<Byte>, query: seq<Byte>)
    ensures Answer(text, query) != [] && FirstNewline(Answer(text, query)) == |Answer(text, query)| - 1
  {
    var items := AnswerItems(Lines(text), query);
    var body := Render(items);
    if NEWLINE in body {
      FlattenMember(RenderEach(items), NEWLINE);
      var i :| 0 <= i < |items| && NEWLINE in RenderItem(items[i]);
      DecimalRoundTrip(items[i].line);
      if items[i].Ref? {
        DecimalRoundTrip(items[i].start);
      }
      assert false;
    }
    IndexOfUnique(Answer(text, query), NEWLINE, |body|);
  }

  // ------------------------------------------------ a session

  /** "PA1EXIT" */
  const EXIT_WORD: seq<Byte> := [80, 65, 49, 69, 88, 73, 84]

  /** The queries a session answers: up to the exit word or a line that is too long. */
  function Asked(lines: seq<seq<Byte>>): seq<seq<Byte>> {
    if lines == [] || |lines[0]| > QUERY_LIMIT || lines[0] == EXIT_WORD then [] else [lines[0]] + Asked(lines[1..])
  }

  /** How a session ends. */
  datatype Exit = Finished | TooLong | Failed

  function Ending(lines: seq<seq<Byte>>): Exit {
    if lines == [] then Finished
    else if |lines[0]| > QUERY_LIMIT then TooLong
    else if lines[0] == EXIT_WORD then Finished
    else Ending(lines[1..])
  }

  /** The line that ends a session. */
  predicate Stops(line: seq<Byte>) {
    |line| > 4096 || line == [80, 65, 49, 69, 88, 73, 84]
  }

  /** Asked are the lines before the first that is too long or says PA1EXIT, and only a line
      that is too long makes the session end badly. */
  lemma {:induction false} AskedExact(lines: seq<seq<Byte>>)
    ensures var k := |Asked(lines)|;
      && k <= |lines| && Asked(lines) == lines[..k] && (forall i :: 0 <= i < k ==> !Stops(lines[i]))
      && (k < |lines| ==> Stops(lines[k]))
      && Ending(lines) == if k < |lines| && |lines[k]| > 4096 then TooLong else Finished
  {
    if lines != [] && !Stops(lines[0]) {
      AskedExact(lines[1..]);
      assert lines == [lines[0]] + lines[1..];
    }
  }

  ghost function Answers(text: seq<Byte>, queries: seq<seq<Byte>>): seq<Byte> {
    if queries == [] then []
    else Answers(text, queries[..|queries| - 1]) + Answer(text, queries[|queries| - 1])
  }

  /** After `done` queries, with `rest` of the input unread. */
  ghost predicate Serving(text: seq<Byte>, stdin: seq<Byte>, rest: seq<Byte>, done: seq<seq<Byte>>,
                          printed: seq<Byte>) {
    && printed == Answers(text, done)
    && done + Asked(Lines(rest)) == Asked(Lines(stdin))
    && Ending(Lines(rest)) == Ending(Lines(stdin))
  }

  lemma ServeStart(text: seq<Byte>, stdin: seq<Byte>)
    ensures Serving(text, stdin, stdin, [], [])
  {
    assert [] + Asked(Lines(stdin)) == Asked(Lines(stdin));
  }

  lemma ServeStep(text: seq<Byte>, stdin: seq<Byte>, rest: seq<Byte>, done: seq<seq<Byte>>, printed: seq<Byte>)
    requires Serving(text, stdin, rest, done, printed) && rest != []
    ensures var q := rest[..FirstNewline(rest)];
      |q| <= QUERY_LIMIT && q != EXIT_WORD ==>
        Serving(text, stdin, rest[LineExtent(rest)..], done + [q], printed + Answer(text, q))
  {
    var q := rest[..FirstNewline(rest)];
    assert (done + [q])[..|done|] == done;
    ConcatAssoc(done, [q], Asked(Lines(rest[LineExtent(rest)..])));
  }

  lemma ServeEnd(text: seq<Byte>, stdin: seq<Byte>, rest: seq<Byte>, done: seq<seq<Byte>>, printed: seq<Byte>,
                 exit: Exit)
    requires Serving(text, stdin, rest, done, printed)
    requires rest == [] || |rest[..FirstNewline(rest)]| > QUERY_LIMIT || rest[..FirstNewline(rest)] == EXIT_WORD
    requires exit == if rest == [] || |rest[..FirstNewline(rest)]| <= QUERY_LIMIT then Finished else TooLong
    ensures Over(text, stdin, printed, exit)
  {
    assert done + [] == done;
  }

  /** The answers of the first `k` queries, then a front part of the next one. */
  ghost predicate FailedAt(text: seq<Byte>, queries: seq<seq<Byte>>, k: nat, printed: seq<Byte>) {
    k < |queries| && Within(Answers(text, queries[..k]), Answer(text, queries[k]), printed)
  }

  /** How a session can be over: with every answer printed, or stopped in one of them. */
  ghost predicate Over(text: seq<Byte>, stdin: seq<Byte>, printed: seq<Byte>, exit: Exit) {
    if exit == Failed then exists k: nat :: FailedAt(text, Asked(Lines(stdin)), k, printed)
    else exit == Ending(Lines(stdin)) && printed == Answers(text, Asked(Lines(stdin)))
  }

  lemma ServeFailed(text: seq<Byte>, stdin: seq<Byte>, rest: seq<Byte>, done: seq<seq<Byte>>, was: seq<Byte>,
                    printed: seq<Byte>)
    requires Serving(text, stdin, rest, done, was) && rest != []
    requires var q := rest[..FirstNewline(rest)];
      |q| <= QUERY_LIMIT && q != EXIT_WORD && Within(was, Answer(text, q), printed)
    ensures Over(text, stdin, printed, Failed)
  {
    var asked := Asked(Lines(stdin));
    assert asked[..|done|] == done && asked[|done|] == rest[..FirstNewline(rest)];
    assert FailedAt(text, asked, |done|, printed);
  }

  /** The session goes on, or is over. */
  datatype Turn = Again | Stop(exit: Exit)

  /** The reader, the output and the index share nothing. */
  ghost predicate AllApart(index: Index, reader: LineReader, out: OutBuf)
    reads index.lexicon
  {
    var input: set<object> := {reader, reader.file, reader.buf};
    input !! {out, out.buf} && input !! {index.lexicon, index.lexicon.slots}
  }

  /** Read one query, answer it and flush. */
  method ServeOne(index: Index, reader: LineReader, out: OutBuf, ghost stdin: seq<Byte>, ghost done: seq<seq<Byte>>)
    returns (turn: Turn, ghost now: seq<seq<Byte>>)
    requires Ready(index, out) && reader.Valid() && AllApart(index, reader, out) && out.file == out.Contents()
    requires Serving(index.input, stdin, reader.Rest(), done, out.Contents())
    modifies reader, reader.file, reader.buf, index.lexicon`entries, out, out.buf, index.io
    ensures Ready(index, out) && reader.Valid() && out.file == out.Contents()
    ensures turn == Again ==> Serving(index.input, stdin, reader.Rest(), now, out.Contents())
    ensures turn == Again ==> |reader.Rest()| < |old(reader.Rest())|
    ensures turn.Stop? ==> Over(index.input, stdin, out.Contents(), turn.exit)
    ensures turn == Stop(Failed) <==> index.io.cuts != old(index.io.cuts)
    ensures index.io.Aligned() ==> turn != Stop(Failed)
  {
    hide Index.Valid, Reads.Aligned, Serving, Over, Answer, Lines, FirstNewline, LineExtent;
    hide LineReader.Valid, LineReader.Rest, OneByteNext, PatternOfText, Within;
    ghost var rest, was := reader.Rest(), out.Contents();
    now := done;
    var more, query, hadNewline := reader.ReadLine();
    if !more {
      ServeEnd(index.input, stdin, rest, done, was, Finished);
      return Stop(Finished), now;
    }
    if |query| > QUERY_LIMIT {
      ServeEnd(index.input, stdin, rest, done, was, TooLong);
      return Stop(TooLong), now;
    }
    if query == EXIT_WORD {
      ServeEnd(index.input, stdin, rest, done, was, Finished);
      return Stop(Finished), now;
    }
    var ok := HandleQuery(index, query, out);
    out.Flush();
    if !ok {
      ServeFailed(index.input, stdin, rest, done, was, out.Contents());
      return Stop(Failed), now;
    }
    ServeStep(index.input, stdin, rest, done, was);
    return Again, done + [query];
  }

  method OpenSession(stdin: seq<Byte>) returns (reader: LineReader, out: OutBuf)
    ensures reader.Valid() && reader.Rest() == stdin && out.Valid() && out.Contents() == [] == out.file
    ensures fresh(reader) && fresh(reader.file) && fresh(reader.buf) && fresh(out) && fresh(out.buf)
    ensures reader.buf as object != out.buf
  {
    var file := new FileHandle(stdin);
    reader := new LineReader(file);
    out := new OutBuf();
  }

  /** Read queries line by line, answer each and flush. The session fails exactly when a
      cursor read ends inside a cell. */
  method Serve(index: Index, stdin: seq<Byte>) returns (exit: Exit, stdout: seq<Byte>)
    requires index.Valid()
    modifies index.lexicon`entries, index.io
    ensures index.Valid()
    ensures Over(index.input, stdin, stdout, exit)
    ensures exit == Failed <==> index.io.cuts != old(index.io.cuts)
    ensures index.io.Aligned() ==> exit != Failed
  {
    hide Index.Valid, Reads.Aligned, Serving, Over, LineReader.Valid, LineReader.Rest;
    var reader, out := OpenSession(stdin);
    ghost var done: seq<seq<Byte>> := [];
    ServeStart(index.input, stdin);
    while true
      invariant reader.Valid() && Ready(index, out) && AllApart(index, reader, out) && out.file == out.Contents()
      invariant Serving(index.input, stdin, reader.Rest(), done, out.Contents())
      invariant index.io.cuts == old(index.io.cuts)
      decreases |reader.Rest()|
    {
      var turn;
      turn, done := ServeOne(index, reader, out, stdin, done);
      if turn.Stop? {
        return turn.exit, out.file;
      }
    }
  }

  /** The program: index the text, then answer the queries. However the reads arrive, it
      prints the naive answers, and it stops with an error exactly when a cursor read ends
      inside a cell: after the answers of the queries before and a front part of that one. */
  method Search(input: seq<Byte>, stdin: seq<Byte>, io: Reads) returns (exit: Exit, stdout: seq<Byte>)
    requires TextFits(input)
    modifies io
    ensures exit != Failed ==> exit == Ending(Lines(stdin)) && stdout == Answers(input, Asked(Lines(stdin)))
    ensures exit == Failed ==> exists k: nat :: FailedAt(input, Asked(Lines(stdin)), k, stdout)
    ensures exit == Failed <==> io.cuts != old(io.cuts)
    ensures io.Aligned() ==> exit != Failed
  {
    hide Index.Valid, Reads.Aligned, TextFits, Answers, Asked, Ending, Lines, FailedAt;
    var index := BuildIndex(input, io);
    exit, stdout := Serve(index, stdin);
  }

  // ------------------------------------------------ a short read that fails

  lemma OneLetterText()
    ensures Lines([97]) == [[97]] && TextOccs([[97]]) == [Occ([97], 1, 0)]
  {
    assert FirstNewline([97]) == 1 && LineExtent([97]) == 1;
    assert [97][..1] == [97] && [97][1..] == [];
    assert Tokens([97]) == [Token(0, 1)] by {
      assert SkipSeps([97], 0) == 0 && SkipWord([97], 0) == 1;
    }
    assert WordAt([97], Token(0, 1)) == [97];
    assert TextOccs([[97]]) == TextOccs([]) + OccsFrom([97], 1, 0);
  }

  lemma OneLetterFits()
    ensures TextFits([97])
  {
    OneLetterText();
    assert TextOccs([[97]])[0] in TextOccs([[97]]);
    assert Vocabulary([[97]]) == {[97]};
  }

  lemma OneLetterPattern()
    ensures PatternOfText([97], [97, STAR, 97])
  {
    OneLetterText();
    var query: seq<Byte> := [97, STAR, 97];
    IndexOfUnique(query, STAR, 1);
    assert query[..1] == [97] == query[2..] && Lower([97]) == [97];
    assert TextOccs([[97]])[0] in TextOccs([[97]]);
  }

  /** Over the text `a`, the query `a*a` fails when every cursor read brings one byte. */
  method ShortReadFails() returns (ok: bool)
    ensures !ok
  {
    hide Index.Valid, TextFits, PatternOfText, Outcome, Answer;
    OneLetterFits();
    OneLetterPattern();
    var io := new Reads((k, cell) => 1);
    var index := BuildIndex([97], io);
    var out := new OutBuf();
    ok := HandleQuery(index, [97, STAR, 97], out);
  }
}
