/** What a text is to the search engine: newline-split lines and, in a line, the
    maximal runs of non-separator bytes. */
module Text {
  import opened Bytes

  // ---------------------------------------------------------------- lines

  /** The index of the first `c`, or the length if there is none. */
  function IndexOf(s: seq<Byte>, c: Byte): (k: nat)
    ensures k <= |s|
    ensures k < |s| ==> s[k] == c
    ensures c !in s[..k]
  {
    if s == [] || s[0] == c then 0
    else
      var k := IndexOf(s[1..], c);
      assert s[..k + 1] == [s[0]] + s[1..][..k];
      k + 1
  }

  function FirstNewline(s: seq<Byte>): nat {
    IndexOf(s, NEWLINE)
  }

  predicate ByteIs(s: seq<Byte>, i: int, c: Byte) {
    0 <= i < |s| && s[i] == c
  }

  lemma IndexOfUnique(s: seq<Byte>, c: Byte, k: nat)
    requires k <= |s| && c !in s[..k]
    requires k < |s| ==> s[k] == c
    ensures IndexOf(s, c) == k
  {
    var j := IndexOf(s, c);
    assert ByteIs(s[..k], j, c) || k <= j;
    assert ByteIs(s[..j], k, c) || j <= k;
  }

  /** The bytes the first line of `s` occupies, its newline included. */
  function LineExtent(s: seq<Byte>): (n: nat)
    requires s != []
    ensures 0 < n <= |s|
  {
    var k := FirstNewline(s);
    if k < |s| then k + 1 else k
  }

  function Lines(s: seq<Byte>): seq<seq<Byte>> {
    if s == [] then [] else [s[..FirstNewline(s)]] + Lines(s[LineExtent(s)..])
  }

  function Unlines(lines: seq<seq<Byte>>): seq<Byte> {
    if lines == [] then [] else lines[0] + [NEWLINE] + Unlines(lines[1..])
  }

  /** Splitting loses nothing: ending every line gives the text back, plus the one
      newline a text without a final newline lacks; and no line holds a newline. */
  lemma {:induction false} LinesRejoin(s: seq<Byte>)
    ensures Unlines(Lines(s)) == s + if s == [] || s[|s| - 1] == NEWLINE then [] else [NEWLINE]
    ensures forall line :: line in Lines(s) ==> NEWLINE !in line
  {
    if s != [] {
      var n := LineExtent(s);
      LinesRejoin(s[n..]);
      UnlinesCons(s[..FirstNewline(s)], Lines(s[n..]));
      FirstLineRejoins(s, s[n..], if s[n..] == [] || s[n..][|s[n..]| - 1] == NEWLINE then [] else [NEWLINE]);
    }
  }

  lemma FirstLineRejoins(s: seq<Byte>, rest: seq<Byte>, tail: seq<Byte>)
    requires s != [] && rest == s[LineExtent(s)..]
    requires tail == if rest == [] || rest[|rest| - 1] == NEWLINE then [] else [NEWLINE]
    ensures s[..FirstNewline(s)] + [NEWLINE] + (rest + tail) ==
      s + if s[|s| - 1] == NEWLINE then [] else [NEWLINE]
  {
    var k := FirstNewline(s);
    if k < |s| {
      assert s == s[..k] + [NEWLINE] + rest;
    } else {
      assert s[..k] == s;
      assert ByteIs(s[..k], |s| - 1, NEWLINE) || s[|s| - 1] != NEWLINE;
    }
  }

  lemma UnlinesCons(line: seq<Byte>, lines: seq<seq<Byte>>)
    ensures Unlines([line] + lines) == line + [NEWLINE] + Unlines(lines)
  {
    assert ([line] + lines)[1..] == lines;
  }

  // ---------------------------------------------------------------- tokens

  /** A run of non-separators at `start <= i < end`. */
  datatype Token = Token(start: nat, end: nat)

  function SkipSeps(s: seq<Byte>, pos: nat): (p: nat)
    requires pos <= |s|
    ensures pos <= p <= |s|
    ensures p < |s| ==> !IsWordSep(s[p])
    ensures forall i :: pos <= i < p ==> IsWordSep(s[i])
    decreases |s| - pos
  {
    if pos < |s| && IsWordSep(s[pos]) then SkipSeps(s, pos + 1) else pos
  }

  function SkipWord(s: seq<Byte>, pos: nat): (p: nat)
    requires pos <= |s|
    ensures pos <= p <= |s|
    ensures p < |s| ==> IsWordSep(s[p])
    ensures forall i :: pos <= i < p ==> !IsWordSep(s[i])
    decreases |s| - pos
  {
    if pos < |s| && !IsWordSep(s[pos]) then SkipWord(s, pos + 1) else pos
  }

  /** The tokens of `s` from `pos` on, in order. */
  function TokensFrom(s: seq<Byte>, pos: nat): seq<Token>
    requires pos <= |s|
    decreases |s| - pos
  {
    var start := SkipSeps(s, pos);
    if start == |s| then []
    else
      var end := SkipWord(s, start);
      [Token(start, end)] + TokensFrom(s, end)
  }

  function Tokens(s: seq<Byte>): seq<Token> {
    TokensFrom(s, 0)
  }

  /** A maximal run of non-separators, stated without any scan. */
  ghost predicate IsWordRun(s: seq<Byte>, t: Token) {
    && t.start < t.end <= |s|
    && (forall i :: t.start <= i < t.end ==> !IsWordSep(s[i]))
    && (t.start == 0 || IsWordSep(s[t.start - 1]))
    && (t.end == |s| || IsWordSep(s[t.end]))
  }

  predicate SepAt(s: seq<Byte>, i: int) {
    0 <= i < |s| && IsWordSep(s[i])
  }

  /** A position no word straddles. */
  predicate IsBoundary(s: seq<Byte>, pos: nat)
    requires pos <= |s|
  {
    pos == 0 || pos == |s| || IsWordSep(s[pos]) || IsWordSep(s[pos - 1])
  }

  /** The tokens from a boundary are exactly the maximal runs that start there or later. */
  lemma {:induction false} TokensFromAreRuns(s: seq<Byte>, pos: nat)
    requires pos <= |s| && IsBoundary(s, pos)
    ensures forall t :: t in TokensFrom(s, pos) <==> IsWordRun(s, t) && pos <= t.start
    ensures forall i, j :: 0 <= i < j < |TokensFrom(s, pos)| ==>
      TokensFrom(s, pos)[i].end <= TokensFrom(s, pos)[j].start
    decreases |s| - pos
  {
    var start := SkipSeps(s, pos);
    if start < |s| {
      var end := SkipWord(s, start);
      TokensFromAreRuns(s, end);
      var first := Token(start, end);
      var rest := TokensFrom(s, end);
      assert TokensFrom(s, pos) == [first] + rest;
      forall t ensures t in TokensFrom(s, pos) <==> IsWordRun(s, t) && pos <= t.start {
        if IsWordRun(s, t) && pos <= t.start && t.start < end {
          RunIsFirst(s, pos, t);
        }
      }
      forall j | 0 <= j < |rest| ensures end <= rest[j].start {
        assert rest[j] in rest;
      }
    } else {
      forall t ensures !(IsWordRun(s, t) && pos <= t.start) {
        assert SepAt(s, t.start) || t.start < pos || |s| <= t.start;
      }
    }
  }

  lemma RunIsFirst(s: seq<Byte>, pos: nat, t: Token)
    requires pos <= |s| && IsWordRun(s, t) && pos <= t.start < SkipWord(s, SkipSeps(s, pos))
    ensures t == Token(SkipSeps(s, pos), SkipWord(s, SkipSeps(s, pos)))
  {
    var start := SkipSeps(s, pos);
    var end := SkipWord(s, start);
    assert SepAt(s, t.start) || start <= t.start;
    assert !SepAt(s, t.start - 1) || t.start <= start;
    assert !SepAt(s, t.end) || end <= t.end;
    assert !SepAt(s, end) || t.end <= end;
  }

  lemma TokensAreRuns(s: seq<Byte>)
    ensures forall t :: t in Tokens(s) <==> IsWordRun(s, t)
    ensures forall i, j :: 0 <= i < j < |Tokens(s)| ==> Tokens(s)[i].end <= Tokens(s)[j].start
  {
    TokensFromAreRuns(s, 0);
  }

  lemma SkipOneSep(s: seq<Byte>, pos: nat)
    requires pos < |s| && IsWordSep(s[pos])
    ensures TokensFrom(s, pos) == TokensFrom(s, pos + 1)
  {
    assert SkipSeps(s, pos) == SkipSeps(s, pos + 1);
  }

  lemma CountStep(s: seq<Byte>, pos: nat)
    requires pos <= |s|
    ensures var start := SkipSeps(s, pos);
      if start == |s| then TokensFrom(s, pos) == []
      else
        && start < SkipWord(s, start)
        && |TokensFrom(s, pos)| == 1 + |TokensFrom(s, SkipWord(s, start))|
        && (SkipWord(s, start) == |s| ==> TokensFrom(s, SkipWord(s, start)) == [])
  {
  }

  /** `n` bytes hold at most `(n + 1) / 2` words. */
  lemma {:induction false} TokenCount(s: seq<Byte>, pos: nat)
    requires pos <= |s|
    ensures 2 * |TokensFrom(s, pos)| <= |s| - pos + 1
    decreases |s| - pos
  {
    hide TokensFrom, SkipSeps, SkipWord;
    CountStep(s, pos);
    var start := SkipSeps(s, pos);
    if start < |s| && SkipWord(s, start) < |s| {
      SkipOneSep(s, SkipWord(s, start));
      TokenCount(s, SkipWord(s, start) + 1);
    }
  }

  /** The folded word a token spells. */
  function WordAt(s: seq<Byte>, t: Token): seq<Byte>
    requires t.start <= t.end <= |s|
  {
    Lower(s[t.start..t.end])
  }

  method FindSepsEnd(s: seq<Byte>, pos: nat) returns (p: nat)
    requires pos <= |s|
    ensures p == SkipSeps(s, pos)
  {
    p := pos;
    while p < |s| && IsWordSep(s[p])
      invariant pos <= p <= |s| && SkipSeps(s, p) == SkipSeps(s, pos)
    {
      p := p + 1;
    }
  }

  method FindWordEnd(s: seq<Byte>, pos: nat) returns (p: nat)
    requires pos <= |s|
    ensures p == SkipWord(s, pos)
  {
    p := pos;
    while p < |s| && !IsWordSep(s[p])
      invariant pos <= p <= |s| && SkipWord(s, p) == SkipWord(s, pos)
    {
      p := p + 1;
    }
  }
}
