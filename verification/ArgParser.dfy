/** The shell's in-place tokenizer (week7/w7.c:355-446) and operator check
    (week7/w7.c:262-277). */
module ArgParser {

  const MAX_ARGS := 100
  const NUL: char := '\0'

  // ------------------------------------------------ tokens

  predicate IsOperator(c: char) {
    c == '<' || c == '>' || c == '|'
  }

  predicate IsPlain(c: char) {
    c != ' ' && !IsOperator(c) && c != NUL
  }

  /** The longest operator at the front of `s`. */
  function Operator(s: string): (op: string)
    requires s != [] && IsOperator(s[0])
    ensures 1 <= |op| <= |s| && s[..|op|] == op
  {
    if s[0] == '>' && 1 < |s| && s[1] == '>' then ">>" else [s[0]]
  }

  /** The length of the run of plain characters at the front of `s`. */
  function WordLength(s: string): (n: nat)
    ensures n <= |s|
    ensures forall i :: 0 <= i < n ==> IsPlain(s[i])
    ensures n < |s| ==> !IsPlain(s[n])
  {
    if s == [] || !IsPlain(s[0]) then 0 else 1 + WordLength(s[1..])
  }

  /** The tokens of a line: operators and maximal words, blanks dropped. */
  function Tokens(s: string): seq<string>
    decreases |s|
  {
    if s == [] then []
    else if IsOperator(s[0]) then [Operator(s)] + Tokens(s[|Operator(s)|..])
    else if IsPlain(s[0]) then [s[..WordLength(s)]] + Tokens(s[WordLength(s)..])
    else Tokens(s[1..])
  }

  /** What a token can be. */
  ghost predicate IsToken(t: string) {
    || t == "<" || t == ">" || t == ">>" || t == "|"
    || (t != [] && forall i :: 0 <= i < |t| ==> IsPlain(t[i]))
  }

  lemma {:induction false} TokensAreTokens(s: string)
    ensures forall t :: t in Tokens(s) ==> IsToken(t)
    decreases |s|
  {
    if s == [] {
    } else if IsOperator(s[0]) {
      TokensAreTokens(s[|Operator(s)|..]);
    } else if IsPlain(s[0]) {
      TokensAreTokens(s[WordLength(s)..]);
    } else {
      TokensAreTokens(s[1..]);
    }
  }

  /** Tokens set apart by single spaces. */
  function Joined(ts: seq<string>): string {
    if ts == [] then [] else ts[0] + " " + Joined(ts[1..])
  }

  predicate PlainAt(s: string, i: nat) {
    i < |s| && IsPlain(s[i])
  }

  lemma WordLengthIs(s: string, n: nat)
    requires n <= |s| && (forall i :: 0 <= i < n ==> IsPlain(s[i])) && (n == |s| || !IsPlain(s[n]))
    ensures WordLength(s) == n
  {
    assert PlainAt(s, WordLength(s)) || n <= WordLength(s);
  }

  lemma TokenFirst(t: string, rest: string)
    requires IsToken(t)
    ensures Tokens(t + " " + rest) == [t] + Tokens(rest)
  {
    var s := t + " " + rest;
    assert s[..|t|] == t && s[|t|..] == " " + rest && (" " + rest)[1..] == rest;
    assert Tokens(" " + rest) == Tokens(rest);
    if IsOperator(t[0]) {
      assert Operator(s) == t;
    } else {
      WordLengthIs(s, |t|);
    }
  }

  lemma {:induction false} JoinedTokens(ts: seq<string>)
    requires forall t :: t in ts ==> IsToken(t)
    ensures Tokens(Joined(ts)) == ts
  {
    if ts != [] {
      JoinedTokens(ts[1..]);
      TokenFirst(ts[0], Joined(ts[1..]));
    }
  }

  /** Joining the tokens of a line with spaces and splitting again gives the same tokens. */
  lemma Retokenize(line: string)
    ensures Tokens(Joined(Tokens(line))) == Tokens(line)
  {
    TokensAreTokens(line);
    JoinedTokens(Tokens(line));
  }

  /** A word ends at a blank, an operator or the end of the line. */
  predicate EndsWord(rest: string) {
    rest == "" || rest[0] == ' ' || rest[0] == '<' || rest[0] == '>' || rest[0] == '|'
  }

  /** A word is one token, as long as it goes. */
  lemma WordIsOneToken(w: string, rest: string)
    requires w != "" && forall i :: 0 <= i < |w| ==> w[i] != NUL && !EndsWord(w[i..])
    requires EndsWord(rest)
    ensures Tokens(w + rest) == [w] + Tokens(rest)
  {
    var s := w + rest;
    assert s[..|w|] == w && s[|w|..] == rest;
    forall i | 0 <= i < |w| ensures IsPlain(s[i]) {
      assert w[i..][0] == s[i];
    }
    WordLengthIs(s, |w|);
  }

  /** Blanks are dropped, and each operator is one token, `>>` before `>`. With the law for
      words this settles the tokens of every line without NUL. */
  lemma OperatorsAreTokens(rest: string)
    ensures Tokens("") == [] && Tokens(" " + rest) == Tokens(rest)
    ensures Tokens("<" + rest) == ["<"] + Tokens(rest) && Tokens("|" + rest) == ["|"] + Tokens(rest)
    ensures Tokens(">>" + rest) == [">>"] + Tokens(rest)
    ensures rest == "" || rest[0] != '>' ==> Tokens(">" + rest) == [">"] + Tokens(rest)
  {
    OperatorFront("<", rest);
    OperatorFront("|", rest);
    OperatorFront(">>", rest);
    if rest == "" || rest[0] != '>' {
      OperatorFront(">", rest);
    }
    assert (" " + rest)[1..] == rest;
  }

  lemma OperatorFront(op: string, rest: string)
    requires op == "<" || op == "|" || op == ">>" || (op == ">" && (rest == "" || rest[0] != '>'))
    ensures Tokens(op + rest) == [op] + Tokens(rest)
  {
    var s := op + rest;
    assert s[|op|..] == rest && Operator(s) == op;
  }

  // ------------------------------------------------ argument vectors

  /** An entry of `args`: an offset into the buffer, a literal, or the terminating null. */
  datatype Arg = At(start: nat) | Literal(text: string) | Null

  /** The text of the C string at `start`. */
  function CString(cells: seq<char>, start: nat): string
    decreases |cells| - start
  {
    if start >= |cells| || cells[start] == NUL then [] else [cells[start]] + CString(cells, start + 1)
  }

  function ArgText(cells: seq<char>, a: Arg): string {
    match a
    case At(start) => CString(cells, start)
    case Literal(text) => text
    case Null => []
  }

  /** The argument is `t`, and its terminated text lies below `upto`. */
  ghost predicate ArgIs(cells: seq<char>, a: Arg, t: string, upto: nat) {
    match a
    case At(start) =>
      && start + |t| < upto <= |cells| && cells[start..start + |t|] == t
      && cells[start + |t|] == NUL && NUL !in t
    case Literal(text) => text == t
    case Null => false
  }

  lemma {:induction false} CStringIs(cells: seq<char>, start: nat, t: string)
    requires start + |t| < |cells| && cells[start..start + |t|] == t && cells[start + |t|] == NUL && NUL !in t
    ensures CString(cells, start) == t
    decreases |t|
  {
    if t != [] {
      assert cells[start] == t[0] && t[0] in t;
      assert cells[start + 1..start + 1 + |t[1..]|] == t[1..];
      CStringIs(cells, start + 1, t[1..]);
    }
  }

  lemma ArgTextIs(cells: seq<char>, a: Arg, t: string, upto: nat)
    requires ArgIs(cells, a, t, upto)
    ensures ArgText(cells, a) == t
  {
    if a.At? {
      CStringIs(cells, a.start, t);
    }
  }

  ghost predicate ArgsAre(cells: seq<char>, args: seq<Arg>, done: seq<string>, upto: nat) {
    && |done| <= |args|
    && (forall k {:trigger args[k]} {:trigger done[k]} :: 0 <= k < |done| ==> ArgIs(cells, args[k], done[k], upto))
  }

  lemma SameBelow(cells: seq<char>, more: seq<char>, upto: nat, lo: nat, hi: nat)
    requires lo <= hi < upto <= |cells| == |more| && more[..upto] == cells[..upto]
    ensures more[lo..hi] == cells[lo..hi] && more[hi] == cells[hi]
  {
    assert forall i :: 0 <= i < upto ==> more[..upto][i] == more[i] && cells[..upto][i] == cells[i];
  }

  /** Writing at or above `upto` disturbs no finished argument. */
  lemma ArgsStay(cells: seq<char>, more: seq<char>, args: seq<Arg>, done: seq<string>, upto: nat, now: nat)
    requires ArgsAre(cells, args, done, upto) && |more| == |cells| && upto <= now <= |more|
      && more[..upto] == cells[..upto]
    ensures ArgsAre(more, args, done, now)
  {
    forall k | 0 <= k < |done| ensures ArgIs(more, args[k], done[k], now) {
      if args[k].At? {
        assert ArgIs(cells, args[k], done[k], upto);
        SameBelow(cells, more, upto, args[k].start, args[k].start + |done[k]|);
      }
    }
  }

  lemma ArgsGrow(cells: seq<char>, args: seq<Arg>, done: seq<string>, upto: nat, a: Arg, t: string)
    requires ArgsAre(cells, args, done, upto) && |done| < |args| && ArgIs(cells, a, t, upto)
    ensures ArgsAre(cells, args[|done| := a], done + [t], upto)
  {
  }

  /** Mid-scan: everything before the cursor is done, everything after it is as it was. */
  ghost predicate Scanning(line: string, cells: seq<char>, args: seq<Arg>, done: seq<string>, c: nat) {
    && |cells| == |line| + 1 && c <= |line| && NUL !in line
    && cells[c..] == line[c..] + [NUL]
    && done + Tokens(line[c..]) == Tokens(line)
    && ArgsAre(cells, args, done, c)
  }

  lemma RestFrom(line: string, cells: seq<char>, c: nat, n: nat)
    requires |cells| == |line| + 1 && c + n <= |line| && cells[c..] == line[c..] + [NUL]
    ensures cells[c + n..] == line[c + n..] + [NUL] && line[c..][n..] == line[c + n..]
    ensures cells[c + n] == if c + n < |line| then line[c + n] else NUL
  {
    assert cells[c + n..] == cells[c..][n..];
    assert cells[c + n] == cells[c..][n];
  }

  lemma ScanStart(line: string, cells: seq<char>, args: seq<Arg>)
    requires cells == line + [NUL] && NUL !in line
    ensures Scanning(line, cells, args, [], 0)
  {
    assert line[0..] == line && cells[0..] == cells && [] + Tokens(line) == Tokens(line);
  }

  /** A blank is overwritten and skipped. */
  lemma ScanBlank(line: string, cells: seq<char>, args: seq<Arg>, done: seq<string>, c: nat)
    requires Scanning(line, cells, args, done, c) && c < |line| && line[c] == ' '
    ensures Scanning(line, cells[c := NUL], args, done, c + 1)
  {
    RestFrom(line, cells, c, 1);
    assert cells[c := NUL][c + 1..] == cells[c + 1..];
    ArgsStay(cells, cells[c := NUL], args, done, c, c + 1);
    assert Tokens(line[c..]) == Tokens(line[c..][1..]);
  }

  /** An operator becomes a literal argument. */
  lemma ScanOperator(line: string, cells: seq<char>, args: seq<Arg>, done: seq<string>, c: nat)
    requires Scanning(line, cells, args, done, c) && c < |line| && IsOperator(line[c]) && |done| < |args|
    ensures var op := Operator(line[c..]);
      && c + |op| <= |line|
      && Scanning(line, cells, args[|done| := Literal(op)], done + [op], c + |op|)
  {
    var op := Operator(line[c..]);
    RestFrom(line, cells, c, |op|);
    ArgsStay(cells, cells, args, done, c, c + |op|);
    ArgsGrow(cells, args, done, c + |op|, Literal(op), op);
    assert done + ([op] + Tokens(line[c + |op|..])) == done + [op] + Tokens(line[c + |op|..]);
  }

  lemma WordArg(line: string, cells: seq<char>, c: nat, e: nat)
    requires |cells| == |line| + 1 && c <= e <= |line| && cells[c..] == line[c..] + [NUL] && NUL !in line
    ensures ArgIs(cells[e := NUL], At(c), line[c..e], e + 1)
  {
    assert forall i :: c <= i < e ==> cells[i] == cells[c..][i - c];
    assert cells[e := NUL][c..e] == line[c..e];
    assert forall x :: x in line[c..e] ==> x in line;
  }

  lemma TokensOfWord(line: string, c: nat)
    requires c < |line| && IsPlain(line[c])
    ensures var e := c + WordLength(line[c..]);
      c < e <= |line| && Tokens(line[c..]) == [line[c..e]] + Tokens(line[e..])
  {
    var n := WordLength(line[c..]);
    assert line[c..][..n] == line[c..c + n] && line[c..][n..] == line[c + n..];
  }

  lemma KeepBelow(cells: seq<char>, e: nat, c: nat)
    requires c <= e < |cells|
    ensures cells[e := NUL][..c] == cells[..c]
  {
  }

  /** A word ends in a cell that is, or is made, NUL. */
  lemma ScanWord(line: string, cells: seq<char>, args: seq<Arg>, done: seq<string>, c: nat, e: nat)
    requires Scanning(line, cells, args, done, c) && |done| < |args| && c < e <= |line|
    requires Tokens(line[c..]) == [line[c..e]] + Tokens(line[e..])
    ensures ArgsAre(cells[e := NUL], args[|done| := At(c)], done + [line[c..e]], e + 1)
    ensures done + [line[c..e]] + Tokens(line[e..]) == Tokens(line)
    ensures cells[e..] == line[e..] + [NUL]
  {
    hide Tokens, ArgsAre, ArgIs;
    WordRest(line, cells, c, e);
    WordArgs(line, cells, args, done, c, e);
    Regroup(done, line[c..e], Tokens(line[e..]));
  }

  lemma WordArgs(line: string, cells: seq<char>, args: seq<Arg>, done: seq<string>, c: nat, e: nat)
    requires |cells| == |line| + 1 && c < e <= |line| && NUL !in line && cells[c..] == line[c..] + [NUL]
    requires ArgsAre(cells, args, done, c) && |done| < |args|
    ensures ArgsAre(cells[e := NUL], args[|done| := At(c)], done + [line[c..e]], e + 1)
  {
    hide ArgsAre, ArgIs;
    KeepBelow(cells, e, c);
    WordArg(line, cells, c, e);
    ArgsStay(cells, cells[e := NUL], args, done, c, e + 1);
    ArgsGrow(cells[e := NUL], args, done, e + 1, At(c), line[c..e]);
  }

  lemma WordRest(line: string, cells: seq<char>, c: nat, e: nat)
    requires |cells| == |line| + 1 && c <= e <= |line| && cells[c..] == line[c..] + [NUL]
    ensures cells[e..] == line[e..] + [NUL]
  {
    RestFrom(line, cells, c, e - c);
  }

  lemma Regroup(done: seq<string>, t: string, rest: seq<string>)
    ensures done + ([t] + rest) == done + [t] + rest
  {
  }

  lemma TokensAtBlank(s: string)
    requires s != [] && s[0] == ' '
    ensures Tokens(s) == Tokens(s[1..])
  {
  }

  lemma TokensAtOperator(s: string)
    requires s != [] && IsOperator(s[0])
    ensures |Operator(s)| <= |s| && Tokens(s) == [Operator(s)] + Tokens(s[|Operator(s)|..])
  {
  }

  /** After a word comes a blank. */
  lemma AfterBlank(line: string, cells: seq<char>, args: seq<Arg>, done: seq<string>, e: nat)
    requires e < |line| && |cells| == |line| + 1 && NUL !in line && cells[e..] == line[e..] + [NUL]
    requires ArgsAre(cells[e := NUL], args, done, e + 1) && done + Tokens(line[e..]) == Tokens(line)
    requires line[e] == ' '
    ensures Scanning(line, cells[e := NUL], args, done, e + 1)
  {
    hide Tokens, ArgsAre;
    TokensAtBlank(line[e..]);
    RestFrom(line, cells, e, 1);
    assert cells[e := NUL][e + 1..] == cells[e + 1..];
  }

  /** After a word comes an operator. */
  lemma AfterOperator(line: string, cells: seq<char>, args: seq<Arg>, done: seq<string>, e: nat)
    requires e < |line| && |cells| == |line| + 1 && NUL !in line && cells[e..] == line[e..] + [NUL]
    requires ArgsAre(cells[e := NUL], args, done, e + 1) && done + Tokens(line[e..]) == Tokens(line)
    requires IsOperator(line[e]) && |done| < |args|
    ensures var op := Operator(line[e..]);
      e + |op| <= |line| && Scanning(line, cells[e := NUL], args[|done| := Literal(op)], done + [op], e + |op|)
  {
    hide Tokens, ArgsAre, IsOperator;
    var now, op := cells[e := NUL], Operator(line[e..]);
    TokensAtOperator(line[e..]);
    RestFrom(line, cells, e, |op|);
    assert now[e + |op|..] == cells[e + |op|..];
    ArgsStay(now, now, args, done, e + 1, e + |op|);
    ArgsGrow(now, args, done, e + |op|, Literal(op), op);
    assert done + ([op] + Tokens(line[e + |op|..])) == done + [op] + Tokens(line[e + |op|..]);
  }

  // ------------------------------------------------ the tokenizer

  method SetCell(cmd: array<char>, at: nat)
    requires at < cmd.Length
    modifies cmd
    ensures cmd[..] == old(cmd[..])[at := NUL]
  {
    cmd[at] := NUL;
  }

  method SetArg(args: array<Arg>, at: nat, a: Arg)
    requires at < args.Length
    modifies args
    ensures args[..] == old(args[..])[at := a]
  {
    args[at] := a;
  }

  lemma CellAt(line: string, cells: seq<char>, args: seq<Arg>, done: seq<string>, c: nat)
    requires Scanning(line, cells, args, done, c)
    ensures |cells| == |line| + 1 && c <= |line| && |done| <= |args|
    ensures cells[c] == (if c < |line| then line[c] else NUL)
    ensures c < |line| ==> line[c] != NUL
  {
    RestFrom(line, cells, c, 0);
    assert c < |line| ==> line[c] in line;
  }

  /** Overwrite the blanks at the cursor. */
  method SkipBlanks(cmd: array<char>, from: nat, ghost line: string, ghost args: seq<Arg>, ghost done: seq<string>)
    returns (c: nat)
    requires Scanning(line, cmd[..], args, done, from)
    modifies cmd
    ensures from <= c && Scanning(line, cmd[..], args, done, c) && c < cmd.Length && cmd[c] != ' '
  {
    hide Scanning;
    c := from;
    CellAt(line, cmd[..], args, done, c);
    while cmd[c] == ' '
      invariant from <= c < cmd.Length == |line| + 1 && Scanning(line, cmd[..], args, done, c)
      decreases cmd.Length - c
    {
      CellAt(line, cmd[..], args, done, c);
      ScanBlank(line, cmd[..], args, done, c);
      SetCell(cmd, c);
      c := c + 1;
      CellAt(line, cmd[..], args, done, c);
    }
  }

  /** The operator at the cursor. */
  method ReadOperator(cmd: array<char>, c: nat, ghost line: string) returns (op: string)
    requires c < |line| && cmd.Length == |line| + 1 && cmd[..][c..] == line[c..] + [NUL] && IsOperator(line[c])
    ensures op == Operator(line[c..])
  {
    RestFrom(line, cmd[..], c, 0);
    RestFrom(line, cmd[..], c, 1);
    if cmd[c] == '<' {
      return "<";
    }
    if cmd[c] == '|' {
      return "|";
    }
    if cmd[c + 1] == '>' {
      return ">>";
    }
    return ">";
  }

  /** The end of the word at the cursor. */
  method FindWordEnd(cmd: array<char>, c: nat, ghost line: string) returns (e: nat)
    requires c <= |line| && cmd.Length == |line| + 1 && cmd[..][c..] == line[c..] + [NUL] && NUL !in line
    ensures e == c + WordLength(line[c..])
    ensures e <= |line| && cmd[e] == (if e < |line| then line[e] else NUL)
      && (e < |line| ==> line[e] == ' ' || IsOperator(line[e]))
  {
    e := c;
    RestFrom(line, cmd[..], c, 0);
    while cmd[e] != NUL && cmd[e] != ' ' && cmd[e] != '<' && cmd[e] != '>' && cmd[e] != '|'
      invariant c <= e <= |line| && cmd[e] == (if e < |line| then line[e] else NUL)
      invariant forall i :: c <= i < e ==> IsPlain(line[i])
      decreases |line| - e
    {
      e := e + 1;
      RestFrom(line, cmd[..], c, e - c);
    }
    assert e < |line| ==> line[e] in line;
    WordLengthIs(line[c..], e - c);
  }

  /** The arguments are the line's tokens, ended by a null. */
  ghost predicate Parsed(line: string, cells: seq<char>, args: seq<Arg>) {
    var ts := Tokens(line);
    && |ts| < |args| && args[|ts|] == Null
    && (forall k {:trigger args[k]} {:trigger ts[k]} :: 0 <= k < |ts| ==>
      args[k] != Null && ArgText(cells, args[k]) == ts[k])
  }

  lemma ParsedWhen(line: string, cells: seq<char>, args: seq<Arg>, done: seq<string>, upto: nat)
    requires ArgsAre(cells, args, done, upto) && done == Tokens(line) && |done| < |args|
    ensures Parsed(line, cells, args[|done| := Null])
  {
    forall k | 0 <= k < |done| ensures args[k] != Null && ArgText(cells, args[k]) == done[k] {
      ArgTextIs(cells, args[k], done[k], upto);
    }
  }

  /** How one round of the scan ends. */
  datatype Round = More | AtEnd | TooMany

  ghost predicate RoundOk(line: string, cells: seq<char>, args: seq<Arg>, done: seq<string>, i: nat, c: nat, r: Round) {
    match r
    case More => Scanning(line, cells, args, done, c) && i == |done| < MAX_ARGS
    case AtEnd => ArgsAre(cells, args, done, |cells|) && done == Tokens(line) && i == |done| < MAX_ARGS
    case TooMany => MAX_ARGS - 1 < |Tokens(line)|
  }

  /** A further token when the array has room for its null only. */
  lemma TokenBeyond(line: string, done: seq<string>, c: nat)
    requires c < |line| && line[c] != ' ' && line[c] != NUL && done + Tokens(line[c..]) == Tokens(line)
    ensures |done| < |Tokens(line)|
  {
    assert Tokens(line[c..]) != [];
  }

  lemma FreshOperator(line: string, cells: seq<char>, args: seq<Arg>, done: seq<string>, c: nat)
    requires Scanning(line, cells, args, done, c) && c < |line| && IsOperator(line[c]) && |done| < MAX_ARGS - 1 < |args|
    ensures var op := Operator(line[c..]);
      RoundOk(line, cells, args[|done| := Literal(op)], done + [op], |done| + 1, c + |op|, More)
  {
    ScanOperator(line, cells, args, done, c);
  }

  lemma WordAtEnd(line: string, cells: seq<char>, args: seq<Arg>, done: seq<string>)
    requires |cells| == |line| + 1 && cells[|line|] == NUL && |done| < MAX_ARGS
    requires ArgsAre(cells[|line| := NUL], args, done, |line| + 1) && done + Tokens(line[|line|..]) == Tokens(line)
    ensures RoundOk(line, cells, args, done, |done|, |line|, AtEnd)
  {
    assert cells[|line| := NUL] == cells;
    assert done + [] == done;
  }

  /** The word at the cursor, and the operator that ends it, if one does. */
  method TakeWord(cmd: array<char>, args: array<Arg>, i: nat, c: nat, ghost line: string, ghost done: seq<string>)
    returns (r: Round, j: nat, next: nat, ghost now: seq<string>)
    requires Scanning(line, cmd[..], args[..], done, c) && c < |line| && IsPlain(line[c])
    requires i == |done| < MAX_ARGS - 1 && args.Length == MAX_ARGS
    modifies cmd, args
    ensures RoundOk(line, cmd[..], args[..], now, j, next, r) && (r == More ==> c < next)
  {
    hide Tokens, ArgsAre, WordLength, RoundOk;
    var e := FindWordEnd(cmd, c, line);
    TokensOfWord(line, c);
    ScanWord(line, cmd[..], args[..], done, c, e);
    SetArg(args, i, At(c));
    now := done + [line[c..e]];
    j, next := i + 1, e;
    if cmd[e] == NUL {
      WordAtEnd(line, cmd[..], args[..], now);
      return AtEnd, j, next, now;
    }
    if cmd[e] == ' ' {
      AfterBlank(line, cmd[..], args[..], now, e);
      SetCell(cmd, e);
      MoreIs(line, cmd[..], args[..], now, e + 1);
      return More, j, e + 1, now;
    }
    if j >= MAX_ARGS - 1 {
      TokenBeyond(line, now, e);
      TooManyIs(line, cmd[..], args[..], now, j, e);
      return TooMany, j, next, now;
    }
    AfterOperator(line, cmd[..], args[..], now, e);
    var op := ReadOperator(cmd, e, line);
    SetCell(cmd, e);
    SetArg(args, j, Literal(op));
    now := now + [op];
    MoreIs(line, cmd[..], args[..], now, e + |op|);
    return More, j + 1, e + |op|, now;
  }

  lemma MoreIs(line: string, cells: seq<char>, args: seq<Arg>, done: seq<string>, c: nat)
    requires Scanning(line, cells, args, done, c) && |done| < MAX_ARGS
    ensures RoundOk(line, cells, args, done, |done|, c, More)
  {
  }

  lemma TooManyIs(line: string, cells: seq<char>, args: seq<Arg>, done: seq<string>, i: nat, c: nat)
    requires MAX_ARGS - 1 < |Tokens(line)|
    ensures RoundOk(line, cells, args, done, i, c, TooMany)
  {
  }

  /** One round: blanks, then an operator or a word. */
  method TakeNext(cmd: array<char>, args: array<Arg>, i: nat, c: nat, ghost line: string, ghost done: seq<string>)
    returns (r: Round, j: nat, next: nat, ghost now: seq<string>)
    requires Scanning(line, cmd[..], args[..], done, c) && i == |done| < MAX_ARGS == args.Length
    modifies cmd, args
    ensures RoundOk(line, cmd[..], args[..], now, j, next, r) && (r == More ==> c < next)
  {
    hide Tokens, RoundOk, Scanning;
    next := SkipBlanks(cmd, c, line, args[..], done);
    CellAt(line, cmd[..], args[..], done, next);
    j, now := i, done;
    if cmd[next] == NUL {
      EndIs(line, cmd[..], args[..], done);
      return AtEnd, j, next, now;
    }
    if i >= MAX_ARGS - 1 {
      ScanTokens(line, cmd[..], args[..], done, next);
      TokenBeyond(line, done, next);
      TooManyIs(line, cmd[..], args[..], now, j, next);
      return TooMany, j, next, now;
    }
    if cmd[next] == '<' || cmd[next] == '|' || cmd[next] == '>' {
      ScanTokens(line, cmd[..], args[..], done, next);
      FreshOperator(line, cmd[..], args[..], done, next);
      var op := ReadOperator(cmd, next, line);
      SetArg(args, i, Literal(op));
      return More, i + 1, next + |op|, done + [op];
    }
    r, j, next, now := TakeWord(cmd, args, i, next, line, done);
  }

  lemma ScanTokens(line: string, cells: seq<char>, args: seq<Arg>, done: seq<string>, c: nat)
    requires Scanning(line, cells, args, done, c)
    ensures c <= |line| && done + Tokens(line[c..]) == Tokens(line)
    ensures |cells| == |line| + 1 && cells[c..] == line[c..] + [NUL]
  {
  }

  lemma EndIs(line: string, cells: seq<char>, args: seq<Arg>, done: seq<string>)
    requires Scanning(line, cells, args, done, |line|) && |done| < MAX_ARGS
    ensures RoundOk(line, cells, args, done, |done|, |line|, AtEnd)
  {
    ArgsStay(cells, cells, args, done, |line|, |cells|);
    assert done + [] == done;
  }

  /** Split a line in place. It fails iff the line has more tokens than `args` has room for
      beside the null; otherwise the arguments are the line's tokens. */
  method ParseArgs(cmd: array<char>, args: array<Arg>, ghost line: string) returns (ok: bool)
    requires cmd[..] == line + [NUL] && NUL !in line && args.Length == MAX_ARGS
    modifies cmd, args
    ensures ok <==> |Tokens(line)| <= MAX_ARGS - 1
    ensures ok ==> Parsed(line, cmd[..], args[..])
  {
    ScanStart(line, cmd[..], args[..]);
    hide Tokens, Scanning, ArgsAre, Parsed;
    ghost var done: seq<string> := [];
    var i, c := 0, 0;
    var r := More;
    while r == More
      invariant RoundOk(line, cmd[..], args[..], done, i, c, r)
      decreases r == More, cmd.Length - c
    {
      CellAt(line, cmd[..], args[..], done, c);
      r, i, c, done := TakeNext(cmd, args, i, c, line, done);
      if r == More {
        CellAt(line, cmd[..], args[..], done, c);
      }
    }
    if r == TooMany {
      return false;
    }
    ParsedWhen(line, cmd[..], args[..], done, cmd.Length);
    SetArg(args, i, Null);
    return true;
  }

  // ------------------------------------------------ operators

  predicate IsOperatorText(t: string) {
    t == "<" || t == ">" || t == ">>" || t == "|"
  }

  /** How many tokens are operators. */
  function Operators(ts: seq<string>): nat {
    if ts == [] then 0 else Operators(ts[..|ts| - 1]) + if IsOperatorText(ts[|ts| - 1]) then 1 else 0
  }

  datatype OperatorIndex = NoOperator | Only(at: nat) | Several

  /** What is known after the first `i` tokens. */
  ghost predicate FoundIs(ts: seq<string>, i: nat, found: OperatorIndex) {
    && i <= |ts|
    && (found == NoOperator <==> Operators(ts[..i]) == 0)
    && (found.Only? <==> Operators(ts[..i]) == 1)
    && (found == Several <==> Operators(ts[..i]) >= 2)
    && (found.Only? ==> found.at < i && IsOperatorText(ts[found.at]))
  }

  lemma FoundStep(ts: seq<string>, i: nat, found: OperatorIndex)
    requires FoundIs(ts, i, found) && found != Several && i < |ts|
    ensures FoundIs(ts, i + 1, if !IsOperatorText(ts[i]) then found else if found.Only? then Several else Only(i))
  {
    hide IsOperatorText;
    assert ts[..i + 1][..i] == ts[..i];
  }

  /** Two operators stay two, whatever follows. */
  lemma FoundLast(ts: seq<string>, i: nat, found: OperatorIndex)
    requires FoundIs(ts, i, found) && (i == |ts| || found == Several)
    ensures FoundIs(ts, |ts|, found) && ts[..|ts|] == ts
  {
    hide IsOperatorText;
    OperatorsGrow(ts, i);
    assert ts[..|ts|] == ts;
  }

  /** Where the only operator is; a second one is a syntax error. */
  method FindOperatorIndex(cells: seq<char>, args: array<Arg>, ghost line: string) returns (found: OperatorIndex)
    requires Parsed(line, cells, args[..])
    ensures found == NoOperator <==> Operators(Tokens(line)) == 0
    ensures found.Only? <==> Operators(Tokens(line)) == 1
    ensures found.Only? ==> found.at < |Tokens(line)| && IsOperatorText(Tokens(line)[found.at])
    ensures found == Several <==> Operators(Tokens(line)) >= 2
  {
    ghost var ts := Tokens(line);
    found := ScanOperators(cells, args, line);
    FoundLast(ts, |ts|, found);
  }

  method ScanOperators(cells: seq<char>, args: array<Arg>, ghost line: string) returns (found: OperatorIndex)
    requires Parsed(line, cells, args[..])
    ensures FoundIs(Tokens(line), |Tokens(line)|, found)
  {
    ghost var ts := Tokens(line);
    hide Tokens, ArgText, Operators, FoundIs;
    var i := 0;
    found := NoOperator;
    NoneFound(ts);
    while args[i] != Null
      invariant i <= |ts| && args[i] == args[..][i]
      invariant FoundIs(ts, i, found) && found != Several
      decreases |ts| - i
    {
      assert args[..][i] == args[i];
      FoundStep(ts, i, found);
      var text := ArgText(cells, args[i]);
      if text == "<" || text == ">" || text == ">>" || text == "|" {
        if found.Only? {
          FoundLast(ts, i + 1, Several);
          return Several;
        }
        found := Only(i);
      }
      i := i + 1;
    }
  }

  lemma NoneFound(ts: seq<string>)
    ensures FoundIs(ts, 0, NoOperator)
  {
  }

  lemma {:induction false} OperatorsGrow(ts: seq<string>, k: nat)
    requires k <= |ts|
    ensures Operators(ts[..k]) <= Operators(ts)
    decreases |ts| - k
  {
    if k < |ts| {
      assert ts[..k + 1][..k] == ts[..k];
      OperatorsGrow(ts, k + 1);
    } else {
      assert ts[..k] == ts;
    }
  }
}
