/** Grouped, intersected and merge-joined postings list exactly the lines that pass the
    naive tests (PA1/query.c:387-430, PA1/query.c:535-652, PA1/query.c:1034-1094). */
module LineAnswers {
  import opened Bytes
  import opened Text
  import opened NaiveScan
  import opened Records
  import opened Postings
  import opened LineSources
  import opened Intersection

  // ------------------------------------------------ ascending lists are their members

  lemma NonEmptyHasMember(s: seq<nat>)
    ensures s != [] ==> exists x :: x in s
  {
    if s != [] {
      assert s[0] in s;
    }
  }

  lemma HeadIsLeast(a: seq<nat>, b: seq<nat>)
    requires StrictlyAscending(a) && StrictlyAscending(b) && a != [] && b != []
    requires forall x :: x in a <==> x in b
    ensures a[0] == b[0]
  {
    assert a[0] in b && b[0] in a;
  }

  lemma {:induction false} AscendingUnique(a: seq<nat>, b: seq<nat>)
    requires StrictlyAscending(a) && StrictlyAscending(b)
    requires forall x :: x in a <==> x in b
    ensures a == b
  {
    if a == [] || b == [] {
      NonEmptyHasMember(a);
      NonEmptyHasMember(b);
    } else {
      HeadIsLeast(a, b);
      forall x ensures x in a[1..] <==> x in b[1..] {
        TailMember(a, x);
        TailMember(b, x);
      }
      AscendingUnique(a[1..], b[1..]);
      assert a == [a[0]] + a[1..] && b == [b[0]] + b[1..];
    }
  }

  lemma TailMember(a: seq<nat>, x: nat)
    requires StrictlyAscending(a) && a != []
    ensures x in a[1..] <==> x in a && x != a[0]
  {
    if x in a && x != a[0] {
      var i :| 0 <= i < |a| && a[i] == x;
      assert a[1..][i - 1] == x;
    }
  }

  // ------------------------------------------------ lines of a posting list

  ghost predicate OnLine(recs: seq<Record>, n: nat) {
    exists r :: r in recs && r.line == n
  }

  /** Past the leading records of a line, every record is of a later line. */
  lemma AfterLineLater(recs: seq<Record>, line: nat)
    requires RecordsOrdered(recs) && (recs != [] ==> line <= recs[0].line)
    ensures RecordsOrdered(AfterLine(recs, line))
    ensures forall r :: r in AfterLine(recs, line) <==> r in recs && r.line > line
  {
    var k := Lead(recs, line);
    forall r ensures r in recs[k..] <==> r in recs && r.line > line {
      if r in recs[k..] {
        var i :| k <= i < |recs| && recs[i] == r;
        assert i == k || RecordBefore(recs[k], recs[i]);
        assert k == 0 || recs[0].line == line;
      }
      if r in recs && r.line > line {
        var i :| 0 <= i < |recs| && recs[i] == r;
        assert recs[k..][i - k] == r;
      }
    }
  }

  lemma ConsAscending(first: U32, rest: seq<U32>)
    requires StrictlyAscending(rest) && forall n :: n in rest ==> first < n
    ensures StrictlyAscending([first] + rest)
  {
    assert forall i :: 0 <= i < |rest| ==> rest[i] in rest;
  }

  lemma OnLineSplit(recs: seq<Record>, n: nat)
    requires RecordsOrdered(recs) && recs != []
    ensures OnLine(recs, n) <==> n == recs[0].line || OnLine(AfterLine(recs, recs[0].line), n)
    ensures OnLine(AfterLine(recs, recs[0].line), n) ==> recs[0].line < n
  {
    AfterLineLater(recs, recs[0].line);
    assert recs[0] in recs;
    if r :| r in recs && r.line == n {
      var i :| 0 <= i < |recs| && recs[i] == r;
      assert i == 0 || RecordBefore(recs[0], recs[i]);
    }
  }

  /** The groups of an ordered posting list are its lines, each once, ascending. */
  lemma {:induction false} GroupsExact(recs: seq<Record>)
    requires RecordsOrdered(recs)
    ensures StrictlyAscending(Groups(recs))
    ensures forall n: nat :: n in Groups(recs) <==> OnLine(recs, n)
    decreases |recs|
  {
    hide RecordsOrdered;
    if recs != [] {
      var line := recs[0].line;
      var rest := AfterLine(recs, line);
      AfterLineLater(recs, line);
      AfterLineStep(recs, line);
      GroupsExact(rest);
      hide OnLine, AfterLine;
      forall n: nat
        ensures n in Groups(rest) ==> line < n
        ensures n in Groups(recs) <==> OnLine(recs, n)
      {
        OnLineSplit(recs, n);
      }
      ConsAscending(line, Groups(rest));
    }
  }

  lemma RunOfRecord(id: U32, lines: seq<seq<Byte>>, w: seq<Byte>, r: Record) returns (t: Token)
    requires Fits(lines) && r in Posting(id, lines, w)
    ensures 1 <= r.line <= |lines| && IsWordRun(lines[r.line - 1], t)
    ensures t.start == r.start && WordAt(lines[r.line - 1], t) == w
  {
    PostingMember(id, lines, w, r);
    t :| IsWordRun(lines[r.line - 1], t) && t.start == r.start && WordAt(lines[r.line - 1], t) == w;
  }

  lemma RecordOfRun(id: U32, lines: seq<seq<Byte>>, w: seq<Byte>, n: nat, t: Token) returns (r: Record)
    requires Fits(lines) && 1 <= n <= |lines| && IsWordRun(lines[n - 1], t) && WordAt(lines[n - 1], t) == w
    ensures r in Posting(id, lines, w) && r.line == n && r.start == t.start
  {
    r := Record(id, n, t.start);
    PostingMember(id, lines, w, r);
  }

  lemma PostingOnLine(id: U32, lines: seq<seq<Byte>>, w: seq<Byte>, n: nat)
    requires Fits(lines)
    ensures OnLine(Posting(id, lines, w), n) <==> 1 <= n <= |lines| && HasWord(lines[n - 1], w)
  {
    hide Posting, WordAt, Fits;
    if 1 <= n <= |lines| && HasWord(lines[n - 1], w) {
      var t :| IsWordRun(lines[n - 1], t) && WordAt(lines[n - 1], t) == w;
      var r := RecordOfRun(id, lines, w, n, t);
    }
    if r :| r in Posting(id, lines, w) && r.line == n {
      var t := RunOfRecord(id, lines, w, r);
    }
  }

  /** The passing lines as the 32-bit numbers the files store. */
  ghost function LinesPassing(lines: seq<seq<Byte>>, test: LineTest): (numbers: seq<U32>)
    requires Fits(lines)
    ensures numbers == PassingLines(lines, test)
  {
    var all := PassingLines(lines, test);
    PassingLinesExact(lines, test);
    assert forall i :: 0 <= i < |all| ==> all[i] in all;
    all
  }

  /** Grouping a word's postings lists the lines that have the word. */
  lemma GroupsArePassing(id: U32, lines: seq<seq<Byte>>, w: seq<Byte>)
    requires Fits(lines)
    ensures Groups(Posting(id, lines, w)) == LinesPassing(lines, AllWords({w}))
  {
    var test := AllWords({w});
    PostingExact(id, lines, w);
    hide Posting, HasWord, OnLine, Fits;
    GroupsExact(Posting(id, lines, w));
    PassingLinesExact(lines, test);
    var got, want := Groups(Posting(id, lines, w)), LinesPassing(lines, test);
    forall n: nat ensures n in got <==> n in want {
      PostingOnLine(id, lines, w, n);
    }
    AscendingUnique(got, want);
  }

  /** Merging the lines of two word sets lists the lines of their union. */
  lemma CommonIsPassing(lines: seq<seq<Byte>>, a: set<seq<Byte>>, b: set<seq<Byte>>)
    requires Fits(lines)
    ensures StrictlyAscending(LinesPassing(lines, AllWords(a)))
    ensures Common(LinesPassing(lines, AllWords(a)), LinesPassing(lines, AllWords(b))) ==
      LinesPassing(lines, AllWords(a + b))
  {
    hide HasWord, Fits;
    PassingLinesExact(lines, AllWords(a));
    PassingLinesExact(lines, AllWords(b));
    PassingLinesExact(lines, AllWords(a + b));
    var l, r := LinesPassing(lines, AllWords(a)), LinesPassing(lines, AllWords(b));
    CommonMembers(l, r);
    AscendingUnique(Common(l, r), LinesPassing(lines, AllWords(a + b)));
  }

  // ------------------------------------------------ the pattern join

  /** The start of the last leading record on `line`. */
  function LastStart(recs: seq<Record>, line: nat): (start: nat)
    requires recs != [] && recs[0].line == line
  {
    recs[Lead(recs, line) - 1].start
  }

  /** The lines of the merge join, told by the first left and the last right start. */
  function Joined(l: seq<Record>, r: seq<Record>): seq<U32>
    decreases |l| + |r|
  {
    if l == [] || r == [] then []
    else if l[0].line < r[0].line then Joined(AfterLine(l, l[0].line), r)
    else if l[0].line > r[0].line then Joined(l, AfterLine(r, r[0].line))
    else
      var line := l[0].line;
      (if l[0].start < LastStart(r, line) then [line] else []) + Joined(AfterLine(l, line), AfterLine(r, line))
  }

  /** Some left record starts before some right record on line `n`. */
  ghost predicate Precedes(l: seq<Record>, r: seq<Record>, n: nat) {
    exists a, b :: a in l && b in r && a.line == n && b.line == n && a.start < b.start
  }

  predicate InOrderAt(recs: seq<Record>, i: nat, j: nat) {
    i < j < |recs| ==> RecordBefore(recs[i], recs[j])
  }

  /** The first record bounds the rest from below, the last of its line from above. */
  lemma GroupBounds(recs: seq<Record>, r: Record)
    requires RecordsOrdered(recs) && recs != [] && r in recs
    ensures recs[0].line <= r.line
    ensures r.line == recs[0].line ==> recs[0].start <= r.start <= LastStart(recs, recs[0].line)
  {
    var line := recs[0].line;
    var i :| 0 <= i < |recs| && recs[i] == r;
    var k := Lead(recs, line);
    assert InOrderAt(recs, 0, i) && InOrderAt(recs, 0, k) && InOrderAt(recs, k, i);
    assert k == 0 || InOrderAt(recs, i, k - 1);
  }

  lemma LastIsThere(recs: seq<Record>, line: nat) returns (r: Record)
    requires recs != [] && recs[0].line == line
    ensures r in recs && r.line == line && r.start == LastStart(recs, line)
  {
    r := recs[Lead(recs, line) - 1];
  }

  lemma LaterNeverPrecedes(l: seq<Record>, r: seq<Record>, n: nat)
    requires RecordsOrdered(l) && RecordsOrdered(r) && Precedes(l, r, n)
    ensures l != [] && r != [] && l[0].line <= n && r[0].line <= n
  {
    var a, b :| a in l && b in r && a.line == n && b.line == n && a.start < b.start;
    GroupBounds(l, a);
    GroupBounds(r, b);
  }

  /** Dropping the records of a line below `n` changes nothing at `n`. */
  lemma PrecedesLater(l: seq<Record>, r: seq<Record>, lLine: nat, rLine: nat, n: nat)
    requires RecordsOrdered(l) && RecordsOrdered(r) && lLine < n && rLine < n
    requires (l != [] ==> lLine <= l[0].line) && (r != [] ==> rLine <= r[0].line)
    ensures Precedes(l, r, n) <==> Precedes(AfterLine(l, lLine), AfterLine(r, rLine), n)
  {
    AfterLineLater(l, lLine);
    AfterLineLater(r, rLine);
  }

  /** On the heads' common line only the first left and the last right start matter. */
  lemma PrecedesHere(l: seq<Record>, r: seq<Record>)
    requires RecordsOrdered(l) && RecordsOrdered(r) && l != [] && r != [] && l[0].line == r[0].line
    ensures Precedes(l, r, l[0].line) <==> l[0].start < LastStart(r, l[0].line)
  {
    var n := l[0].line;
    if a, b :| a in l && b in r && a.line == n && b.line == n && a.start < b.start {
      GroupBounds(l, a);
      GroupBounds(r, b);
    }
    var last := LastIsThere(r, n);
    assert l[0] in l;
  }

  /** Dropping the lower of two different head lines loses nothing. */
  lemma PrecedesSkip(l: seq<Record>, r: seq<Record>, n: nat)
    requires RecordsOrdered(l) && RecordsOrdered(r) && l != [] && r != [] && l[0].line != r[0].line
    ensures l[0].line < r[0].line ==> (Precedes(l, r, n) <==> Precedes(AfterLine(l, l[0].line), r, n))
    ensures r[0].line < l[0].line ==> (Precedes(l, r, n) <==> Precedes(l, AfterLine(r, r[0].line), n))
  {
    hide RecordsOrdered, Precedes, AfterLine;
    var low := if l[0].line < r[0].line then l[0].line else r[0].line;
    AfterLineLater(l, low);
    AfterLineLater(r, low);
    if l[0].line < r[0].line {
      NothingToSkip(r, low);
    } else {
      NothingToSkip(l, low);
    }
    if low < n {
      PrecedesLater(l, r, low, low, n);
    } else {
      if Precedes(l, r, n) {
        LaterNeverPrecedes(l, r, n);
      }
      if Precedes(AfterLine(l, low), AfterLine(r, low), n) {
        LaterNeverPrecedes(AfterLine(l, low), AfterLine(r, low), n);
      }
    }
  }

  /** On equal head lines, this line is decided here and later ones later. */
  lemma PrecedesSplit(l: seq<Record>, r: seq<Record>, n: nat)
    requires RecordsOrdered(l) && RecordsOrdered(r) && l != [] && r != [] && l[0].line == r[0].line
    ensures Precedes(l, r, n) <==>
      || (n == l[0].line && l[0].start < LastStart(r, n))
      || Precedes(AfterLine(l, l[0].line), AfterLine(r, l[0].line), n)
    ensures Precedes(AfterLine(l, l[0].line), AfterLine(r, l[0].line), n) ==> l[0].line < n
  {
    hide RecordsOrdered, Precedes, AfterLine, LastStart;
    var line := l[0].line;
    AfterLineLater(l, line);
    AfterLineLater(r, line);
    var l', r' := AfterLine(l, line), AfterLine(r, line);
    if Precedes(l', r', n) {
      LaterNeverPrecedes(l', r', n);
      assert l'[0] in l' && line < l'[0].line;
    }
    if line < n {
      PrecedesLater(l, r, line, line, n);
    } else if n == line {
      PrecedesHere(l, r);
    } else if Precedes(l, r, n) {
      LaterNeverPrecedes(l, r, n);
    }
  }

  /** The merge join finds exactly the lines on which some left record precedes some right
      one, each once and ascending. */
  lemma {:induction false} JoinedExact(l: seq<Record>, r: seq<Record>)
    requires RecordsOrdered(l) && RecordsOrdered(r)
    ensures StrictlyAscending(Joined(l, r))
    ensures forall n: nat :: n in Joined(l, r) <==> Precedes(l, r, n)
    decreases |l| + |r|
  {
    hide RecordsOrdered, Precedes, LastStart;
    if l == [] || r == [] {
      forall n: nat ensures !Precedes(l, r, n) {
        if Precedes(l, r, n) {
          LaterNeverPrecedes(l, r, n);
        }
      }
    } else if l[0].line != r[0].line {
      var low := if l[0].line < r[0].line then l[0].line else r[0].line;
      AfterLineLater(l, low);
      AfterLineLater(r, low);
      if l[0].line < r[0].line {
        JoinedExact(AfterLine(l, low), r);
      } else {
        JoinedExact(l, AfterLine(r, low));
      }
      forall n: nat ensures n in Joined(l, r) <==> Precedes(l, r, n) {
        PrecedesSkip(l, r, n);
      }
    } else {
      var line := l[0].line;
      AfterLineLater(l, line);
      AfterLineLater(r, line);
      var rest := Joined(AfterLine(l, line), AfterLine(r, line));
      JoinedExact(AfterLine(l, line), AfterLine(r, line));
      forall n: nat
        ensures n in rest ==> line < n
        ensures n in Joined(l, r) <==> Precedes(l, r, n)
      {
        PrecedesSplit(l, r, n);
      }
      ConsAscending(line, rest);
    }
  }

  lemma PostingPrecedes(lId: U32, rId: U32, lines: seq<seq<Byte>>, a: seq<Byte>, b: seq<Byte>, n: nat)
    requires Fits(lines)
    ensures Precedes(Posting(lId, lines, a), Posting(rId, lines, b), n) <==>
      1 <= n <= |lines| && HasInOrder(lines[n - 1], a, b)
  {
    hide Posting, IsWordRun, WordAt, Fits;
    if Precedes(Posting(lId, lines, a), Posting(rId, lines, b), n) {
      var x, y :| x in Posting(lId, lines, a) && y in Posting(rId, lines, b) && x.line == n && y.line == n
        && x.start < y.start;
      var t := RunOfRecord(lId, lines, a, x);
      var u := RunOfRecord(rId, lines, b, y);
      InOrderBy(lines[n - 1], a, b, t, u);
    }
    if 1 <= n <= |lines| && HasInOrder(lines[n - 1], a, b) {
      var t, u := TokensInOrder(lines[n - 1], a, b);
      var x := RecordOfRun(lId, lines, a, n, t);
      var y := RecordOfRun(rId, lines, b, n, u);
    }
  }

  lemma InOrderBy(line: seq<Byte>, a: seq<Byte>, b: seq<Byte>, t: Token, u: Token)
    requires IsWordRun(line, t) && WordAt(line, t) == a && IsWordRun(line, u) && WordAt(line, u) == b
      && t.start < u.start
    ensures HasInOrder(line, a, b)
  {
  }

  lemma TokensInOrder(line: seq<Byte>, a: seq<Byte>, b: seq<Byte>) returns (t: Token, u: Token)
    requires HasInOrder(line, a, b)
    ensures IsWordRun(line, t) && WordAt(line, t) == a && IsWordRun(line, u) && WordAt(line, u) == b
      && t.start < u.start
  {
    t, u :| IsWordRun(line, t) && WordAt(line, t) == a && IsWordRun(line, u) && WordAt(line, u) == b
      && t.start < u.start;
  }

  /** The merge join of two words' postings lists the lines that have them in order. */
  lemma JoinedIsPassing(lId: U32, rId: U32, lines: seq<seq<Byte>>, a: seq<Byte>, b: seq<Byte>)
    requires Fits(lines)
    ensures Joined(Posting(lId, lines, a), Posting(rId, lines, b)) == LinesPassing(lines, InOrder(a, b))
  {
    var l, r, test := Posting(lId, lines, a), Posting(rId, lines, b), InOrder(a, b);
    hide Posting, HasInOrder, Precedes, Fits;
    PostingExact(lId, lines, a);
    PostingExact(rId, lines, b);
    hide RecordsOrdered;
    JoinedExact(l, r);
    PassingLinesExact(lines, test);
    forall n: nat ensures n in Joined(l, r) <==> n in LinesPassing(lines, test) {
      PostingPrecedes(lId, rId, lines, a, b, n);
    }
    AscendingUnique(Joined(l, r), LinesPassing(lines, test));
  }
}
