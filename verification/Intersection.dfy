/** Merging two ascending line streams (PA1/query.c:535-652). */
module Intersection {
  import opened Bytes
  import opened Files
  import opened Output
  import opened Records
  import opened Readers
  import opened LineSources
  import opened NaiveScan

  /** The members of `l` that are in `r`, in `l`'s order. */
  function Common(l: seq<U32>, r: seq<U32>): seq<U32> {
    if l == [] then [] else (if l[0] in r then [l[0]] else []) + Common(l[1..], r)
  }

  lemma {:induction false} CommonMembers(l: seq<U32>, r: seq<U32>)
    requires StrictlyAscending(l)
    ensures StrictlyAscending(Common(l, r))
    ensures forall x :: x in Common(l, r) <==> x in l && x in r
  {
    if l != [] {
      CommonMembers(l[1..], r);
      assert l == [l[0]] + l[1..];
      var rest := Common(l[1..], r);
      forall i | 0 <= i < |rest| ensures l[0] < rest[i] {
        assert rest[i] in l[1..];
      }
    }
  }

  /** A head of `r` below all of `l` never matches. */
  lemma {:induction false} CommonDropSmall(l: seq<U32>, r: seq<U32>)
    requires r != [] && forall i :: 0 <= i < |l| ==> r[0] < l[i]
    ensures Common(l, r) == Common(l, r[1..])
  {
    if l != [] {
      CommonDropSmall(l[1..], r);
      assert r == [r[0]] + r[1..];
      assert l[0] in r <==> l[0] in r[1..];
    }
  }

  lemma CommonStep(l: seq<U32>, r: seq<U32>)
    requires l != [] && r != [] && StrictlyAscending(l) && StrictlyAscending(r)
    ensures l[0] == r[0] ==> Common(l, r) == [l[0]] + Common(l[1..], r[1..])
    ensures l[0] < r[0] ==> Common(l, r) == Common(l[1..], r)
    ensures r[0] < l[0] ==> Common(l, r) == Common(l, r[1..])
    ensures StrictlyAscending(l[1..]) && StrictlyAscending(r[1..])
  {
    if l[0] == r[0] {
      CommonDropSmall(l[1..], r);
    } else if r[0] < l[0] {
      CommonDropSmall(l, r);
    } else {
      assert l[0] !in r;
    }
  }

  /** How a match is written: as text for the answer, as a cell of a line-set file. */
  datatype Form = AsText | AsCells

  function Written(form: Form, lines: seq<U32>): seq<Byte> {
    match form
    case AsText => Render(LineItems(lines))
    case AsCells => LineFile(lines)
  }

  lemma WrittenSnoc(form: Form, lines: seq<U32>, line: U32)
    ensures Written(form, lines + [line]) ==
      Written(form, lines) + match form
        case AsText => RenderItem(LineNo(line))
        case AsCells => EncodeLE(line, LINE_SIZE)
  {
    hide LineFile, Render, RenderItem, EncodeLE;
    LineFileSnoc(lines, line);
    assert LineItems(lines + [line]) == LineItems(lines) + [LineNo(line)];
    RenderConcat(LineItems(lines), [LineNo(line)]);
    RenderOne(LineNo(line));
  }

  /** What is written for a front part of the lines is a front part of what is written. */
  lemma WrittenFront(form: Form, base: seq<Byte>, lines: seq<U32>, k: nat)
    requires k <= |lines|
    ensures Within(base, Written(form, lines), base + Written(form, lines[..k]))
  {
    hide LineFile, Render;
    assert lines == lines[..k] + lines[k..];
    LineFileConcat(lines[..k], lines[k..]);
    assert LineItems(lines) == LineItems(lines[..k]) + LineItems(lines[k..]);
    RenderConcat(LineItems(lines[..k]), LineItems(lines[k..]));
    WithinConcat(base, Written(form, lines[..k]), Written(form, lines[k..]));
  }

  lemma WrittenPrefix(form: Form, base: seq<Byte>, front: seq<U32>, all: seq<U32>)
    requires front <= all
    ensures Within(base, Written(form, all), base + Written(form, front))
  {
    assert all[..|front|] == front;
    WrittenFront(form, base, all, |front|);
  }

  method WriteMatch(form: Form, out: OutBuf, line: U32, ghost base: seq<Byte>, ghost sofar: seq<U32>)
    requires out.Valid() && out.Contents() == base + Written(form, sofar)
    modifies out, out.buf
    ensures out.Valid() && out.Contents() == base + Written(form, sofar + [line])
  {
    WrittenSnoc(form, sofar, line);
    ghost var was := Written(form, sofar);
    hide Written, RenderItem, EncodeLE;
    match form
    case AsText =>
      EmitLineNo(out, line);
      ConcatAssoc(base, was, RenderItem(LineNo(line)));
    case AsCells =>
      out.WriteData(EncodeLE(line, LINE_SIZE));
      ConcatAssoc(base, was, EncodeLE(line, LINE_SIZE));
  }

  /** What a source still offers, its current line included. */
  ghost function Offer(source: LineNumberSource, st: Status): seq<U32>
    reads source, source.Repr
    requires source.Valid()
  {
    if st == Got then [source.current] + source.Remaining() else []
  }

  /** Two sources and a writer that do not interfere; the reads of both arrive the same way. */
  ghost predicate Separated(left: LineNumberSource, right: LineNumberSource, out: OutBuf) {
    && left.Repr !! right.Repr && {out, out.buf} !! left.Repr && {out, out.buf} !! right.Repr
    && left.io == right.io && left.io !in left.Repr && left.io !in right.Repr
  }

  /** Mid-merge: `sofar` is written, and with what the sources still offer makes `all`. */
  ghost predicate Merging(l: seq<U32>, r: seq<U32>, form: Form, base: seq<Byte>, all: seq<U32>, sofar: seq<U32>,
                          out: seq<Byte>, count: nat) {
    && StrictlyAscending(l) && StrictlyAscending(r)
    && sofar + Common(l, r) == all
    && out == base + Written(form, sofar)
    && count == |sofar| % U32_LIMIT
  }

  lemma MergeStart(l: seq<U32>, r: seq<U32>, form: Form, base: seq<Byte>)
    requires StrictlyAscending(l) && StrictlyAscending(r)
    ensures Merging(l, r, form, base, Common(l, r), [], base, 0)
  {
    NothingWritten(form, base);
    assert [] + Common(l, r) == Common(l, r);
  }

  lemma MergeSkip(l: seq<U32>, r: seq<U32>, form: Form, base: seq<Byte>, all: seq<U32>, sofar: seq<U32>,
                  out: seq<Byte>, count: nat)
    requires Merging(l, r, form, base, all, sofar, out, count) && l != [] && r != [] && l[0] != r[0]
    ensures Within(base, Written(form, all), out)
    ensures l[0] < r[0] ==> Merging(l[1..], r, form, base, all, sofar, out, count)
    ensures r[0] < l[0] ==> Merging(l, r[1..], form, base, all, sofar, out, count)
  {
    CommonStep(l, r);
    WrittenPrefix(form, base, sofar, all);
  }

  lemma MergeTake(l: seq<U32>, r: seq<U32>, form: Form, base: seq<Byte>, all: seq<U32>, sofar: seq<U32>,
                  out: seq<Byte>, count: nat)
    requires Merging(l, r, form, base, all, sofar, out, count) && l != [] && r != [] && l[0] == r[0]
    ensures out == base + Written(form, sofar) && sofar + [l[0]] <= all
    ensures Merging(l[1..], r[1..], form, base, all, sofar + [l[0]], base + Written(form, sofar + [l[0]]),
      (count + 1) % U32_LIMIT)
  {
    hide Written;
    CommonStep(l, r);
    ConcatAssoc(sofar, [l[0]], Common(l[1..], r[1..]));
  }

  lemma MergeEnd(l: seq<U32>, r: seq<U32>, form: Form, base: seq<Byte>, all: seq<U32>, sofar: seq<U32>,
                 out: seq<Byte>, count: nat)
    requires Merging(l, r, form, base, all, sofar, out, count) && (l == [] || r == [])
    ensures out == base + Written(form, all) && count == |all| % U32_LIMIT
  {
    NothingLeft(l, r);
    assert sofar + [] == sofar;
  }

  /** Step a source past the line it holds. */
  method Pull(source: LineNumberSource) returns (st: Status)
    requires source.Valid()
    modifies source.Repr, source.io
    ensures st != Error ==> source.Valid() && Offer(source, st) == old(Offer(source, Got))[1..]
    ensures st == Error <==> source.io.cuts != old(source.io.cuts)
    ensures source.io.Aligned() ==> st != Error
  {
    hide LineNumberSource.Remaining;
    st := source.Next();
  }

  /** The sources agree: write the line and step both. */
  method TakeRound(left: LineNumberSource, right: LineNumberSource, out: OutBuf, form: Form, ghost base: seq<Byte>,
                   ghost sofar: seq<U32>)
    returns (leftSt: Status, rightSt: Status)
    requires left.Valid() && right.Valid() && out.Valid() && Separated(left, right, out)
    requires left in left.Repr && right in right.Repr
    requires out.Contents() == base + Written(form, sofar)
    modifies left.Repr, right.Repr, out, out.buf, left.io
    ensures out.Valid() && out.Contents() == base + Written(form, sofar + [old(left.current)])
    ensures leftSt != Error && rightSt != Error ==>
      && left.Valid() && right.Valid()
      && Offer(left, leftSt) == old(Offer(left, Got))[1..]
      && Offer(right, rightSt) == old(Offer(right, Got))[1..]
    ensures leftSt == Error || rightSt == Error <==> left.io.cuts != old(left.io.cuts)
    ensures left.io.Aligned() ==> leftSt != Error && rightSt != Error
  {
    hide Reads.Aligned, Written, LineNumberSource.Valid, LineNumberSource.Remaining;
    WriteMatch(form, out, left.current, base, sofar);
    rightSt := Got;
    leftSt := Pull(left);
    if leftSt != Error {
      rightSt := Pull(right);
    }
  }

  /** The sources differ: step the one that is behind. */
  method SkipRound(left: LineNumberSource, right: LineNumberSource)
    returns (leftSt: Status, rightSt: Status)
    requires left.Valid() && right.Valid() && left.Repr !! right.Repr
    requires left.io == right.io && left.io !in left.Repr && left.io !in right.Repr
    requires left in left.Repr && right in right.Repr && left.current != right.current
    modifies left.Repr, right.Repr, left.io
    ensures leftSt != Error && rightSt != Error ==>
      && left.Valid() && right.Valid()
      && (if old(left.current) < old(right.current)
          then Offer(left, leftSt) == old(Offer(left, Got))[1..] && Offer(right, rightSt) == old(Offer(right, Got))
          else Offer(left, leftSt) == old(Offer(left, Got)) && Offer(right, rightSt) == old(Offer(right, Got))[1..])
    ensures leftSt == Error || rightSt == Error <==> left.io.cuts != old(left.io.cuts)
    ensures left.io.Aligned() ==> leftSt != Error && rightSt != Error
  {
    hide Reads.Aligned, LineNumberSource.Valid, LineNumberSource.Remaining;
    leftSt, rightSt := Got, Got;
    if left.current < right.current {
      leftSt := Pull(left);
    } else {
      rightSt := Pull(right);
    }
  }

  lemma OwnsItself(source: LineNumberSource)
    requires source.Valid()
    ensures source in source.Repr
  {
  }

  /** One round of the merge keeps what is written plus what is offered. */
  method Round(left: LineNumberSource, right: LineNumberSource, out: OutBuf, form: Form, count: U32,
               ghost base: seq<Byte>, ghost all: seq<U32>, ghost sofar: seq<U32>)
    returns (leftSt: Status, rightSt: Status, newCount: U32, ghost nowSofar: seq<U32>)
    requires left.Valid() && right.Valid() && out.Valid() && Separated(left, right, out)
    requires Merging(Offer(left, Got), Offer(right, Got), form, base, all, sofar, out.Contents(), count)
    modifies left.Repr, right.Repr, out, out.buf, left.io
    ensures out.Valid() && Within(base, Written(form, all), out.Contents())
    ensures leftSt != Error && rightSt != Error ==>
      && left.Valid() && right.Valid()
      && Merging(Offer(left, leftSt), Offer(right, rightSt), form, base, all, nowSofar, out.Contents(), newCount)
      && |Offer(left, leftSt)| + |Offer(right, rightSt)| < |old(Offer(left, Got))| + |old(Offer(right, Got))|
    ensures leftSt == Error || rightSt == Error <==> left.io.cuts != old(left.io.cuts)
    ensures left.io.Aligned() ==> leftSt != Error && rightSt != Error
  {
    hide Reads.Aligned, Merging, StrictlyAscending, Common, Written, LineNumberSource.Valid, LineNumberSource.Remaining;
    OwnsItself(left);
    OwnsItself(right);
    ghost var l, r := Offer(left, Got), Offer(right, Got);
    newCount, nowSofar := count, sofar;
    if left.current == right.current {
      MergeTake(l, r, form, base, all, sofar, out.Contents(), count);
      leftSt, rightSt := TakeRound(left, right, out, form, base, sofar);
      newCount, nowSofar := (count + 1) % U32_LIMIT, sofar + [l[0]];
      WrittenPrefix(form, base, nowSofar, all);
    } else {
      MergeSkip(l, r, form, base, all, sofar, out.Contents(), count);
      leftSt, rightSt := SkipRound(left, right);
    }
  }

  /** Write the lines both sources hold, in order; fails exactly when a read ends inside a
      cell. */
  method Intersect(left: LineNumberSource, right: LineNumberSource, out: OutBuf, form: Form)
    returns (ok: bool, matchCount: U32)
    requires left.Valid() && right.Valid() && out.Valid() && Separated(left, right, out)
    requires StrictlyAscending(left.Remaining()) && StrictlyAscending(right.Remaining())
    modifies left.Repr, right.Repr, out, out.buf, left.io
    ensures out.Valid()
    ensures Within(old(out.Contents()), Written(form, Common(old(left.Remaining()), old(right.Remaining()))),
      out.Contents())
    ensures ok ==>
      out.Contents() == old(out.Contents()) + Written(form, Common(old(left.Remaining()), old(right.Remaining())))
    ensures ok ==> matchCount == |Common(old(left.Remaining()), old(right.Remaining()))| % U32_LIMIT
    ensures ok <==> left.io.cuts == old(left.io.cuts)
    ensures left.io.Aligned() ==> ok
  {
    hide Reads.Aligned, Merging, Common, Written, Within, LineNumberSource.Valid, LineNumberSource.Remaining;
    ghost var base, sofar := out.Contents(), [];
    ghost var all := Common(left.Remaining(), right.Remaining());
    MergeStart(left.Remaining(), right.Remaining(), form, base);
    NothingWithin(base, Written(form, all));
    ok, matchCount := false, 0;
    var leftSt := left.Next();
    if leftSt == Error {
      return;
    }
    var rightSt := right.Next();
    if rightSt == Error {
      return;
    }
    while leftSt == Got && rightSt == Got
      invariant leftSt != Error && rightSt != Error && left.io.cuts == old(left.io.cuts)
      invariant left.Valid() && right.Valid() && out.Valid()
      invariant Within(base, Written(form, all), out.Contents())
      invariant Merging(Offer(left, leftSt), Offer(right, rightSt), form, base, all, sofar, out.Contents(), matchCount)
      decreases |Offer(left, leftSt)| + |Offer(right, rightSt)|
    {
      leftSt, rightSt, matchCount, sofar := Round(left, right, out, form, matchCount, base, all, sofar);
      if leftSt == Error || rightSt == Error {
        return;
      }
    }
    MergeEnd(Offer(left, leftSt), Offer(right, rightSt), form, base, all, sofar, out.Contents(), matchCount);
    ok := true;
  }

  lemma NothingWritten(form: Form, base: seq<Byte>)
    ensures base == base + Written(form, [])
  {
    assert LineItems([]) == [] && LineCells([]) == [] && RenderEach([]) == [];
  }

  lemma {:induction false} NothingLeft(l: seq<U32>, r: seq<U32>)
    requires l == [] || r == []
    ensures Common(l, r) == []
  {
    if l != [] {
      NothingLeft(l[1..], r);
    }
  }
}
