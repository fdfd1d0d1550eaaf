/** Streams of line numbers: the distinct lines of a word's records, or a stored line set
    (PA1/query.c:356-444, PA1/query.c:961-981). */
module LineSources {
  import opened Bytes
  import opened Files
  import opened Records
  import opened Readers

  /** How many records lead `recs` on `line`. */
  function Lead(recs: seq<Record>, line: nat): (k: nat)
    ensures k <= |recs|
    ensures forall i :: 0 <= i < k ==> recs[i].line == line
    ensures k < |recs| ==> recs[k].line != line
  {
    if recs != [] && recs[0].line == line then 1 + Lead(recs[1..], line) else 0
  }

  /** The records left once the leading ones of `line` are dropped. */
  function AfterLine(recs: seq<Record>, line: nat): seq<Record> {
    recs[Lead(recs, line)..]
  }

  lemma AfterLineStep(recs: seq<Record>, line: nat)
    requires recs != [] && recs[0].line == line
    ensures AfterLine(recs, line) == AfterLine(recs[1..], line)
  {
  }

  lemma NothingToSkip(recs: seq<Record>, line: nat)
    requires recs == [] || recs[0].line != line
    ensures AfterLine(recs, line) == recs
  {
  }

  /** The line of each group of neighbouring records on one line. */
  function Groups(recs: seq<Record>): seq<U32>
    decreases |recs|
  {
    if recs == [] then [] else [recs[0].line] + Groups(AfterLine(recs, recs[0].line))
  }

  /** What a line source draws from. */
  datatype Origin = WordCache(occurrences: OccurrenceReader) | LineSet(numbers: LineNumberReader)

  class LineNumberSource {
    const io: Reads
    const origin: Origin
    var current: U32
    ghost const Repr: set<object>

    ghost predicate Valid() reads Repr {
      && this in Repr && io !in Repr
      && match origin
         case WordCache(r) => r in Repr && r.Repr <= Repr && this !in r.Repr && r.Valid() && r.io == io
         case LineSet(r) => r in Repr && r.Repr <= Repr && this !in r.Repr && r.Valid() && r.io == io
    }

    /** The line numbers still to come. */
    ghost function Remaining(): seq<U32>
      reads Repr
      requires Valid()
    {
      match origin
      case WordCache(r) => Groups(r.Pending())
      case LineSet(r) => r.Upcoming()
    }

    constructor OverWord(bytes: seq<Byte>, io: Reads, ghost recs: seq<Record>)
      requires bytes == RecordFile(recs)
      ensures Valid() && fresh(Repr) && Remaining() == Groups(recs) && this.io == io
    {
      var r := new OccurrenceReader(bytes, io, recs);
      this.io, origin, current := io, WordCache(r), 0;
      Repr := {this} + r.Repr;
      new;
      assert [] + recs == recs;
    }

    constructor OverLines(bytes: seq<Byte>, io: Reads, ghost lines: seq<U32>)
      requires bytes == LineFile(lines)
      ensures Valid() && fresh(Repr) && Remaining() == lines && this.io == io
    {
      var r := new LineNumberReader(bytes, io, lines);
      this.io, origin, current := io, LineSet(r), 0;
      Repr := {this} + r.Repr;
    }

    /** Deliver the next line number, once per line; fails exactly when a read ends inside a
        cell. */
    method Next() returns (st: Status)
      requires Valid()
      modifies Repr, io
      ensures st == Got ==> Valid() && old(Remaining()) == [current] + Remaining()
      ensures st == End ==> Valid() && old(Remaining()) == [] == Remaining()
      ensures st == Error <==> io.cuts != old(io.cuts)
      ensures io.Aligned() ==> st != Error
    {
      match origin
      case WordCache(r) =>
        var line;
        st, line := NextGroup(r);
        if st == Got {
          current := line;
        }
      case LineSet(r) =>
        st := r.Next();
        if st == Got {
          current := r.current;
        }
    }
  }

  /** Take the line of the pending group and skip the rest of the group. */
  method NextGroup(r: OccurrenceReader) returns (st: Status, line: U32)
    requires r.Valid()
    modifies r.Repr, r.io
    ensures st == Got ==> r.Valid() && Groups(old(r.Pending())) == [line] + Groups(r.Pending())
    ensures st == End ==> r.Valid() && old(r.Pending()) == [] == r.Pending()
    ensures st == Error <==> r.io.cuts != old(r.io.cuts)
    ensures r.io.Aligned() ==> st != Error
  {
    hide Reads.Aligned;
    line := 0;
    ghost var all := r.Pending();
    if !r.hasRecord {
      assert all == r.Upcoming();
      st := r.Next();
      if st != Got {
        return;
      }
    }
    assert r.Pending() == all && all[0] == r.current;
    line := r.current.line;
    st := SkipLine(r);
  }

  /** Advance past every pending record of the current line. */
  method SkipLine(r: OccurrenceReader) returns (st: Status)
    requires r.Valid() && r.hasRecord
    modifies r.Repr, r.io
    ensures st == Got || st == Error
    ensures st == Got ==> r.Valid() && r.Pending() == AfterLine(old(r.Pending()), old(r.current.line))
    ensures st == Got ==> r.hasRecord || r.Upcoming() == []
    ensures st == Error <==> r.io.cuts != old(r.io.cuts)
    ensures r.io.Aligned() ==> st == Got
  {
    hide AfterLine, Reads.Aligned;
    var line := r.current.line;
    ghost var all := r.Pending();
    while true
      invariant r.Valid() && r.hasRecord && r.current.line == line && r.io.cuts == old(r.io.cuts)
      invariant AfterLine(r.Pending(), line) == AfterLine(all, line)
      decreases |r.Upcoming()|
    {
      ghost var upcoming := r.Upcoming();
      assert r.Pending()[1..] == upcoming;
      AfterLineStep(r.Pending(), line);
      st := r.Next();
      if st == Error {
        return;
      }
      assert st == Got ==> r.Pending() == upcoming;
      if st == End || r.current.line != line {
        NothingToSkip(r.Pending(), line);
        return Got;
      }
    }
  }
}
