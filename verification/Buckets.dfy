/** The 256 buffered bucket files an index build appends to (PA1/pa1.h:93-96). */
module Buckets {
  import opened Bytes
  import opened Files
  import opened LexiconTable

  class BucketSet {
    const outs: seq<OutBuf>

    ghost const Repr: set<object>

    /** All writers are usable and no two share an object or a buffer. */
    ghost predicate Valid() reads Repr {
      && |outs| == OCC_BUCKETS
      && (forall o :: o in outs ==> o in Repr && o.buf in Repr && o.Valid())
      && Separate(outs)
    }

    /** What each bucket file holds, buffered bytes included. */
    ghost function Contents(): (files: seq<seq<Byte>>)
      reads Repr
      requires Valid()
      ensures |files| == OCC_BUCKETS
      ensures forall b {:trigger files[b]} :: 0 <= b < |files| ==> outs[b] in outs && files[b] == outs[b].Contents()
    {
      ContentsBelow(OCC_BUCKETS)
    }

    ghost function ContentsBelow(k: nat): (files: seq<seq<Byte>>)
      reads Repr
      requires Valid() && k <= OCC_BUCKETS
      ensures |files| == k
      ensures forall b {:trigger files[b]} :: 0 <= b < k ==> outs[b] in outs && files[b] == outs[b].Contents()
    {
      if k == 0 then []
      else
        assert outs[k - 1] in outs;
        ContentsBelow(k - 1) + [outs[k - 1].Contents()]
    }

    constructor ()
      ensures Valid() && fresh(Repr)
      ensures forall b {:trigger Contents()[b]} :: 0 <= b < OCC_BUCKETS ==> Contents()[b] == []
    {
      hide Separate, ContentsBelow;
      SeparateNone();
      var made: seq<OutBuf> := [];
      ghost var repr: set<object> := {};
      while |made| < OCC_BUCKETS
        invariant |made| <= OCC_BUCKETS && Separate(made)
        invariant forall o {:trigger o in made} :: o in made ==>
          o in repr && o.buf in repr && o.Valid() && o.Contents() == []
        invariant fresh(repr)
      {
        var out := new OutBuf();
        assert forall o :: o in made ==> o != out && o.buf != out.buf;
        SeparateSnoc(made, out);
        made := made + [out];
        repr := repr + {out, out.buf};
      }
      outs := made;
      Repr := repr;
    }

    /** Append to one bucket; every other bucket is as it was. */
    method Write(b: nat, data: seq<Byte>)
      requires Valid() && b < OCC_BUCKETS
      modifies Repr
      ensures Valid() && Contents() == old(Contents())[b := old(Contents())[b] + data]
    {
      ghost var was := Contents();
      assert outs[b] in outs;
      outs[b].WriteData(data);
      forall i | 0 <= i < |outs|
        ensures outs[i].Valid() && outs[i].Contents() == was[b := was[b] + data][i]
      {
        assert outs[i] in outs && was[i] == old(outs[i].Contents());
        assert i != b ==> outs[i] != outs[b] && outs[i].buf != outs[b].buf;
      }
    }

    /** Flush every bucket; the descriptors then hold what had been written. */
    method FlushAll() returns (files: seq<seq<Byte>>)
      requires Valid()
      modifies Repr
      ensures Valid() && files == old(Contents())
    {
      ghost var was := Contents();
      files := [];
      while |files| < OCC_BUCKETS
        invariant Valid() && Contents() == was
        invariant |files| <= OCC_BUCKETS && files == was[..|files|]
      {
        var file := FlushOne(|files|);
        files := files + [file];
      }
    }

    method FlushOne(b: nat) returns (file: seq<Byte>)
      requires Valid() && b < OCC_BUCKETS
      modifies Repr
      ensures Valid() && Contents() == old(Contents()) && file == old(Contents())[b]
    {
      ghost var was := Contents();
      assert outs[b] in outs;
      outs[b].Flush();
      file := outs[b].file;
      forall i | 0 <= i < |outs| ensures outs[i].Valid() && outs[i].Contents() == was[i] {
        assert outs[i] in outs && was[i] == old(outs[i].Contents());
        assert i != b ==> outs[i] != outs[b] && outs[i].buf != outs[b].buf;
      }
    }
  }

  ghost predicate Separate(outs: seq<OutBuf>) {
    forall i, j :: 0 <= i < j < |outs| ==> outs[i] != outs[j] && outs[i].buf != outs[j].buf
  }

  lemma SeparateNone()
    ensures Separate([])
  {
  }

  lemma SeparateSnoc(outs: seq<OutBuf>, out: OutBuf)
    requires Separate(outs) && forall o :: o in outs ==> o != out && o.buf != out.buf
    ensures Separate(outs + [out])
  {
    forall i | 0 <= i < |outs| ensures outs[i] != out && outs[i].buf != out.buf {
      assert outs[i] in outs;
    }
  }
}
