/** Byte helpers of the search engine (PA1/util.c): ASCII case folding, word
    separators, the case-insensitive FNV-1a hash and slice comparisons. */
module Bytes {

  type Byte = b: int | 0 <= b < 256

  /** The source's `u32`; arithmetic that can leave the range wraps explicitly. */
  const U32_LIMIT := 0x1_0000_0000
  type U32 = n: int | 0 <= n < 0x1_0000_0000

  const TAB: Byte := 9
  const NEWLINE: Byte := 10
  const SPACE: Byte := 32
  const QUOTE: Byte := 34
  const STAR: Byte := 42
  const COLON: Byte := 58

  function AsciiLower(c: Byte): Byte {
    if 65 <= c <= 90 then c - 65 + 97 else c
  }

  predicate IsWordSep(c: Byte) {
    c == SPACE || c == TAB
  }

  /** A byte string with every ASCII letter folded to lower case. */
  function Lower(s: seq<Byte>): (r: seq<Byte>)
    ensures |r| == |s|
    ensures forall i :: 0 <= i < |s| ==> r[i] == AsciiLower(s[i])
  {
    seq(|s|, i requires 0 <= i < |s| => AsciiLower(s[i]))
  }

  /** Bitwise exclusive or. */
  function Xor(a: nat, b: nat): nat {
    if a == 0 then b
    else if b == 0 then a
    else (a + b) % 2 + 2 * Xor(a / 2, b / 2)
  }

  function HashStep(hash: U32, c: Byte): U32 {
    Xor(hash, c) * 16777619 % U32_LIMIT
  }

  /** FNV-1a over the bytes as they are; `HashLowerBytes` applies it to the folded slice. */
  function HashOf(s: seq<Byte>): U32 {
    if s == [] then 2166136261
    else HashStep(HashOf(s[..|s| - 1]), s[|s| - 1])
  }

  method HashLowerBytes(data: seq<Byte>) returns (hash: U32)
    ensures hash == HashOf(Lower(data))
  {
    hash := 2166136261;
    var i := 0;
    while i < |data|
      invariant 0 <= i <= |data|
      invariant hash == HashOf(Lower(data)[..i])
    {
      hash := HashStep(hash, AsciiLower(data[i]));
      assert Lower(data)[..i + 1][..i] == Lower(data)[..i];
      i := i + 1;
    }
    assert Lower(data)[..i] == Lower(data);
  }

  lemma ConcatAssoc<T>(a: seq<T>, b: seq<T>, c: seq<T>)
    ensures a + (b + c) == (a + b) + c
  {
  }

  lemma Concat4<T>(w: seq<T>, a: seq<T>, b: seq<T>, c: seq<T>, d: seq<T>)
    ensures w + a + b + c + d == w + (a + b + c + d)
  {
    ConcatAssoc(w, a, b);
    ConcatAssoc(w, a + b, c);
    ConcatAssoc(w, a + b + c, d);
  }

  /** `now` is `base` and then a front part of `full`. */
  ghost predicate Within(base: seq<Byte>, full: seq<Byte>, now: seq<Byte>) {
    base <= now <= base + full
  }

  lemma WithinConcat(base: seq<Byte>, a: seq<Byte>, b: seq<Byte>)
    ensures Within(base, a + b, base + a)
  {
    ConcatAssoc(base, a, b);
  }

  lemma NothingWithin(base: seq<Byte>, full: seq<Byte>)
    ensures Within(base, full, base)
  {
  }

  method CaseEqualBytes(a: seq<Byte>, b: seq<Byte>) returns (equal: bool)
    requires |a| == |b|
    ensures equal <==> Lower(a) == Lower(b)
  {
    var i := 0;
    while i < |a|
      invariant 0 <= i <= |a|
      invariant forall k :: 0 <= k < i ==> AsciiLower(a[k]) == AsciiLower(b[k])
    {
      if AsciiLower(a[i]) != AsciiLower(b[i]) {
        assert Lower(a)[i] != Lower(b)[i];
        return false;
      }
      i := i + 1;
    }
    return true;
  }

  method ContainsChar(data: seq<Byte>, needle: Byte) returns (found: bool)
    ensures found <==> needle in data
  {
    var i := 0;
    while i < |data|
      invariant 0 <= i <= |data|
      invariant needle !in data[..i]
    {
      if data[i] == needle {
        return true;
      }
      i := i + 1;
    }
    return false;
  }

  /** Cell by cell: the destination range holds what the source range held, the rest stayed. */
  ghost predicate Moved(was: seq<Byte>, now: seq<Byte>, dst: nat, src: nat, lo: nat, hi: nat) {
    && |now| == |was| && src + hi <= |was|
    && (forall k {:trigger now[k]} :: 0 <= k < |now| ==>
          now[k] == if dst + lo <= k < dst + hi then was[k - dst + src] else was[k])
  }

  lemma MovedAll(was: seq<Byte>, now: seq<Byte>, dst: nat, src: nat, len: nat)
    requires Moved(was, now, dst, src, 0, len) && dst + len <= |was|
    ensures now == was[..dst] + was[src..src + len] + was[dst + len..]
  {
  }

  method MoveDown(buf: array<Byte>, dst: nat, src: nat, len: nat)
    requires dst < src && src + len <= buf.Length
    modifies buf
    ensures Moved(old(buf[..]), buf[..], dst, src, 0, len)
  {
    ghost var was := buf[..];
    var i := 0;
    while i < len
      invariant i <= len && Moved(was, buf[..], dst, src, 0, i)
    {
      assert buf[..][src + i] == was[src + i];
      buf[dst + i] := buf[src + i];
      i := i + 1;
    }
  }

  method MoveUp(buf: array<Byte>, dst: nat, src: nat, len: nat)
    requires src < dst && dst + len <= buf.Length
    modifies buf
    ensures Moved(old(buf[..]), buf[..], dst, src, 0, len)
  {
    ghost var was := buf[..];
    var i: nat := len;
    while i > 0
      invariant i <= len && Moved(was, buf[..], dst, src, i, len)
    {
      assert buf[..][src + i - 1] == was[src + i - 1];
      buf[dst + i - 1] := buf[src + i - 1];
      i := i - 1;
    }
  }

  /** Overlap-safe move inside one buffer: the destination ends up holding what the
      source range held before, whichever way the two ranges overlap. */
  method MoveBytes(buf: array<Byte>, dst: nat, src: nat, len: nat)
    requires dst + len <= buf.Length && src + len <= buf.Length
    modifies buf
    ensures buf[..] == old(buf[..dst] + buf[src..src + len] + buf[dst + len..])
  {
    ghost var was := buf[..];
    if dst == src || len == 0 {
      return;
    }
    if dst < src {
      MoveDown(buf, dst, src, len);
    } else {
      MoveUp(buf, dst, src, len);
    }
    MovedAll(was, buf[..], dst, src, len);
  }

  /** The concatenation of a sequence of byte strings. */
  function Flatten(cells: seq<seq<Byte>>): seq<Byte> {
    if cells == [] then [] else Flatten(cells[..|cells| - 1]) + cells[|cells| - 1]
  }

  lemma FlattenSnoc(cells: seq<seq<Byte>>, cell: seq<Byte>)
    ensures Flatten(cells + [cell]) == Flatten(cells) + cell
  {
    assert (cells + [cell])[..|cells|] == cells;
  }

  lemma {:induction false} FlattenConcat(a: seq<seq<Byte>>, b: seq<seq<Byte>>)
    ensures Flatten(a + b) == Flatten(a) + Flatten(b)
  {
    if b == [] {
      assert a + b == a;
    } else {
      var n := |b| - 1;
      FlattenConcat(a, b[..n]);
      FlattenSnoc(a + b[..n], b[n]);
      assert a + b[..n] + [b[n]] == a + b;
      ConcatAssoc(Flatten(a), Flatten(b[..n]), b[n]);
    }
  }
}
