/** How answers are printed (PA1/io.c:149-171, PA1/query.c:55-80): decimal numbers,
    "line:start " references, "line " numbers and the closing newline. */
module Output {
  import opened Bytes
  import opened Files

  const DIGIT_ZERO: Byte := 48

  function Decimal(n: nat): (r: seq<Byte>) {
    if n < 10 then [DIGIT_ZERO + n] else Decimal(n / 10) + [DIGIT_ZERO + n % 10]
  }

  /** Reading a digit string back, most significant digit first. */
  function ParseDecimal(s: seq<Byte>): int {
    if s == [] then 0 else ParseDecimal(s[..|s| - 1]) * 10 + (s[|s| - 1] - DIGIT_ZERO)
  }

  /** The printed form determines the number, holds digits only and has no leading zero. */
  lemma {:induction false} DecimalRoundTrip(n: nat)
    ensures ParseDecimal(Decimal(n)) == n
    ensures Decimal(n) != [] && (forall c :: c in Decimal(n) ==> 48 <= c <= 57)
    ensures Decimal(n)[0] == DIGIT_ZERO ==> n == 0
  {
    if n >= 10 {
      DecimalRoundTrip(n / 10);
      var front, last := Decimal(n / 10), [DIGIT_ZERO + n % 10];
      assert (front + last)[..|front + last| - 1] == front;
    }
  }

  function Reversed(s: seq<Byte>): (r: seq<Byte>)
    ensures |r| == |s|
  {
    if s == [] then [] else [s[|s| - 1]] + Reversed(s[..|s| - 1])
  }

  /** The largest value left after `k` divisions of a 32-bit number by ten. */
  function Quotient(k: nat): nat {
    if k == 0 then U32_LIMIT - 1 else Quotient(k - 1) / 10
  }

  lemma {:induction false} QuotientVanishes(k: nat)
    ensures 10 <= k ==> Quotient(k) == 0
  {
    if k == 10 {
      assert Quotient(5) == 42949;
    } else if k > 10 {
      QuotientVanishes(k - 1);
    }
  }

  /** The digits still to be split off `v`; none once it has become zero. */
  function Digits(v: nat): seq<Byte> {
    if v == 0 then [] else Decimal(v)
  }

  lemma DigitStep(v: nat, ds: seq<Byte>)
    requires v > 0
    ensures Digits(v) + Reversed(ds) == Digits(v / 10) + Reversed(ds + [DIGIT_ZERO + v % 10])
  {
    var d := [DIGIT_ZERO + v % 10];
    assert (ds + d)[..|ds|] == ds;
    ConcatAssoc(Digits(v / 10), d, Reversed(ds));
    assert Decimal(v) == Digits(v / 10) + d;
  }

  method WriteByte(out: OutBuf, c: Byte)
    requires out.Valid()
    modifies out, out.buf
    ensures out.Valid() && out.Contents() == old(out.Contents()) + [c]
  {
    out.WriteData([c]);
  }

  method PutDigit(digits: array<Byte>, len: nat, d: Byte)
    requires len < digits.Length
    modifies digits
    ensures digits[..len + 1] == old(digits[..len]) + [d]
  {
    digits[len] := d;
  }

  /** The digits of `value`, least significant first, in a 16-byte scratch array. */
  method SplitDigits(value: U32) returns (digits: array<Byte>, len: nat)
    ensures fresh(digits) && len <= digits.Length
    ensures Reversed(digits[..len]) == Decimal(value)
  {
    digits := new Byte[16];
    len := 0;
    if value == 0 {
      digits[0] := DIGIT_ZERO;
      len := 1;
      assert digits[..1] == [DIGIT_ZERO];
    } else {
      var v: nat := value;
      while v > 0
        invariant len <= 10 && v <= Quotient(len)
        invariant Decimal(value) == Digits(v) + Reversed(digits[..len])
      {
        QuotientVanishes(len);
        DigitStep(v, digits[..len]);
        PutDigit(digits, len, DIGIT_ZERO + v % 10);
        len := len + 1;
        v := v / 10;
      }
    }
  }

  method WriteU32(out: OutBuf, value: U32)
    requires out.Valid()
    modifies out, out.buf
    ensures out.Valid() && out.Contents() == old(out.Contents()) + Decimal(value)
  {
    var digits, len := SplitDigits(value);
    ghost var all := digits[..len];
    while len > 0
      invariant len <= digits.Length && digits[..len] <= all
      invariant out.Valid()
      invariant out.Contents() + Reversed(digits[..len]) == old(out.Contents()) + Decimal(value)
    {
      ghost var before := out.Contents();
      assert digits[..len][..len - 1] == digits[..len - 1];
      len := len - 1;
      WriteByte(out, digits[len]);
      assert before + ([digits[len]] + Reversed(digits[..len])) == out.Contents() + Reversed(digits[..len]);
    }
  }

  /** One printed match: an occurrence or a line number. */
  datatype Item = Ref(line: nat, start: nat) | LineNo(line: nat)

  function RenderItem(item: Item): seq<Byte> {
    match item
    case Ref(line, start) => Decimal(line) + [COLON] + Decimal(start) + [SPACE]
    case LineNo(line) => Decimal(line) + [SPACE]
  }

  function RenderEach(items: seq<Item>): (cells: seq<seq<Byte>>)
    ensures |cells| == |items|
    ensures forall i :: 0 <= i < |items| ==> cells[i] == RenderItem(items[i])
  {
    seq(|items|, i requires 0 <= i < |items| => RenderItem(items[i]))
  }

  function Render(items: seq<Item>): seq<Byte> {
    Flatten(RenderEach(items))
  }

  lemma RenderConcat(a: seq<Item>, b: seq<Item>)
    ensures Render(a + b) == Render(a) + Render(b)
  {
    assert RenderEach(a + b) == RenderEach(a) + RenderEach(b);
    FlattenConcat(RenderEach(a), RenderEach(b));
  }

  lemma RenderOne(item: Item)
    ensures Render([item]) == RenderItem(item)
  {
    assert RenderEach([item]) == [] + [RenderItem(item)];
    FlattenSnoc([], RenderItem(item));
  }

  method EmitBlankLine(out: OutBuf)
    requires out.Valid()
    modifies out, out.buf
    ensures out.Valid() && out.Contents() == old(out.Contents()) + [NEWLINE]
  {
    WriteByte(out, NEWLINE);
  }

  method EmitLineRef(out: OutBuf, line: U32, start: U32)
    requires out.Valid()
    modifies out, out.buf
    ensures out.Valid() && out.Contents() == old(out.Contents()) + RenderItem(Ref(line, start))
  {
    ghost var was := out.Contents();
    WriteU32(out, line);
    WriteByte(out, COLON);
    WriteU32(out, start);
    WriteByte(out, SPACE);
    RefPieces(was, line, start);
  }

  lemma RefPieces(was: seq<Byte>, line: nat, start: nat)
    ensures was + Decimal(line) + [COLON] + Decimal(start) + [SPACE] == was + RenderItem(Ref(line, start))
  {
    Concat4(was, Decimal(line), [COLON], Decimal(start), [SPACE]);
  }

  method EmitLineNo(out: OutBuf, line: U32)
    requires out.Valid()
    modifies out, out.buf
    ensures out.Valid() && out.Contents() == old(out.Contents()) + RenderItem(LineNo(line))
  {
    WriteU32(out, line);
    WriteByte(out, SPACE);
  }
}
