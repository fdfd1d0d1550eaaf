/** A printed answer can be read back: numbers up to a space are lines, numbers around a
    colon are references (PA1/query.c:55-80). The reader knows nothing of how items are
    printed. */
module ReadBack {
  import opened Bytes
  import opened Output
  import opened Options

  predicate IsDigit(c: Byte) {
    48 <= c <= 57
  }

  /** How many digits `s` begins with. */
  function DigitRun(s: seq<Byte>): (k: nat)
    ensures k <= |s| && (forall i :: 0 <= i < k ==> IsDigit(s[i])) && (k < |s| ==> !IsDigit(s[k]))
  {
    if s == [] || !IsDigit(s[0]) then 0 else 1 + DigitRun(s[1..])
  }

  /** The number a digit string writes. */
  function Number(ds: seq<Byte>): nat {
    if ds == [] || !IsDigit(ds[|ds| - 1]) then 0
    else
      var last: int := ds[|ds| - 1];
      10 * Number(ds[..|ds| - 1]) + (last - 48)
  }

  /** The item `s` begins with, and its length: `12 ` is line 12, `12:3 ` is place 3 of line 12. */
  function ReadOne(s: seq<Byte>): (r: Option<(Item, nat)>)
    ensures r.Some? ==> 0 < r.value.1 <= |s|
  {
    var k := DigitRun(s);
    if k == 0 || k == |s| then None
    else if s[k] == 32 then Some((LineNo(Number(s[..k])), k + 1))
    else if s[k] != 58 then None
    else
      var n := DigitRun(s[k + 1..]);
      if n == 0 || k + 1 + n == |s| || s[k + 1 + n] != 32 then None
      else Some((Ref(Number(s[..k]), Number(s[k + 1..k + 1 + n])), k + n + 2))
  }

  /** The items of an answer: nothing but items, then the newline. */
  function ReadAnswer(s: seq<Byte>): Option<seq<Item>> {
    if s == [10] then Some([])
    else
      match ReadOne(s)
      case None => None
      case Some(first) =>
        var rest := ReadAnswer(s[first.1..]);
        if rest.None? then None else Some([first.0] + rest.value)
  }

  lemma {:induction false} NumberIs(ds: seq<Byte>)
    requires forall i :: 0 <= i < |ds| ==> IsDigit(ds[i])
    ensures Number(ds) == ParseDecimal(ds)
  {
    if ds != [] {
      NumberIs(ds[..|ds| - 1]);
    }
  }

  predicate DigitAt(s: seq<Byte>, i: int) {
    0 <= i < |s| && IsDigit(s[i])
  }

  lemma RunEnds(ds: seq<Byte>, rest: seq<Byte>)
    requires forall i :: 0 <= i < |ds| ==> IsDigit(ds[i])
    requires rest != [] && !IsDigit(rest[0])
    ensures DigitRun(ds + rest) == |ds|
  {
    var s := ds + rest;
    var k := DigitRun(s);
    assert DigitAt(ds, k) ==> DigitAt(s, k);
    assert !DigitAt(s, |ds|);
  }

  /** A printed number before something else is read back as that number. */
  lemma NumberRead(n: nat, rest: seq<Byte>)
    requires rest != [] && !IsDigit(rest[0])
    ensures var s, k := Decimal(n) + rest, |Decimal(n)|;
      && DigitRun(s) == k && 0 < k < |s| && s[k] == rest[0] && s[k + 1..] == rest[1..]
      && s[..k] == Decimal(n) && Number(Decimal(n)) == n
  {
    DecimalRoundTrip(n);
    assert forall i :: 0 <= i < |Decimal(n)| ==> Decimal(n)[i] in Decimal(n);
    NumberIs(Decimal(n));
    RunEnds(Decimal(n), rest);
  }

  lemma LineRead(line: nat, rest: seq<Byte>)
    ensures ReadOne(RenderItem(LineNo(line)) + rest) == Some((LineNo(line), |RenderItem(LineNo(line))|))
  {
    hide Decimal, Number, DigitRun;
    var tail := [SPACE] + rest;
    NumberRead(line, tail);
    assert RenderItem(LineNo(line)) + rest == Decimal(line) + tail;
  }

  /** The two numbers of a reference and what is between and behind them. */
  lemma RefLayout(a: seq<Byte>, b: seq<Byte>, rest: seq<Byte>)
    ensures var s, tail := a + [COLON] + b + [SPACE] + rest, [COLON] + (b + ([SPACE] + rest));
      && s == a + tail && tail[1..] == b + ([SPACE] + rest)
      && s[|a| + 1..] == b + ([SPACE] + rest) && s[|a| + 1..|a| + 1 + |b|] == b && s[|a| + 1 + |b|] == SPACE
  {
  }

  lemma RefStep(s: seq<Byte>, k: nat, n: nat)
    requires 0 < k && 0 < n && k + 1 + n < |s| && DigitRun(s) == k && s[k] == COLON
    requires DigitRun(s[k + 1..]) == n && s[k + 1 + n] == SPACE
    ensures ReadOne(s) == Some((Ref(Number(s[..k]), Number(s[k + 1..k + 1 + n])), k + n + 2))
  {
    hide Number, DigitRun;
  }

  lemma RefRead(line: nat, start: nat, rest: seq<Byte>)
    ensures ReadOne(RenderItem(Ref(line, start)) + rest) == Some((Ref(line, start), |RenderItem(Ref(line, start))|))
  {
    hide Decimal, Number, DigitRun, ReadOne;
    var a, b := Decimal(line), Decimal(start);
    RefLayout(a, b, rest);
    NumberRead(line, [COLON] + (b + ([SPACE] + rest)));
    NumberRead(start, [SPACE] + rest);
    assert RenderItem(Ref(line, start)) == a + [COLON] + b + [SPACE];
    RefStep(a + [COLON] + b + [SPACE] + rest, |a|, |b|);
  }

  /** A printed item before anything else is read first. */
  lemma ItemRead(item: Item, rest: seq<Byte>)
    requires rest != [] && ReadAnswer(rest).Some?
    ensures ReadAnswer(RenderItem(item) + rest) == Some([item] + ReadAnswer(rest).value)
  {
    hide RenderItem, ReadOne;
    assert (RenderItem(item) + rest)[|RenderItem(item)|..] == rest;
    match item
    case LineNo(line) => LineRead(line, rest);
    case Ref(line, start) => RefRead(line, start, rest);
  }

  /** What is printed determines the items: reading an answer back gives them all. */
  lemma {:induction false} ItemsReadBack(items: seq<Item>)
    ensures ReadAnswer(Render(items) + [NEWLINE]) == Some(items)
  {
    hide ReadAnswer, RenderItem, Render;
    if items == [] {
      NothingRead();
    } else {
      var first, rest := items[0], items[1..];
      ItemsReadBack(rest);
      assert [first] + rest == items;
      RenderConcat([first], rest);
      RenderOne(first);
      ConcatAssoc(RenderItem(first), Render(rest), [NEWLINE]);
      ItemRead(first, Render(rest) + [NEWLINE]);
    }
  }

  lemma NothingRead()
    ensures ReadAnswer(Render([]) + [NEWLINE]) == Some([])
  {
    assert Render([]) + [NEWLINE] == [NEWLINE];
  }
}
