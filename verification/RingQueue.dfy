/** The bounded ring buffer of week13/w13.c:6-16, week13/w13.c:95-162: a FIFO in a circular
    array whose indices go back to zero whenever it becomes empty. */
module RingQueue {

  lemma WrapOnce(i: nat, capacity: nat)
    requires 0 < capacity && i < 2 * capacity
    ensures i % capacity == Wrapped(i, capacity)
  {
    if i >= capacity {
      assert i == 1 * capacity + (i - capacity);
    }
  }

  /** `i % capacity` for an index less than two rounds away. */
  function Wrapped(i: nat, capacity: nat): int {
    if i < capacity then i else i - capacity
  }

  /** `length` cells of a circular array from `get` on. */
  function Window(cells: seq<nat>, get: nat, length: nat): (q: seq<nat>)
    requires get < |cells| && length <= |cells|
    ensures |q| == length
    ensures forall i {:trigger q[i]} :: 0 <= i < length ==> q[i] == cells[Wrapped(get + i, |cells|)]
  {
    seq(length, i requires 0 <= i < length => cells[Wrapped(get + i, |cells|)])
  }

  lemma WindowPut(cells: seq<nat>, get: nat, length: nat, value: nat)
    requires get < |cells| && length < |cells|
    ensures Window(cells[Wrapped(get + length, |cells|) := value], get, length + 1) ==
      Window(cells, get, length) + [value]
  {
  }

  lemma WindowGet(cells: seq<nat>, get: nat, length: nat)
    requires get < |cells| && 0 < length <= |cells|
    ensures Window(cells, get, length) == [cells[get]] + Window(cells, Wrapped(get + 1, |cells|), length - 1)
  {
    var rest := Window(cells, Wrapped(get + 1, |cells|), length - 1);
    var all := Window(cells, get, length);
    forall i | 0 < i < length ensures all[i] == ([cells[get]] + rest)[i] {
      assert rest[i - 1] == cells[Wrapped(Wrapped(get + 1, |cells|) + (i - 1), |cells|)];
    }
  }

  lemma WindowEmpty(cells: seq<nat>, get: nat)
    requires get < |cells|
    ensures Window(cells, get, 0) == []
  {
  }

  // ------------------------------------------------ the ring as a value

  /** The fields of the queue. */
  datatype Cells = Cells(data: seq<nat>, putIndex: nat, getIndex: nat, length: nat)

  predicate CellsOk(c: Cells) {
    && c.getIndex < |c.data| && c.length <= |c.data|
    && c.putIndex == Wrapped(c.getIndex + c.length, |c.data|)
    && (c.length == 0 ==> c.getIndex == 0)
  }

  /** The queued values, oldest first. */
  function Queued(c: Cells): (q: seq<nat>)
    requires CellsOk(c)
    ensures |q| == c.length
  {
    Window(c.data, c.getIndex, c.length)
  }

  function PutInto(c: Cells, value: nat): Cells {
    if c.putIndex < |c.data| then
      Cells(c.data[c.putIndex := value], (c.putIndex + 1) % |c.data|, c.getIndex, c.length + 1)
    else c
  }

  function TakeFrom(c: Cells): Cells {
    if c.data == [] || c.length == 0 then c
    else if c.length == 1 then Cells(c.data, 0, 0, 0)
    else Cells(c.data, c.putIndex, (c.getIndex + 1) % |c.data|, c.length - 1)
  }

  lemma PutRefines(c: Cells, value: nat)
    requires CellsOk(c) && c.length < |c.data|
    ensures CellsOk(PutInto(c, value)) && Queued(PutInto(c, value)) == Queued(c) + [value]
    ensures |PutInto(c, value).data| == |c.data| && PutInto(c, value).length == c.length + 1
  {
    WrapOnce(c.putIndex + 1, |c.data|);
    WindowPut(c.data, c.getIndex, c.length, value);
  }

  lemma TakeRefines(c: Cells)
    requires CellsOk(c) && 0 < c.length
    ensures CellsOk(TakeFrom(c)) && Queued(c) == [c.data[c.getIndex]] + Queued(TakeFrom(c))
    ensures |TakeFrom(c).data| == |c.data| && TakeFrom(c).length == c.length - 1
  {
    WrapOnce(c.getIndex + 1, |c.data|);
    WindowGet(c.data, c.getIndex, c.length);
    if c.length == 1 {
      WindowEmpty(c.data, 0);
      WindowEmpty(c.data, Wrapped(c.getIndex + 1, |c.data|));
    }
  }

  // ------------------------------------------------ the ring in place

  class Ring {
    const capacity: nat
    const data: array<nat>
    var putIndex: nat
    var getIndex: nat
    var length: nat

    ghost function Now(): Cells
      reads this, data
    {
      Cells(data[..], putIndex, getIndex, length)
    }

    ghost predicate Valid()
      reads this, data
    {
      0 < capacity == data.Length && CellsOk(Now())
    }

    ghost function Contents(): seq<nat>
      reads this, data
      requires Valid()
    {
      Queued(Now())
    }

    constructor (capacity: nat)
      requires 0 < capacity
      ensures Valid() && Contents() == [] && this.capacity == capacity && fresh(data)
    {
      this.capacity := capacity;
      data := new nat[capacity](_ => 0);
      putIndex, getIndex, length := 0, 0, 0;
    }

    method Put(value: nat)
      requires Valid() && length < capacity
      modifies this, data
      ensures Valid() && Now() == PutInto(old(Now()), value)
      ensures Contents() == old(Contents()) + [value]
    {
      PutRefines(Now(), value);
      ghost var cells := data[..];
      data[putIndex] := value;
      assert data[..] == cells[putIndex := value];
      putIndex := (putIndex + 1) % capacity;
      length := length + 1;
    }

    method Get() returns (value: nat)
      requires Valid() && 0 < length
      modifies this
      ensures Valid() && Now() == TakeFrom(old(Now()))
      ensures old(Contents()) == [value] + Contents()
    {
      TakeRefines(Now());
      value := data[getIndex];
      getIndex := (getIndex + 1) % capacity;
      length := length - 1;
      if length == 0 {
        getIndex, putIndex := 0, 0;
      }
    }
  }
}
