/** One producer and one consumer over the bounded queue with a mutex and two condition
    variables (week13/w13.c:75-90, week13/w13.c:95-162), one step per lock operation, test,
    queue access or signal. A wait ends only by a signal. */
module ProducerConsumer {
  import opened RingQueue

  datatype Owner = Free | Producer | Consumer

  /** Where a thread is within one call. `Rechecking` is the loop test after a wake-up. */
  datatype Pc = Outside | Checking | Asleep | Woken | Rechecking | Moving | Signaling | Leaving | Done

  /** `total` values are to be transferred; `taken` records what the consumer got. */
  datatype State = State(
    total: nat, capacity: nat, ring: Cells, put: nat, taken: seq<nat>,
    owner: Owner, producer: Pc, consumer: Pc)

  predicate Init(s: State) {
    && 0 < s.capacity && 0 < s.total
    && |s.ring.data| == s.capacity && s.ring.putIndex == s.ring.getIndex == s.ring.length == 0
    && s.put == 0 && s.taken == []
    && s.owner == Free && s.producer == Outside && s.consumer == Outside
  }

  // ------------------------------------------------ steps

  predicate Full(s: State) {
    s.ring.length == s.capacity
  }

  predicate Empty(s: State) {
    s.ring.length == 0
  }

  /** A signal wakes a thread only if it is asleep; otherwise it is lost. */
  function Wake(pc: Pc): Pc {
    if pc == Asleep then Woken else pc
  }

  function ProducerStep(s: State): State {
    match s.producer
    case Outside =>
      if s.put >= s.total then s.(producer := Done)
      else if s.owner == Free then s.(owner := Producer, producer := Checking)
      else s
    case Checking => if Full(s) then s.(owner := Free, producer := Asleep) else s.(producer := Moving)
    case Asleep => s
    case Woken => if s.owner == Free then s.(owner := Producer, producer := Rechecking) else s
    case Rechecking => if Full(s) then s.(owner := Free, producer := Asleep) else s.(producer := Moving)
    case Moving => s.(ring := PutInto(s.ring, s.put), put := s.put + 1, producer := Signaling)
    case Signaling => s.(consumer := Wake(s.consumer), producer := Leaving)
    case Leaving => s.(owner := Free, producer := Outside)
    case Done => s
  }

  function ConsumerStep(s: State): State {
    match s.consumer
    case Outside =>
      if |s.taken| >= s.total then s.(consumer := Done)
      else if s.owner == Free then s.(owner := Consumer, consumer := Checking)
      else s
    case Checking => if Empty(s) then s.(owner := Free, consumer := Asleep) else s.(consumer := Moving)
    case Asleep => s
    case Woken => if s.owner == Free then s.(owner := Consumer, consumer := Rechecking) else s
    case Rechecking => if Empty(s) then s.(owner := Free, consumer := Asleep) else s.(consumer := Moving)
    case Moving =>
      if s.ring.getIndex < |s.ring.data|
      then s.(ring := TakeFrom(s.ring), taken := s.taken + [s.ring.data[s.ring.getIndex]], consumer := Signaling)
      else s
    case Signaling => s.(producer := Wake(s.producer), consumer := Leaving)
    case Leaving => s.(owner := Free, consumer := Outside)
    case Done => s
  }

  /** One thread moves. */
  ghost predicate Step(s: State, t: State) {
    t != s && (t == ProducerStep(s) || t == ConsumerStep(s))
  }

  ghost predicate StepAt(states: seq<State>, i: nat) {
    0 < i < |states| && Step(states[i - 1], states[i])
  }

  ghost predicate IsRun(states: seq<State>) {
    && states != [] && Init(states[0])
    && (forall i: nat {:trigger StepAt(states, i)} :: 0 < i < |states| ==> StepAt(states, i))
  }

  // ------------------------------------------------ the invariant

  predicate Inside(pc: Pc) {
    pc == Checking || pc == Rechecking || pc == Moving || pc == Signaling || pc == Leaving
  }

  predicate LockOk(s: State) {
    && (s.owner == Producer <==> Inside(s.producer))
    && (s.owner == Consumer <==> Inside(s.consumer))
  }

  /** The values taken are 0.. and the queued ones follow them, up to the last put. */
  predicate ValuesOk(s: State) {
    && CellsOk(s.ring) && |s.ring.data| == s.capacity
    && |s.taken| + s.ring.length == s.put <= s.total
    && (forall i {:trigger s.taken[i]} :: 0 <= i < |s.taken| ==> s.taken[i] == i)
    && (forall i {:trigger Queued(s.ring)[i]} :: 0 <= i < s.ring.length ==> Queued(s.ring)[i] == |s.taken| + i)
  }

  predicate Busy(pc: Pc) {
    pc == Checking || pc == Asleep || pc == Woken || pc == Rechecking || pc == Moving
  }

  predicate CountsOk(s: State) {
    && (Busy(s.producer) ==> s.put < s.total)
    && (s.producer == Done ==> s.put == s.total)
    && (Busy(s.consumer) ==> |s.taken| < s.total)
    && (s.consumer == Done ==> |s.taken| == s.total)
  }

  /** No wake-up is lost: a sleeper's condition is still false, or its signal is on the way;
      a woken thread's condition holds and stays true. */
  predicate WakeupsOk(s: State) {
    && (s.producer == Asleep ==> Full(s) || s.consumer == Signaling)
    && (s.consumer == Asleep ==> Empty(s) || s.producer == Signaling)
    && (s.producer == Woken || s.producer == Rechecking || s.producer == Moving ==> !Full(s))
    && (s.consumer == Woken || s.consumer == Rechecking || s.consumer == Moving ==> !Empty(s))
    && (s.producer == Signaling ==> !Empty(s))
    && (s.consumer == Signaling ==> !Full(s))
  }

  predicate Inv(s: State) {
    0 < s.capacity && 0 < s.total && LockOk(s) && ValuesOk(s) && CountsOk(s) && WakeupsOk(s)
  }

  lemma PutValues(s: State)
    requires ValuesOk(s) && s.ring.length < s.capacity && s.put < s.total
    ensures ValuesOk(s.(ring := PutInto(s.ring, s.put), put := s.put + 1, producer := Signaling))
    ensures PutInto(s.ring, s.put).length == s.ring.length + 1
  {
    hide PutInto, CellsOk, Queued;
    PutRefines(s.ring, s.put);
  }

  lemma TakeValues(s: State)
    requires ValuesOk(s) && 0 < s.ring.length
    ensures s.ring.getIndex < |s.ring.data|
    ensures ValuesOk(s.(ring := TakeFrom(s.ring), taken := s.taken + [s.ring.data[s.ring.getIndex]],
      consumer := Signaling))
    ensures TakeFrom(s.ring).length == s.ring.length - 1
  {
    TakeRefines(s.ring);
    hide TakeFrom, Queued;
    var rest := Queued(TakeFrom(s.ring));
    forall i | 0 <= i < |rest| ensures rest[i] == |s.taken| + 1 + i {
      assert Queued(s.ring)[i + 1] == rest[i];
    }
    assert Queued(s.ring)[0] == s.ring.data[s.ring.getIndex];
  }

  lemma ProducerKeeps(s: State)
    requires Inv(s)
    ensures Inv(ProducerStep(s))
  {
    if s.producer == Moving {
      PutValues(s);
    }
    hide PutInto, TakeFrom, CellsOk, Queued;
  }

  lemma ConsumerKeeps(s: State)
    requires Inv(s)
    ensures Inv(ConsumerStep(s))
  {
    if s.consumer == Moving {
      TakeValues(s);
    }
    hide PutInto, TakeFrom, CellsOk, Queued;
  }

  lemma {:induction false} Always(states: seq<State>, i: nat)
    requires IsRun(states) && i < |states|
    ensures Inv(states[i])
  {
    if i > 0 {
      Always(states, i - 1);
      assert StepAt(states, i);
      ProducerKeeps(states[i - 1]);
      ConsumerKeeps(states[i - 1]);
    }
  }

  // ------------------------------------------------ consequences

  /** In every run the values taken are 0..g-1, the queued ones g..p-1, and at most
      `capacity` are queued. */
  lemma ValuesInOrder(states: seq<State>, i: nat)
    requires IsRun(states) && i < |states|
    ensures CellsOk(states[i].ring) && |states[i].taken| + states[i].ring.length == states[i].put
    ensures states[i].ring.length <= states[i].capacity
    ensures forall k :: 0 <= k < |states[i].taken| ==> states[i].taken[k] == k
    ensures forall k :: 0 <= k < states[i].ring.length ==> Queued(states[i].ring)[k] == |states[i].taken| + k
  {
    Always(states, i);
  }

  /** The two threads are never asleep together. */
  lemma NeverBothAsleep(states: seq<State>, i: nat)
    requires IsRun(states) && i < |states|
    ensures !(states[i].producer == Asleep && states[i].consumer == Asleep)
  {
    Always(states, i);
  }

  /** A woken thread never has to wait again: its recheck passes. */
  lemma WokenGoesOn(states: seq<State>, i: nat)
    requires IsRun(states) && i < |states|
    ensures states[i].producer == Rechecking ==> ProducerStep(states[i]).producer == Moving
    ensures states[i].consumer == Rechecking ==> ConsumerStep(states[i]).consumer == Moving
  {
    Always(states, i);
  }

  /** What each side has still to do within its present value. */
  function Rank(pc: Pc): nat {
    match pc
    case Signaling => 7
    case Leaving => 6
    case Outside => 5
    case Checking => 4
    case Asleep => 3
    case Woken => 2
    case Rechecking => 1
    case Moving => 0
    case Done => 0
  }

  function Measure(s: State): int {
    8 * (s.total - s.put) + Rank(s.producer) + 8 * (s.total - |s.taken|) + Rank(s.consumer)
  }

  lemma ProducerDecreases(s: State)
    requires Inv(s) && ProducerStep(s) != s
    ensures Measure(ProducerStep(s)) < Measure(s)
  {
  }

  lemma ConsumerDecreases(s: State)
    requires Inv(s) && ConsumerStep(s) != s
    ensures Measure(ConsumerStep(s)) < Measure(s)
  {
  }

  lemma MeasureBounded(s: State)
    requires Inv(s)
    ensures 0 <= Measure(s)
    ensures Init(s) ==> Measure(s) == 16 * s.total + 10
  {
  }

  lemma StepDecreases(s: State, t: State)
    requires Inv(s) && Step(s, t)
    ensures Measure(t) < Measure(s)
  {
    hide Inv, Measure, ProducerStep, ConsumerStep;
    if t == ProducerStep(s) {
      ProducerDecreases(s);
    } else {
      ConsumerDecreases(s);
    }
  }

  /** Every run is finite: it takes at most `16 * total + 10` steps. */
  lemma {:induction false} RunsEnd(states: seq<State>)
    requires IsRun(states)
    ensures |states| - 1 + Measure(states[|states| - 1]) <= 16 * states[0].total + 10
    ensures 0 <= Measure(states[|states| - 1])
    decreases |states|
  {
    hide Inv, Measure, Step, Init;
    var n := |states| - 1;
    Always(states, n);
    MeasureBounded(states[n]);
    if n > 0 {
      RunFront(states);
      RunsEnd(states[..n]);
      Always(states, n - 1);
      StepDecreases(states[n - 1], states[n]);
    }
  }

  lemma RunFront(states: seq<State>)
    requires IsRun(states) && 1 < |states|
    ensures IsRun(states[..|states| - 1]) && Step(states[|states| - 2], states[|states| - 1])
  {
    hide Step, Init;
    var front := states[..|states| - 1];
    forall i: nat | 0 < i < |front| ensures StepAt(front, i) {
      assert StepAt(states, i);
    }
    assert StepAt(states, |states| - 1);
  }

  /** A state without a step is the end: all values were taken, in order. */
  lemma StuckIsDone(s: State)
    requires Inv(s) && ProducerStep(s) == s && ConsumerStep(s) == s
    ensures s.producer == Done && s.consumer == Done
    ensures |s.taken| == s.total && Queued(s.ring) == [] && forall i :: 0 <= i < s.total ==> s.taken[i] == i
  {
  }
}
