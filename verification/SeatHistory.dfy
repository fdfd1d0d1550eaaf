/** Each seat's history alternates a booking and a cancellation by the same user, and the
    counters agree with it whenever the seat is not being changed
    (PA3/server/handle_request.c:165-183, PA3/server/handle_request.c:261-277). */
module SeatHistory {
  import opened Options
  import opened ServerTables
  import opened Reservation
  import opened LockDiscipline
  import opened ThreadFacts
  import opened ThreadMoves
  import opened ServerCore

  /** Who holds the seat after these events; nothing if they are out of order. */
  function Replay(log: seq<Event>): Option<Option<Name>> {
    if log == [] then Some(None)
    else
      var before := Replay(log[..|log| - 1]);
      match log[|log| - 1]
      case BookedBy(name) => if before == Some(None) then Some(Some(name)) else None
      case CanceledBy(name) => if before == Some(Some(name)) then Some(None) else None
  }

  function Books(log: seq<Event>): nat {
    if log == [] then 0 else Books(log[..|log| - 1]) + if log[|log| - 1].BookedBy? then 1 else 0
  }

  function Cancels(log: seq<Event>): nat {
    if log == [] then 0 else Cancels(log[..|log| - 1]) + if log[|log| - 1].CanceledBy? then 1 else 0
  }

  lemma LogStep(log: seq<Event>, e: Event)
    ensures Books(log + [e]) == Books(log) + if e.BookedBy? then 1 else 0
    ensures Cancels(log + [e]) == Cancels(log) + if e.CanceledBy? then 1 else 0
    ensures Replay(log) == Some(if e.BookedBy? then None else Some(e.name)) ==>
      Replay(log + [e]) == Some(HolderAfter(e))
  {
    assert (log + [e])[..|log|] == log;
  }

  /** Bookings minus cancellations is 1 for a held seat and 0 for a free one. */
  lemma {:induction false} Balance(log: seq<Event>)
    requires Replay(log).Some?
    ensures Books(log) == Cancels(log) + if Replay(log).value.Some? then 1 else 0
  {
    if log != [] {
      Balance(log[..|log| - 1]);
    }
  }

  /** Events alternate: every cancellation follows a booking by the same user. */
  lemma {:induction false} Alternates(log: seq<Event>, i: nat)
    requires Replay(log).Some? && i < |log|
    ensures i % 2 == 0 <==> log[i].BookedBy?
    ensures log[i].CanceledBy? ==> 0 < i && log[i - 1] == BookedBy(log[i].name)
    ensures |log| % 2 == 0 <==> Replay(log).value.None?
    decreases |log|
  {
    var n := |log| - 1;
    ReplayPrefix(log);
    if i < n {
      Alternates(log[..n], i);
      Alternates(log[..n], n - 1);
    } else if n > 0 {
      Alternates(log[..n], n - 1);
      LastEvent(log[..n]);
    }
  }

  lemma ReplayPrefix(log: seq<Event>)
    requires Replay(log).Some? && log != []
    ensures Replay(log[..|log| - 1]).Some?
  {
  }

  lemma LastEvent(log: seq<Event>)
    requires Replay(log).Some? && log != []
    ensures Replay(log).value == HolderAfter(log[|log| - 1])
  {
  }

  // ------------------------------------------------ counters

  /** The event whose counter is still due at seat `k`. */
  function Due(s: State, k: nat): Option<Event> {
    if SeatLock(k) in s.owner && s.owner[SeatLock(k)].Worker? && s.owner[SeatLock(k)].w < |s.pcs|
    then DueAt(s.pcs[s.owner[SeatLock(k)].w])
    else None
  }

  function DueAt(pc: Pc): Option<Event> {
    if pc.Handling? && pc.stage.Counting? then Some(EventOf(pc.task.req)) else None
  }

  function EventOf(req: Request): Event {
    if req.Book? then BookedBy(UserName(req)) else CanceledBy(UserName(req))
  }

  ghost predicate SeatOk(seat: Seat, due: Option<Event>) {
    var dueBook := if due.Some? && due.value.BookedBy? then 1 else 0;
    var dueCancel := if due.Some? && due.value.CanceledBy? then 1 else 0;
    && Replay(seat.log) == Some(seat.holder)
    && dueBook <= Books(seat.log) && dueCancel <= Cancels(seat.log)
    && seat.booked == (Books(seat.log) - dueBook) % U64_LIMIT
    && seat.canceled == (Cancels(seat.log) - dueCancel) % U64_LIMIT
  }

  ghost predicate SeatsOk(s: State) {
    forall k {:trigger s.seats[k]} :: 0 <= k < |s.seats| ==> SeatOk(s.seats[k], Due(s, k))
  }

  /** How a move of a program bears on the counters. */
  ghost predicate CountingMove(pc: Pc, m: Move) {
    if DueAt(pc).Some? then
      m.sync == NoSync && m.effect == Count(pc.stage.k, DueAt(pc).value) && DueAt(m.next).None?
    else if DueAt(m.next).Some? then
      m.sync == NoSync && Locks(pc).seat == Some(m.next.stage.k)
        && m.effect == SetHolder(m.next.stage.k, DueAt(m.next).value)
    else
      !m.effect.SetHolder? && !m.effect.Count?
  }

  lemma SeatCounting(s: State, task: Task, stage: Stage)
    requires AtSeats(stage)
    ensures CountingMove(Handling(task, stage), SeatStageMove(s, task, stage))
  {
  }

  lemma EntryCounting(s: State, task: Task, stage: Stage, active: Option<Name>)
    requires !AtSeats(stage)
    ensures CountingMove(Handling(task, stage), EntryMove(s, task, stage, active))
  {
    hide FindUser, Precheck;
  }

  lemma ProgramCounting(s: State, w: nat, c: Choice)
    requires w < |s.pcs| == |s.sets|
    ensures CountingMove(s.pcs[w], Program(s, w, c))
  {
    hide EntryMove, SeatStageMove, FindFd, FindUser, Locks;
    match s.pcs[w]
    case Handling(task, stage) =>
      hide CountingMove;
      if AtSeats(stage) {
        SeatCounting(s, task, stage);
      } else {
        EntryCounting(s, task, stage, if task.slot < |s.sets[w]| then s.sets[w][task.slot].active else None);
      }
    case other =>
  }

  // ------------------------------------------------ steps

  lemma SeatLockIs(s: State, w: nat, k: nat)
    requires LocksOk(s) && w < |s.pcs|
    ensures Locks(s.pcs[w]).seat == Some(k) <==> SeatLock(k) in s.owner && s.owner[SeatLock(k)] == Worker(w)
  {
    assert Has(Locks(s.pcs[w]), w, SeatLock(k)) <==> OwnedBy(s.owner, SeatLock(k), Worker(w));
  }

  lemma CountingLock(pc: Pc)
    ensures DueAt(pc).Some? ==> Locks(pc).seat == Some(pc.stage.k)
  {
  }

  /** Which counters are due after a move: only the mover's seat can change. */
  lemma DueStep(s: State, t: State, w: nat, m: Move, k: nat)
    requires LocksOk(s) && w < |s.pcs| && CountingMove(s.pcs[w], m) && Orderly(w, s.pcs[w], m)
    requires m.sync.Acquire? ==> m.sync.lock !in s.owner
    requires t.owner == SyncOwner(s.owner, Worker(w), m.sync) && t.pcs == s.pcs[w := m.next]
    ensures Due(s, k) != Due(t, k) ==> Locks(s.pcs[w]).seat == Some(k)
    ensures Locks(s.pcs[w]).seat == Some(k) ==> Due(s, k) == DueAt(s.pcs[w]) && Due(t, k) == DueAt(m.next)
  {
    SeatLockIs(s, w, k);
    CountingLock(s.pcs[w]);
    CountingLock(m.next);
    hide Locks, LocksOk, Orderly;
  }

  lemma BookCounted(seat: Seat, e: Event)
    requires SeatOk(seat, Some(e))
    ensures e.BookedBy? ==> SeatOk(seat.(booked := (seat.booked + 1) % U64_LIMIT), None)
    ensures e.CanceledBy? ==> SeatOk(seat.(canceled := (seat.canceled + 1) % U64_LIMIT), None)
  {
    if e.BookedBy? {
      WrapStep(Books(seat.log) - 1);
    } else {
      WrapStep(Cancels(seat.log) - 1);
    }
  }

  lemma WrapStep(n: nat)
    ensures (n % U64_LIMIT + 1) % U64_LIMIT == (n + 1) % U64_LIMIT
  {
  }

  lemma HolderChanged(seat: Seat, e: Event)
    requires SeatOk(seat, None) && seat.holder == (if e.BookedBy? then None else Some(e.name))
    ensures SeatOk(seat.(holder := HolderAfter(e), log := seat.log + [e]), Some(e))
  {
    LogStep(seat.log, e);
  }

  lemma SeatStep(s: State, t: State, w: nat, m: Move, k: nat)
    requires LocksOk(s) && w < |s.pcs| && CountingMove(s.pcs[w], m) && Orderly(w, s.pcs[w], m)
    requires EffectOk(s.users, s.seats, s.sets[w], s.pcs[w], m) && SeatsOk(s) && k < |s.seats|
    requires m.sync.Acquire? ==> m.sync.lock !in s.owner
    requires t.owner == SyncOwner(s.owner, Worker(w), m.sync) && t.pcs == s.pcs[w := m.next]
    requires t.seats == SeatsAfter(s.seats, m.effect)
    ensures |t.seats| == |s.seats| && SeatOk(t.seats[k], Due(t, k))
  {
    DueStep(s, t, w, m, k);
    CountingLock(s.pcs[w]);
    hide Locks, LocksOk, Orderly, Due, SeatOk;
    assert SeatOk(s.seats[k], Due(s, k));
    if m.effect.Count? && m.effect.k == k {
      BookCounted(s.seats[k], m.effect.event);
    } else if m.effect.SetHolder? && m.effect.k == k {
      HolderChanged(s.seats[k], m.effect.event);
    }
  }

  lemma SeatsWorkerStep(s: State, w: nat, c: Choice)
    requires CoreOk(s) && SeatsOk(s) && w < |s.pcs|
    ensures SeatsOk(WorkerStep(s, w, c))
  {
    WorkerMoveOk(s, w, c);
    hide Program, Apply, FactsOk, LocksOk, EffectOk, CountingMove, Orderly, SeatOk, Due, Locks;
    var m := Program(s, w, c);
    if m.sync.Acquire? && m.sync.lock in s.owner {
      return;
    }
    var t := Apply(s, w, m);
    ApplyTables(s, w, m);
    ApplyShape(s, w, m);
    ProgramCounting(s, w, c);
    ProgramOrderly(s, w, c);
    SeatCount(s.seats, m.effect);
    forall k | 0 <= k < |t.seats| ensures SeatOk(t.seats[k], Due(t, k)) {
      SeatStep(s, t, w, m, k);
    }
  }

  lemma SeatCount(seats: seq<Seat>, e: Effect)
    ensures |SeatsAfter(seats, e)| == |seats|
  {
  }

  lemma SeatsMainStep(s: State, fd: nat)
    requires CoreOk(s) && SeatsOk(s)
    ensures SeatsOk(MainStep(s, fd))
  {
    hide MainStep, LocksOk, SeatOk, MainOk, SetsOk;
    var t := MainStep(s, fd);
    MainTables(s, fd);
    forall k | 0 <= k < |t.seats| ensures SeatOk(t.seats[k], Due(t, k)) {
      MainKeepsSeatOwner(s, fd, k);
    }
  }

  lemma MainKeepsSeatOwner(s: State, fd: nat, k: nat)
    ensures var t := MainStep(s, fd);
      && (SeatLock(k) in t.owner <==> SeatLock(k) in s.owner)
      && (SeatLock(k) in s.owner ==> t.owner[SeatLock(k)] == s.owner[SeatLock(k)])
  {
    hide IsWake, Better;
  }

  lemma SeatsInit(s: State)
    requires Init(s)
    ensures SeatsOk(s)
  {
  }

  /** While a seat's mutex is free, bookings minus cancellations, as counted, is 1 if the
      seat has a holder and 0 otherwise. */
  lemma SeatConserved(s: State, k: nat)
    requires SeatsOk(s) && k < |s.seats| && SeatLock(k) !in s.owner
    ensures s.seats[k].booked == (s.seats[k].canceled + if s.seats[k].holder.Some? then 1 else 0) % U64_LIMIT
  {
    var seat := s.seats[k];
    assert SeatOk(seat, None);
    Balance(seat.log);
    if seat.holder.Some? {
      WrapStep(Cancels(seat.log));
    } else {
      WrapSame(Cancels(seat.log));
    }
  }

  lemma WrapSame(n: nat)
    ensures n % U64_LIMIT % U64_LIMIT == n % U64_LIMIT
  {
  }
}
