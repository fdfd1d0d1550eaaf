/** What every run of the reservation server guarantees, whatever its threads, clients and
    interleavings. */
module ReservationTheorems {
  import opened Options
  import opened ServerTables
  import opened Reservation
  import opened LockDiscipline
  import opened ThreadFacts
  import opened ThreadMoves
  import opened ServerCore
  import opened Sessions
  import opened SeatHistory
  import opened Connections

  ghost predicate Invariant(s: State) {
    CoreOk(s) && SessionsOk(s) && SeatsOk(s) && FdsOk(s)
  }

  lemma InvariantInit(s: State)
    requires Init(s)
    ensures Invariant(s)
  {
    hide CoreOk, SessionsOk, SeatsOk, FdsOk;
    CoreInit(s);
    SessionsInit(s);
    SeatsInit(s);
    FdsInit(s);
  }

  lemma InvariantStep(s: State, t: State)
    requires Invariant(s) && Step(s, t)
    ensures Invariant(t)
  {
    hide CoreOk, SessionsOk, SeatsOk, FdsOk, WorkerStep, MainStep;
    if w, c :| 0 <= w < |s.pcs| && t == WorkerStep(s, w, c) {
      CoreWorkerStep(s, w, c);
      SessionsWorkerStep(s, w, c);
      SeatsWorkerStep(s, w, c);
      FdsWorkerStep(s, w, c);
    } else {
      var fd: nat :| t == MainStep(s, fd);
      CoreMainStep(s, fd);
      SessionsMainStep(s, fd);
      SeatsMainStep(s, fd);
      FdsMainStep(s, fd);
    }
  }

  /** The invariant holds in every state of every run. */
  lemma {:induction false} Always(states: seq<State>, i: nat)
    requires IsRun(states) && i < |states|
    ensures Invariant(states[i])
  {
    hide Invariant, Init, Step;
    if i == 0 {
      InvariantInit(states[0]);
    } else {
      Always(states, i - 1);
      assert StepAt(states, i);
      InvariantStep(states[i - 1], states[i]);
    }
  }

  // ------------------------------------------------ no deadlock

  /** A worker that holds a lock and does not wait makes progress, whatever is chosen. */
  lemma WorkerMoves(s: State, w: nat, c: Choice)
    requires CoreOk(s) && w < |s.pcs| && !s.exited && Locks(s.pcs[w]) != NO_LOCKS && !IsWaiting(s, Worker(w))
    ensures |s.pcs| == |s.sets| && WorkerStep(s, w, c) != s
  {
    hide LocksOk, FindUser, FindFd, Precheck;
    SetsLengths(s);
    assert WorkerOk(s, w);
    WantIsExact(s, w, c);
    ProgramLeaves(s, w, c);
    hide Program, Apply, Want, Locks;
    ApplyShape(s, w, Program(s, w, c));
    ApplyTables(s, w, Program(s, w, c));
  }

  lemma ProgramLeaves(s: State, w: nat, c: Choice)
    requires w < |s.pcs| == |s.sets| && |s.seats| == NUM_SEATS && FactsOk(s.users, s.seats, s.sets[w], s.pcs[w])
    requires Locks(s.pcs[w]) != NO_LOCKS
    ensures Program(s, w, c).next != s.pcs[w] || Program(s, w, c).effect.Exit?
  {
    hide FindUser, FindFd, Precheck, Entering, PickedOk;
  }

  lemma MainMoves(s: State, fd: nat)
    requires CoreOk(s) && MainLocked(s.main).Some?
    ensures MainStep(s, fd) != s
  {
    hide LocksOk, WorkerOk, IsWake;
  }

  /** The thread's next step changes the state, whatever the environment decides. */
  ghost predicate CanStep(s: State, t: Thread) {
    match t
    case Worker(w) => w < |s.pcs| == |s.sets| && forall c :: WorkerStep(s, w, c) != s
    case MainThread => forall fd: nat :: MainStep(s, fd) != s
  }

  /** The holder of a lock takes a step unless it waits. */
  lemma HolderSteps(s: State, l: Lock)
    requires CoreOk(s) && !s.exited && l in s.owner && !IsWaiting(s, s.owner[l])
    ensures CanStep(s, s.owner[l])
  {
    hide WorkerStep, MainStep, IsWaiting, Locks, NamesDistinct, SeatIds, SetsOk, MainOk;
    SetsLengths(s);
    var t := s.owner[l];
    assert OwnedBy(s.owner, l, t);
    if t.Worker? {
      HolderHasLocks(t.w, s.pcs[t.w], l);
      forall c ensures WorkerStep(s, t.w, c) != s {
        WorkerMoves(s, t.w, c);
      }
    } else {
      forall fd: nat ensures MainStep(s, fd) != s {
        MainMoves(s, fd);
      }
    }
  }

  /** The chain of waiters that starts at `l` ends at a thread that can take a step. */
  ghost predicate ChainMoves(s: State, l: Lock, chain: seq<Lock>) {
    WaitChain(s, chain) && chain[0] == l && CanStep(s, s.owner[chain[|chain| - 1]])
  }

  /** No reachable state is a deadlock: whoever waits for a held lock is at the start of a
      chain of waiters whose last one can take a step. */
  lemma NoDeadlock(states: seq<State>, i: nat, l: Lock)
    requires IsRun(states) && i < |states| && !states[i].exited && l in states[i].owner
    ensures exists chain :: ChainMoves(states[i], l, chain)
  {
    hide IsRun, IsWaiting, SessionsOk, SeatsOk, FdsOk, CanStep, LocksOk, Wanted, WorkerOk, NamesDistinct, SeatIds,
      SetsOk, MainOk;
    Always(states, i);
    var chain := SomeHolderRuns(states[i], l);
    HolderSteps(states[i], chain[|chain| - 1]);
    assert ChainMoves(states[i], l, chain);
  }

  /** There is no circular wait: whatever locks are taken together, the owner of one of
      them, if any, waits for none of them. */
  lemma NoCircularWait(states: seq<State>, i: nat, locks: set<Lock>)
    requires IsRun(states) && i < |states| && locks != {}
    ensures exists l :: l in locks && !WaitsWithin(states[i], locks, l)
  {
    hide IsRun, SessionsOk, SeatsOk, FdsOk, LocksOk, WaitsWithin, WorkerOk, NamesDistinct, SeatIds, SetsOk, MainOk;
    Always(states, i);
    var l :| l in locks;
    var top := NoCycleFrom(states[i], locks, l);
  }

  lemma HolderHasLocks(w: nat, pc: Pc, l: Lock)
    requires Has(Locks(pc), w, l)
    ensures Locks(pc) != NO_LOCKS
  {
  }

  // ------------------------------------------------ the snapshot of a user's seats

  /** The worker is listing `name`'s seats under that user's lock. */
  ghost predicate Listing(pc: Pc, name: Name) {
    && pc.Handling? && ListsBooked(pc.task.req) && NameOf(pc.task.req) == Some(name)
    && (pc.stage.EnterSeat? || pc.stage.InSeat? || pc.stage.LeaveSeat?
      || (pc.stage.LeaveUser? && pc.stage.reply.SeatList?))
  }

  /** The list is exactly the ids of the seats the user holds, ascending. */
  lemma {:induction false} BookedIdsExact(seats: seq<Seat>, name: Name, k: nat)
    requires SeatIds(seats) && k <= |seats|
    ensures forall id :: id in BookedIds(seats, name, k) <==> 1 <= id <= k && seats[id - 1].holder == Some(name)
    ensures forall i, j :: 0 <= i < j < |BookedIds(seats, name, k)| ==>
      BookedIds(seats, name, k)[i] < BookedIds(seats, name, k)[j]
  {
    if k > 0 {
      BookedIdsExact(seats, name, k - 1);
      var front := BookedIds(seats, name, k - 1);
      assert forall i :: 0 <= i < |front| ==> front[i] in front;
    }
  }

  lemma ListingLocks(users: seq<User>, seats: seq<Seat>, slots: seq<Slot>, pc: Pc, name: Name) returns (uid: nat)
    requires FactsOk(users, seats, slots, pc) && Listing(pc, name)
    ensures Guards(pc, uid) && uid < |users| && users[uid].name == name
  {
    hide Entering, PickedOk;
    uid := pc.stage.uid;
  }

  lemma RelyKeepsBooked(users: seq<User>, seats: seq<Seat>, slots: seq<Slot>, users': seq<User>, seats': seq<Seat>,
                        slots': seq<Slot>, pc: Pc, name: Name)
    requires FactsOk(users, seats, slots, pc) && Listing(pc, name)
    requires Rely(users, seats, slots, users', seats', slots', pc) && |seats| == NUM_SEATS
    ensures |seats'| == NUM_SEATS && BookedIds(seats', name, NUM_SEATS) == BookedIds(seats, name, NUM_SEATS)
  {
    var uid := ListingLocks(users, seats, slots, pc, name);
    hide FactsOk;
    BookedStable(seats, seats', name, NUM_SEATS);
  }

  /** The listing itself changes no seat. */
  lemma ListingReads(s: State, w: nat, c: Choice, name: Name)
    requires w < |s.pcs| == |s.sets| && Listing(s.pcs[w], name)
    ensures !Program(s, w, c).effect.SetHolder? && !Program(s, w, c).effect.Count?
  {
  }

  /** While a listing is under way no step of any thread changes the user's set of seats. */
  lemma BookedSetStable(s: State, t: State, w: nat, name: Name)
    requires CoreOk(s) && Step(s, t) && w < |s.pcs| && Listing(s.pcs[w], name)
    ensures |s.seats| == NUM_SEATS == |t.seats|
    ensures BookedIds(t.seats, name, NUM_SEATS) == BookedIds(s.seats, name, NUM_SEATS)
  {
    hide LocksOk, FactsOk, Program, Apply, Rely, EffectOk, MainStep, MainOk, SetsOk, NamesDistinct, BookedIds, Listing;
    SetsLengths(s);
    assert WorkerOk(s, w);
    if v, c :| 0 <= v < |s.pcs| && t == WorkerStep(s, v, c) {
      var m := Program(s, v, c);
      if !(m.sync.Acquire? && m.sync.lock in s.owner) {
        WorkerMoveOk(s, v, c);
        ApplyTables(s, v, m);
        if v == w {
          ListingReads(s, w, c, name);
        } else {
          MoveKeepsRely(s, v, m, w);
          RelyKeepsBooked(s.users, s.seats, s.sets[w], t.users, t.seats, s.sets[w], s.pcs[w], name);
        }
      }
    } else {
      var fd: nat :| t == MainStep(s, fd);
      MainTables(s, fd);
    }
  }

  /** From state `a` to state `b` worker `w` is listing the seats of `name`. */
  ghost predicate ListsThroughout(states: seq<State>, a: nat, b: nat, w: nat, name: Name) {
    && a <= b < |states|
    && (forall i {:trigger states[i]} :: a <= i <= b ==> w < |states[i].pcs| && Listing(states[i].pcs[w], name))
  }

  ghost predicate HoldsExactly(seats: seq<Seat>, name: Name, ids: seq<nat>) {
    |seats| == NUM_SEATS && BookedIds(seats, name, NUM_SEATS) == ids
  }

  ghost predicate Answers(pc: Pc, ids: seq<nat>) {
    pc.Handling? && pc.stage.LeaveUser? && pc.stage.reply == SeatList(ids)
  }

  /** The answer of a listing is the user's exact set of seats in every state of the scan. */
  lemma {:induction false} SnapshotExact(states: seq<State>, a: nat, b: nat, w: nat, name: Name, ids: seq<nat>)
    requires IsRun(states) && ListsThroughout(states, a, b, w, name) && Answers(states[b].pcs[w], ids)
    ensures forall i {:trigger states[i]} :: a <= i <= b ==> HoldsExactly(states[i].seats, name, ids)
    decreases b - a
  {
    hide Listing, Step, SessionsOk, SeatsOk, FdsOk, BookedIds, LocksOk, IsRun, CoreOk, Answers, HoldsExactly;
    Always(states, a);
    if a == b {
      ListingDone(states[b], w, name, ids);
    } else {
      SnapshotExact(states, a + 1, b, w, name, ids);
      assert HoldsExactly(states[a + 1].seats, name, ids);
      RunStep(states, a);
      OneStepBack(states[a], states[a + 1], w, name, ids);
    }
  }

  lemma OneStepBack(s: State, t: State, w: nat, name: Name, ids: seq<nat>)
    requires CoreOk(s) && Step(s, t) && w < |s.pcs| && Listing(s.pcs[w], name) && HoldsExactly(t.seats, name, ids)
    ensures HoldsExactly(s.seats, name, ids)
  {
    hide CoreOk, Step, Listing, BookedIds;
    BookedSetStable(s, t, w, name);
  }

  lemma RunStep(states: seq<State>, a: nat)
    requires IsRun(states) && a + 1 < |states|
    ensures Step(states[a], states[a + 1])
  {
    assert StepAt(states, a + 1);
  }

  lemma ListingDone(s: State, w: nat, name: Name, ids: seq<nat>)
    requires CoreOk(s) && w < |s.pcs| && Listing(s.pcs[w], name) && Answers(s.pcs[w], ids)
    ensures HoldsExactly(s.seats, name, ids)
  {
    hide LocksOk, BookedIds;
    SetsLengths(s);
    assert WorkerOk(s, w);
  }

  // ------------------------------------------------ connections and seats in every run

  /** The slot a request was located in stays the request's own connection until it is done. */
  lemma SlotStaysValid(states: seq<State>, i: nat, w: nat)
    requires IsRun(states) && i < |states| && w < |states[i].pcs| && states[i].pcs[w].Handling?
    ensures w < |states[i].sets|
    ensures var task := states[i].pcs[w].task;
      && 1 <= task.slot < |states[i].sets[w]| && states[i].sets[w][task.slot].fd == task.fd
      && FindFd(states[i].sets[w], task.fd, 0) == Some(task.slot)
  {
    Always(states, i);
    hide LocksOk, StageOk, SessionsOk, SeatsOk, IsRun;
    var s := states[i];
    SetsLengths(s);
    assert WorkerOk(s, w);
    LookupIsExact(s.sets[w], s.pcs[w].task.slot);
  }

  /** In every run the open connections are exactly those in the sets and the one being placed:
      none is lost and none stays open after it has been dropped. */
  lemma NoneLost(states: seq<State>, i: nat, fd: nat)
    requires IsRun(states) && i < |states|
    ensures fd in states[i].open <==> Conn(states[i].main) == Some(fd) || IsLive(states[i], fd)
  {
    Always(states, i);
    hide CoreOk, SessionsOk, SeatsOk, IsRun, Live;
  }

  /** The chosen set has room when the connection is added: none is ever refused. */
  lemma RoomWhenAdding(states: seq<State>, i: nat)
    requires IsRun(states) && i < |states|
    ensures !states[i].main.AddFull?
    ensures states[i].main.AddIn? ==>
      states[i].main.w < |states[i].sets| && |states[i].sets[states[i].main.w]| < CLIENTS_PER_THREAD
    ensures forall w {:trigger states[i].sets[w]} :: 0 <= w < |states[i].sets| ==>
      1 <= |states[i].sets[w]| <= CLIENTS_PER_THREAD
  {
    Always(states, i);
  }

  /** When a scan is over, the set it settles on is the first of the smallest with room. */
  lemma ScanPicksLeast(states: seq<State>, i: nat)
    requires IsRun(states) && i < |states| && states[i].main.ScanEnter? && states[i].main.i == |states[i].sets|
    ensures var m := states[i].main;
      && |m.read| == |states[i].sets|
      && (m.best.None? <==> forall j :: 0 <= j < |m.read| ==> CLIENTS_PER_THREAD <= m.read[j])
      && (m.best.Some? ==>
            && m.best.value.0 < |m.read| && m.read[m.best.value.0] < CLIENTS_PER_THREAD
            && (forall j :: 0 <= j < |m.read| ==> m.read[m.best.value.0] <= m.read[j])
            && (forall j :: 0 <= j < m.best.value.0 ==> m.read[m.best.value.0] < m.read[j]))
  {
    hide LocksOk, SessionsOk, SeatsOk, FdsOk, IsRun, SetsOk, NamesDistinct, WorkerOk;
    Always(states, i);
    BestIsLeast(states[i].main.read);
  }

  /** In every run a user is logged in iff exactly one connection owns the session. */
  lemma OneSession(states: seq<State>, i: nat, name: Name)
    requires IsRun(states) && i < |states|
    ensures LoggedIn(states[i].users, name) <==> exists w: nat, j: nat :: SessionOf(states[i], w, j) == Some(name)
    ensures forall v: nat, j: nat, w: nat, k: nat ::
      SessionOf(states[i], v, j) == Some(name) && SessionOf(states[i], w, k) == Some(name) ==> v == w && j == k
  {
    Always(states, i);
    hide CoreOk, SessionsOk, SessionOf, IsRun;
    SessionExclusive(states[i], name);
  }

  // ------------------------------------------------ replies

  /** What a login or logout is answered, and every refusal that rests on the user table or
      on a user's flag, is true while the lock it was found under is held; statistics are
      the seat's own. */
  ghost predicate ReplyHolds(s: State, active: Option<Name>, task: Task, stage: Stage) {
    match stage
    case LeaveArray(reply) => UnknownReplyOk(s.users, task.req, reply)
    case Marked(uid) => FlagIs(s.users, uid, task.req, true)
    case NewMarked(uid) => FlagIs(s.users, uid, task.req, true)
    case Cleared(uid) => FlagIs(s.users, uid, task.req, false)
    case LeaveUser(uid, reply) =>
      && IsUser(s.users, uid, task.req)
      && UserReplyOk(s.users[uid], task.req, active, reply)
      && (task.req.Book? || task.req.Cancel? ==>
            FirstSeat(task.req) < |s.seats| && HoldReplyOk(s.seats[FirstSeat(task.req)], task.req, reply))
    case LeaveSeat(_, k, _, reply) => !task.req.Confirm? ==> k < |s.seats| && SeatReplyOk(s.seats[k], task.req, reply)
    case LeaveStats(k, reply) => k < |s.seats| && reply == Stats(k + 1, s.seats[k].booked, s.seats[k].canceled)
    case _ => true
  }

  ghost predicate FlagIs(users: seq<User>, uid: nat, req: Request, on: bool) {
    IsUser(users, uid, req) && users[uid].loggedIn == on
  }

  /** In every run a refusal names the true reason, and statistics are the seat's own. */
  lemma RepliesTrue(states: seq<State>, i: nat, w: nat)
    requires IsRun(states) && i < |states| && w < |states[i].pcs| && states[i].pcs[w].Handling?
    ensures |states[i].seats| == NUM_SEATS && w < |states[i].sets|
    ensures var task := states[i].pcs[w].task;
      && task.slot < |states[i].sets[w]|
      && ReplyHolds(states[i], states[i].sets[w][task.slot].active, task, states[i].pcs[w].stage)
  {
    hide LocksOk, SessionsOk, SeatsOk, FdsOk, IsRun, Entering, PickedOk, MainOk, SetsOk, NamesDistinct;
    Always(states, i);
    SetsLengths(states[i]);
    assert WorkerOk(states[i], w);
  }

  /** The server can be started with any number of workers. */
  lemma RunsExist(workers: nat) returns (s: State)
    ensures Init(s) && |s.pcs| == workers && IsRun([s])
  {
    var seats := seq(NUM_SEATS, k requires 0 <= k < NUM_SEATS => Seat(k + 1, None, 0, 0, []));
    var sets := seq(workers, w requires 0 <= w < workers => [Slot(w, None)]);
    s := State([], seats, sets, {}, map[], seq(workers, w => Idle), Waiting, false);
  }

  /** A seat whose history is in order and, when its mutex is free, whose counters balance. */
  ghost predicate Balanced(seat: Seat, free: bool) {
    && Replay(seat.log) == Some(seat.holder)
    && (free ==> seat.booked == (seat.canceled + if seat.holder.Some? then 1 else 0) % U64_LIMIT)
  }

  /** In every run each seat's history alternates and its counters balance. */
  lemma SeatLedger(states: seq<State>, i: nat, k: nat)
    requires IsRun(states) && i < |states| && k < NUM_SEATS
    ensures k < |states[i].seats| && Balanced(states[i].seats[k], SeatLock(k) !in states[i].owner)
  {
    hide LocksOk, SessionsOk, FdsOk, IsRun, Due, Replay, MainOk, SetsOk, NamesDistinct, WorkerOk;
    Always(states, i);
    LedgerNow(states[i], k);
  }

  lemma LedgerNow(s: State, k: nat)
    requires SeatsOk(s) && k < |s.seats|
    ensures Balanced(s.seats[k], SeatLock(k) !in s.owner)
  {
    hide Due, Replay;
    assert SeatOk(s.seats[k], Due(s, k));
    if SeatLock(k) !in s.owner {
      SeatConserved(s, k);
    }
  }
}
