/** Every lock is owned by the thread whose program counter says so, locks are taken in
    the order poll set < user array < user < seat, and so no state is a deadlock
    (PA3/server/handle_request.c:68-76, PA3/server/handle_request.c:131-137,
    PA3/server/pa3_server.c:35-45, PA3/server/helper.c:155-171). */
module LockDiscipline {
  import opened Options
  import opened ServerTables
  import opened Reservation

  /** The locks a worker holds: at most one of each rank, by construction. */
  datatype LockSet = LockSet(poll: bool, array_: bool, user: Option<nat>, seat: Option<nat>)

  const NO_LOCKS := LockSet(false, false, None, None)

  function StageLocks(stage: Stage): LockSet {
    match stage
    case InArray => NO_LOCKS.(array_ := true)
    case LeaveArray(_) => NO_LOCKS.(array_ := true)
    case EnterUser(_) => NO_LOCKS.(array_ := true)
    case HandOver(uid) => NO_LOCKS.(array_ := true, user := Some(uid))
    case InUser(uid) => NO_LOCKS.(user := Some(uid))
    case Checked(uid) => NO_LOCKS.(user := Some(uid))
    case Marked(uid) => NO_LOCKS.(user := Some(uid))
    case NewUser(_) => NO_LOCKS.(array_ := true)
    case NewInUser(uid) => NO_LOCKS.(array_ := true, user := Some(uid))
    case NewMarked(uid) => NO_LOCKS.(array_ := true, user := Some(uid))
    case NewLeaveArray(_) => NO_LOCKS.(array_ := true)
    case Cleared(uid) => NO_LOCKS.(user := Some(uid))
    case EnterSeat(uid, _, _) => NO_LOCKS.(user := Some(uid))
    case InSeat(uid, k, _) => NO_LOCKS.(user := Some(uid), seat := Some(k))
    case Counting(uid, k) => NO_LOCKS.(user := Some(uid), seat := Some(k))
    case LeaveSeat(uid, k, _, _) => NO_LOCKS.(user := Some(uid), seat := Some(k))
    case LeaveUser(uid, _) => NO_LOCKS.(user := Some(uid))
    case InStats(k) => NO_LOCKS.(seat := Some(k))
    case LeaveStats(k, _) => NO_LOCKS.(seat := Some(k))
    case _ => NO_LOCKS
  }

  function OffLocks(off: OffStage): LockSet {
    match off
    case OffEnter => NO_LOCKS
    case OffInArray(_) => LockSet(true, true, None, None)
    case OffLeaveArray(_) => LockSet(true, true, None, None)
    case OffEnterUser(_, _) => LockSet(true, true, None, None)
    case OffHandOver(_, uid) => LockSet(true, true, Some(uid), None)
    case OffInUser(_, uid) => LockSet(true, false, Some(uid), None)
    case OffCleared(_, uid) => LockSet(true, false, Some(uid), None)
    case _ => LockSet(true, false, None, None)
  }

  function Locks(pc: Pc): LockSet {
    match pc
    case Idle => NO_LOCKS
    case Copying => NO_LOCKS.(poll := true)
    case Finding(_, _) => NO_LOCKS
    case Found(_, _) => NO_LOCKS.(poll := true)
    case Handling(_, stage) => StageLocks(stage)
    case Replied(_, _) => NO_LOCKS
    case Dropping(_, off) => OffLocks(off)
  }

  predicate Has(ls: LockSet, w: nat, l: Lock) {
    match l
    case PollLock(v) => ls.poll && v == w
    case ArrayLock => ls.array_
    case UserLock(uid) => ls.user == Some(uid)
    case SeatLock(k) => ls.seat == Some(k)
  }

  function MainLocked(main: MainPc): Option<nat> {
    match main
    case ScanIn(_, i, _, _) => Some(i)
    case ScanLeave(_, i, _, _, _) => Some(i)
    case AddIn(_, w) => Some(w)
    case AddFull(_, w) => Some(w)
    case AddLeave(w) => Some(w)
    case _ => None
  }

  predicate MainHas(main: MainPc, l: Lock) {
    l.PollLock? && MainLocked(main) == Some(l.w)
  }

  function Rank(l: Lock): nat {
    match l
    case PollLock(_) => 0
    case ArrayLock => 1
    case UserLock(_) => 2
    case SeatLock(_) => 3
  }

  // ------------------------------------------------ one move of a program

  function With(ls: LockSet, l: Lock): LockSet {
    match l
    case PollLock(_) => ls.(poll := true)
    case ArrayLock => ls.(array_ := true)
    case UserLock(uid) => ls.(user := Some(uid))
    case SeatLock(k) => ls.(seat := Some(k))
  }

  function Less(ls: LockSet, l: Lock): LockSet {
    match l
    case PollLock(_) => ls.(poll := false)
    case ArrayLock => ls.(array_ := false)
    case UserLock(_) => ls.(user := None)
    case SeatLock(_) => ls.(seat := None)
  }

  /** Everything held has a lower rank than `l`. */
  predicate AllBelow(ls: LockSet, l: Lock) {
    && (ls.poll ==> Rank(l) > 0)
    && (ls.array_ ==> Rank(l) > 1)
    && (ls.user.Some? ==> Rank(l) > 2)
    && ls.seat.None?
  }

  /** The lock operation is in order, and afterwards the program counter is right again. */
  predicate Orderly(w: nat, pc: Pc, m: Move) {
    match m.sync
    case NoSync => Locks(m.next) == Locks(pc)
    case Acquire(l) => Locks(m.next) == With(Locks(pc), l) && AllBelow(Locks(pc), l) && (l.PollLock? ==> l.w == w)
    case Release(l) => Locks(m.next) == Less(Locks(pc), l) && Has(Locks(pc), w, l)
  }

  lemma ArrayOrderly(s: State, w: nat, task: Task, stage: Stage, active: Option<Name>)
    requires stage.InArray? || stage.LeaveArray? || stage.Located? || stage.EnterArray?
    ensures Orderly(w, Handling(task, stage), EntryMove(s, task, stage, active))
  {
    hide FindUser, Precheck;
  }

  lemma EntranceOrderly(s: State, w: nat, task: Task, stage: Stage, active: Option<Name>)
    requires stage.EnterUser? || stage.HandOver? || stage.InUser?
    ensures Orderly(w, Handling(task, stage), EntryMove(s, task, stage, active))
  {
    hide FindUser, Precheck;
  }

  lemma MarkingOrderly(s: State, w: nat, task: Task, stage: Stage, active: Option<Name>)
    requires !AtSeats(stage) && !AtEntrance(stage)
    ensures Orderly(w, Handling(task, stage), EntryMove(s, task, stage, active))
  {
    hide FindUser, Precheck;
  }

  lemma EntryOrderly(s: State, w: nat, task: Task, stage: Stage, active: Option<Name>)
    requires !AtSeats(stage)
    ensures Orderly(w, Handling(task, stage), EntryMove(s, task, stage, active))
  {
    hide Orderly, EntryMove;
    if stage.InArray? || stage.LeaveArray? || stage.Located? || stage.EnterArray? {
      ArrayOrderly(s, w, task, stage, active);
    } else if AtEntrance(stage) {
      EntranceOrderly(s, w, task, stage, active);
    } else {
      MarkingOrderly(s, w, task, stage, active);
    }
  }

  /** Looking at a seat takes and releases nothing. */
  lemma LookOrderly(seat: Seat, w: nat, task: Task, uid: nat, k: nat, picked: seq<nat>)
    ensures Orderly(w, Handling(task, InSeat(uid, k, picked)), SeatMove(seat, task, uid, k, picked))
  {
  }

  lemma StatsOrderly(s: State, w: nat, task: Task, stage: Stage)
    requires stage.LeaveUser? || stage.EnterStats? || stage.InStats? || stage.LeaveStats?
    ensures Orderly(w, Handling(task, stage), SeatStageMove(s, task, stage))
  {
    hide SeatMove;
  }

  lemma SeatOrderly(s: State, w: nat, task: Task, stage: Stage)
    requires stage.EnterSeat? || stage.InSeat? || stage.Counting? || stage.LeaveSeat?
    ensures Orderly(w, Handling(task, stage), SeatStageMove(s, task, stage))
  {
    hide SeatMove;
    if stage.InSeat? && stage.k < |s.seats| {
      LookOrderly(s.seats[stage.k], w, task, stage.uid, stage.k, stage.picked);
    }
  }

  lemma SeatsOrderly(s: State, w: nat, task: Task, stage: Stage)
    requires AtSeats(stage)
    ensures Orderly(w, Handling(task, stage), SeatStageMove(s, task, stage))
  {
    hide Orderly, SeatStageMove;
    if stage.LeaveUser? || stage.EnterStats? || stage.InStats? || stage.LeaveStats? {
      StatsOrderly(s, w, task, stage);
    } else {
      SeatOrderly(s, w, task, stage);
    }
  }

  lemma OffOrderly(s: State, w: nat, slots: seq<Slot>, fd: nat, off: OffStage)
    ensures Orderly(w, Dropping(fd, off), OffMove(s, w, slots, fd, off))
  {
    hide FindUser, FindFd;
  }

  /** Every move of every worker respects the lock order. */
  lemma ProgramOrderly(s: State, w: nat, c: Choice)
    requires w < |s.pcs| == |s.sets|
    ensures Orderly(w, s.pcs[w], Program(s, w, c))
  {
    hide EntryMove, SeatStageMove, OffMove, FindFd, Orderly;
    match s.pcs[w]
    case Handling(task, stage) =>
      if AtSeats(stage) {
        SeatsOrderly(s, w, task, stage);
      } else {
        EntryOrderly(s, w, task, stage, if task.slot < |s.sets[w]| then s.sets[w][task.slot].active else None);
      }
    case Dropping(fd, off) =>
      OffOrderly(s, w, s.sets[w], fd, off);
    case other =>
      SimpleOrderly(s, w, c);
  }

  lemma SimpleOrderly(s: State, w: nat, c: Choice)
    requires w < |s.pcs| == |s.sets| && !s.pcs[w].Handling? && !s.pcs[w].Dropping?
    ensures Orderly(w, s.pcs[w], Program(s, w, c))
  {
    hide FindFd;
  }

  // ------------------------------------------------ who owns what

  predicate OwnedBy(owner: map<Lock, Thread>, l: Lock, t: Thread) {
    l in owner && owner[l] == t
  }

  /** A worker owns exactly the locks its program counter stands for. */
  ghost predicate WorkerOwns(owner: map<Lock, Thread>, w: nat, pc: Pc) {
    forall l {:trigger OwnedBy(owner, l, Worker(w))} :: OwnedBy(owner, l, Worker(w)) <==> Has(Locks(pc), w, l)
  }

  ghost predicate MainOwns(owner: map<Lock, Thread>, main: MainPc) {
    forall l {:trigger OwnedBy(owner, l, MainThread)} :: OwnedBy(owner, l, MainThread) <==> MainHas(main, l)
  }

  ghost predicate LocksOk(s: State) {
    && |s.pcs| == |s.sets|
    && (forall w {:trigger s.pcs[w]} :: 0 <= w < |s.pcs| ==> WorkerOwns(s.owner, w, s.pcs[w]))
    && MainOwns(s.owner, s.main)
    && (forall l {:trigger s.owner[l]} :: l in s.owner && s.owner[l].Worker? ==> s.owner[l].w < |s.pcs|)
  }

  /** Mutual exclusion. */
  lemma HeldByOne(s: State, v: nat, w: nat, l: Lock)
    requires LocksOk(s) && v < |s.pcs| && w < |s.pcs| && Has(Locks(s.pcs[v]), v, l) && Has(Locks(s.pcs[w]), w, l)
    ensures v == w
  {
    assert OwnedBy(s.owner, l, Worker(v)) && OwnedBy(s.owner, l, Worker(w));
  }

  lemma HasAfter(ls: LockSet, w: nat, l: Lock, x: Lock)
    requires l.PollLock? ==> l.w == w
    ensures AllBelow(ls, l) ==> (Has(With(ls, l), w, x) <==> Has(ls, w, x) || x == l)
    ensures Has(ls, w, l) ==> (Has(Less(ls, l), w, x) <==> Has(ls, w, x) && x != l)
  {
  }

  /** The mover's own locks stay right. */
  lemma OwnLocksStep(owner: map<Lock, Thread>, w: nat, pc: Pc, m: Move)
    requires WorkerOwns(owner, w, pc) && Orderly(w, pc, m) && (m.sync.Acquire? ==> m.sync.lock !in owner)
    ensures WorkerOwns(SyncOwner(owner, Worker(w), m.sync), w, m.next)
  {
    hide Locks, With, Less, Has, AllBelow;
    var after := SyncOwner(owner, Worker(w), m.sync);
    forall l ensures OwnedBy(after, l, Worker(w)) <==> Has(Locks(m.next), w, l) {
      if m.sync.Acquire? || m.sync.Release? {
        AcquiredIsOwn(w, pc, m);
        HasAfter(Locks(pc), w, m.sync.lock, l);
      }
      assert OwnedBy(owner, l, Worker(w)) <==> Has(Locks(pc), w, l);
    }
  }

  lemma AcquiredIsOwn(w: nat, pc: Pc, m: Move)
    requires Orderly(w, pc, m) && !m.sync.NoSync?
    ensures m.sync.lock.PollLock? ==> m.sync.lock.w == w
  {
  }

  /** Nobody else's locks change. */
  lemma OtherLocksStep(owner: map<Lock, Thread>, w: nat, pc: Pc, m: Move, t: Thread, l: Lock)
    requires WorkerOwns(owner, w, pc) && Orderly(w, pc, m) && (m.sync.Acquire? ==> m.sync.lock !in owner)
    requires t != Worker(w)
    ensures OwnedBy(SyncOwner(owner, Worker(w), m.sync), l, t) <==> OwnedBy(owner, l, t)
  {
    hide Locks, With, Less, AllBelow, Has;
    if m.sync.Release? {
      assert OwnedBy(owner, m.sync.lock, Worker(w));
    }
  }

  lemma ApplyShape(s: State, w: nat, m: Move)
    requires w < |s.pcs| == |s.sets|
    ensures var t := Apply(s, w, m);
      && t.owner == SyncOwner(s.owner, Worker(w), m.sync)
      && t.pcs == s.pcs[w := m.next] && t.main == s.main && |t.sets| == |s.sets|
  {
  }

  lemma WorkerLocksStep(s: State, w: nat, c: Choice)
    requires LocksOk(s) && w < |s.pcs|
    ensures LocksOk(WorkerStep(s, w, c))
  {
    hide Program, Orderly, Has, Locks, Apply, WorkerOwns, OwnedBy, MainHas, SyncOwner;
    var m := Program(s, w, c);
    ProgramOrderly(s, w, c);
    if m.sync.Acquire? && m.sync.lock in s.owner {
      return;
    }
    ApplyShape(s, w, m);
    LocksApplied(s, Apply(s, w, m), w, m);
  }

  lemma LocksApplied(s: State, t: State, w: nat, m: Move)
    requires LocksOk(s) && w < |s.pcs| && Orderly(w, s.pcs[w], m) && (m.sync.Acquire? ==> m.sync.lock !in s.owner)
    requires t.owner == SyncOwner(s.owner, Worker(w), m.sync)
    requires t.pcs == s.pcs[w := m.next] && t.main == s.main && |t.sets| == |s.sets|
    ensures LocksOk(t)
  {
    hide Orderly, Has, Locks, OwnedBy, MainHas;
    OwnLocksStep(s.owner, w, s.pcs[w], m);
    forall v | 0 <= v < |t.pcs| && v != w ensures WorkerOwns(t.owner, v, t.pcs[v]) {
      assert WorkerOwns(s.owner, v, s.pcs[v]);
      forall l ensures OwnedBy(t.owner, l, Worker(v)) <==> Has(Locks(t.pcs[v]), v, l) {
        OtherLocksStep(s.owner, w, s.pcs[w], m, Worker(v), l);
      }
    }
    forall l ensures OwnedBy(t.owner, l, MainThread) <==> MainHas(t.main, l) {
      OtherLocksStep(s.owner, w, s.pcs[w], m, MainThread, l);
    }
  }

  // ------------------------------------------------ the main thread

  /** Locking or unlocking `l` by the main thread, which holds at most one poll lock. */
  lemma MainLockStep(s: State, t: State, l: Lock)
    requires LocksOk(s) && l.PollLock? && l !in s.owner && MainLocked(s.main) == None
    requires t.owner == s.owner[l := MainThread] && t.pcs == s.pcs && |t.sets| == |s.sets|
      && MainLocked(t.main) == Some(l.w)
    ensures LocksOk(t)
  {
    hide Has, Locks, MainLocked;
    forall w | 0 <= w < |t.pcs| ensures WorkerOwns(t.owner, w, t.pcs[w]) {
      assert WorkerOwns(s.owner, w, s.pcs[w]);
      forall k ensures OwnedBy(t.owner, k, Worker(w)) <==> Has(Locks(t.pcs[w]), w, k) {
        assert OwnedBy(t.owner, k, Worker(w)) <==> OwnedBy(s.owner, k, Worker(w));
      }
    }
    forall k ensures OwnedBy(t.owner, k, MainThread) <==> MainHas(t.main, k) {
      assert OwnedBy(s.owner, k, MainThread) <==> MainHas(s.main, k);
    }
  }

  lemma MainUnlockStep(s: State, t: State, l: Lock)
    requires LocksOk(s) && l.PollLock? && MainLocked(s.main) == Some(l.w)
    requires t.owner == s.owner - {l} && t.pcs == s.pcs && |t.sets| == |s.sets| && MainLocked(t.main) == None
    ensures LocksOk(t)
  {
    hide Has, Locks, MainLocked;
    assert OwnedBy(s.owner, l, MainThread);
    forall w | 0 <= w < |t.pcs| ensures WorkerOwns(t.owner, w, t.pcs[w]) {
      assert WorkerOwns(s.owner, w, s.pcs[w]);
      forall k ensures OwnedBy(t.owner, k, Worker(w)) <==> Has(Locks(t.pcs[w]), w, k) {
        assert OwnedBy(t.owner, k, Worker(w)) <==> OwnedBy(s.owner, k, Worker(w));
      }
    }
    forall k ensures OwnedBy(t.owner, k, MainThread) <==> MainHas(t.main, k) {
      assert OwnedBy(s.owner, k, MainThread) <==> MainHas(s.main, k);
    }
  }

  lemma MainSameStep(s: State, t: State)
    requires LocksOk(s) && t.owner == s.owner && t.pcs == s.pcs && |t.sets| == |s.sets|
      && MainLocked(t.main) == MainLocked(s.main)
    ensures LocksOk(t)
  {
    hide Has, Locks, MainLocked, WorkerOwns;
    forall k ensures OwnedBy(t.owner, k, MainThread) <==> MainHas(t.main, k) {
      assert OwnedBy(s.owner, k, MainThread) <==> MainHas(s.main, k);
    }
  }

  lemma MainLocksStep(s: State, fd: nat)
    requires LocksOk(s)
    ensures LocksOk(MainStep(s, fd))
  {
    hide LocksOk, IsWake, Better;
    SetsLength(s);
    var t := MainStep(s, fd);
    match s.main
    case ScanEnter(conn, i, best, read) =>
      if i < |s.sets| && PollLock(i) !in s.owner {
        MainLockStep(s, t, PollLock(i));
      } else {
        MainSameStep(s, t);
      }
    case AddEnter(conn, w) =>
      if PollLock(w) !in s.owner {
        MainLockStep(s, t, PollLock(w));
      } else {
        MainSameStep(s, t);
      }
    case ScanLeave(conn, i, best, read, size) => MainUnlockStep(s, t, PollLock(i));
    case AddFull(conn, w) => MainUnlockStep(s, t, PollLock(w));
    case AddLeave(w) => MainUnlockStep(s, t, PollLock(w));
    case other => MainSameStep(s, t);
  }

  lemma SetsLength(s: State)
    requires LocksOk(s)
    ensures |s.pcs| == |s.sets|
  {
  }

  // ------------------------------------------------ no deadlock

  /** The lock a thread needs before it can go on. */
  function Want(w: nat, pc: Pc): Option<Lock> {
    match pc
    case Finding(_, _) => Some(PollLock(w))
    case Handling(_, stage) => StageWant(stage)
    case Dropping(_, off) => OffWant(w, off)
    case _ => None
  }

  function StageWant(stage: Stage): Option<Lock> {
    match stage
    case EnterArray => Some(ArrayLock)
    case EnterUser(uid) => Some(UserLock(uid))
    case NewUser(uid) => Some(UserLock(uid))
    case EnterSeat(_, k, _) => Some(SeatLock(k))
    case EnterStats(k) => Some(SeatLock(k))
    case _ => None
  }

  function OffWant(w: nat, off: OffStage): Option<Lock> {
    match off
    case OffEnter => Some(PollLock(w))
    case OffEnterArray(_) => Some(ArrayLock)
    case OffEnterUser(_, uid) => Some(UserLock(uid))
    case _ => None
  }

  function MainWant(main: MainPc, sets: nat): Option<Lock> {
    match main
    case ScanEnter(_, i, _, _) => if i < sets then Some(PollLock(i)) else None
    case AddEnter(_, w) => Some(PollLock(w))
    case _ => None
  }

  /** `Want` is what the program waits for: without it the worker moves on, unless idle. */
  lemma WantIsExact(s: State, w: nat, c: Choice)
    requires w < |s.pcs| == |s.sets| && s.pcs[w] != Idle
    ensures Program(s, w, c).sync.Acquire? <==> Want(w, s.pcs[w]).Some?
    ensures Want(w, s.pcs[w]).Some? ==> Program(s, w, c).sync == Acquire(Want(w, s.pcs[w]).value)
  {
    hide FindUser, FindFd, Precheck;
  }

  function Wanted(s: State, t: Thread): Option<Lock> {
    match t
    case Worker(w) => if w < |s.pcs| then Want(w, s.pcs[w]) else None
    case MainThread => MainWant(s.main, |s.sets|)
  }

  predicate IsWaiting(s: State, t: Thread) {
    Wanted(s, t).Some? && Wanted(s, t).value in s.owner
  }

  lemma WantIsAbove(w: nat, pc: Pc, l: Lock)
    requires Want(w, pc).Some? && Has(Locks(pc), w, l)
    ensures Rank(l) < Rank(Want(w, pc).value)
  {
  }

  /** The owner of a lock waits, if at all, for a lock of a higher rank. */
  lemma OwnerWantsAbove(s: State, l: Lock)
    requires LocksOk(s) && l in s.owner && Wanted(s, s.owner[l]).Some?
    ensures Rank(l) < Rank(Wanted(s, s.owner[l]).value)
  {
    hide Has, Locks, Want, MainLocked, Rank;
    var t := s.owner[l];
    assert OwnedBy(s.owner, l, t);
    if t.Worker? {
      WantIsAbove(t.w, s.pcs[t.w], l);
    } else {
      HoldingMainNeverWants(s.main, |s.sets|);
    }
  }

  /** The owner of each lock waits for the next one. */
  ghost predicate WaitChain(s: State, chain: seq<Lock>) {
    && chain != [] && (forall j {:trigger chain[j]} :: 0 <= j < |chain| ==> chain[j] in s.owner)
    && (forall j {:trigger chain[j]} :: 0 <= j < |chain| - 1 ==> Wanted(s, s.owner[chain[j]]) == Some(chain[j + 1]))
  }

  lemma ChainCons(s: State, l: Lock, chain: seq<Lock>)
    requires l in s.owner && WaitChain(s, chain) && Wanted(s, s.owner[l]) == Some(chain[0])
    ensures WaitChain(s, [l] + chain) && ([l] + chain)[|chain|] == chain[|chain| - 1]
  {
  }

  /** Follow the owners upwards: the chain of waiters from any lock ends at a thread that
      does not wait. */
  lemma {:induction false} SomeHolderRuns(s: State, l: Lock) returns (chain: seq<Lock>)
    requires LocksOk(s) && l in s.owner
    ensures WaitChain(s, chain) && chain[0] == l
    ensures !IsWaiting(s, s.owner[chain[|chain| - 1]])
    decreases 4 - Rank(l)
  {
    hide LocksOk, Wanted, Rank;
    chain := [l];
    if IsWaiting(s, s.owner[l]) {
      OwnerWantsAbove(s, l);
      RankBound(Wanted(s, s.owner[l]).value);
      chain := SomeHolderRuns(s, Wanted(s, s.owner[l]).value);
      ChainCons(s, l, chain);
      chain := [l] + chain;
    }
  }

  lemma RankBound(l: Lock)
    ensures Rank(l) < 4
  {
  }

  /** The owner of `l` waits for one of `locks`. */
  predicate WaitsWithin(s: State, locks: set<Lock>, l: Lock) {
    l in s.owner && Wanted(s, s.owner[l]).Some? && Wanted(s, s.owner[l]).value in locks
  }

  /** Among any locks, going up from `l`, one has an owner that waits for none of them. */
  lemma {:induction false} NoCycleFrom(s: State, locks: set<Lock>, l: Lock) returns (top: Lock)
    requires LocksOk(s) && l in locks
    ensures top in locks && !WaitsWithin(s, locks, top)
    decreases 4 - Rank(l)
  {
    hide LocksOk, Wanted, Rank;
    top := l;
    if WaitsWithin(s, locks, l) {
      OwnerWantsAbove(s, l);
      RankBound(Wanted(s, s.owner[l]).value);
      top := NoCycleFrom(s, locks, Wanted(s, s.owner[l]).value);
    }
  }

  lemma HoldingMainNeverWants(main: MainPc, sets: nat)
    ensures MainLocked(main).Some? ==> MainWant(main, sets).None?
  {
  }
}
