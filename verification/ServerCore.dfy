/** The invariant every run of the server keeps: locks, distinct names, poll sets with room,
    and each thread's own facts. */
module ServerCore {
  import opened Options
  import opened ServerTables
  import opened Reservation
  import opened LockDiscipline
  import opened ThreadFacts
  import opened ThreadMoves

  ghost predicate SeatIds(seats: seq<Seat>) {
    |seats| == NUM_SEATS && forall k {:trigger seats[k]} :: 0 <= k < |seats| ==> seats[k].id == k + 1
  }

  /** Every set keeps its wake slot and never outgrows its array. */
  ghost predicate SetsOk(sets: seq<seq<Slot>>) {
    forall w {:trigger sets[w]} :: 0 <= w < |sets| ==> 1 <= |sets[w]| <= CLIENTS_PER_THREAD
  }

  /** Nobody holds the lock of a user that is just being added. */
  ghost predicate FreshOk(owner: map<Lock, Thread>, pc: Pc) {
    pc.Handling? && pc.stage.NewUser? ==> UserLock(pc.stage.uid) !in owner
  }

  ghost predicate WorkerOk(s: State, w: nat)
    requires w < |s.pcs| == |s.sets|
  {
    FactsOk(s.users, s.seats, s.sets[w], s.pcs[w]) && FreshOk(s.owner, s.pcs[w])
  }

  ghost predicate RoomAt(sets: seq<seq<Slot>>, w: nat, size: nat) {
    w < |sets| && |sets[w]| <= size
  }

  ghost predicate BestOk(sets: seq<seq<Slot>>, best: Option<(nat, nat)>) {
    best.Some? ==> RoomAt(sets, best.value.0, best.value.1) && best.value.1 < CLIENTS_PER_THREAD
  }

  /** What keeping the better one leaves after reading these sizes. */
  function BestOf(sizes: seq<nat>): Option<(nat, nat)> {
    if sizes == [] then None
    else Better(BestOf(sizes[..|sizes| - 1]), |sizes| - 1, sizes[|sizes| - 1])
  }

  ghost predicate ScanOk(i: nat, best: Option<(nat, nat)>, read: seq<nat>) {
    i == |read| && best == BestOf(read)
  }

  lemma BestOfSnoc(sizes: seq<nat>, size: nat)
    ensures BestOf(sizes + [size]) == Better(BestOf(sizes), |sizes|, size)
  {
    assert (sizes + [size])[..|sizes|] == sizes;
  }

  /** The kept set is the first of the smallest with room; none is kept iff none has room. */
  lemma {:induction false} BestIsLeast(sizes: seq<nat>)
    ensures BestOf(sizes).None? <==> forall j :: 0 <= j < |sizes| ==> CLIENTS_PER_THREAD <= sizes[j]
    ensures BestOf(sizes).Some? ==>
      var (i, size) := BestOf(sizes).value;
      && i < |sizes| && sizes[i] == size < CLIENTS_PER_THREAD
      && (forall j :: 0 <= j < |sizes| ==> size <= sizes[j])
      && (forall j :: 0 <= j < i ==> size < sizes[j])
  {
    if sizes != [] {
      BestIsLeast(sizes[..|sizes| - 1]);
    }
  }

  /** The set the main thread has chosen still has room; it is never found full. */
  ghost predicate MainOk(sets: seq<seq<Slot>>, main: MainPc) {
    match main
    case Waiting => true
    case ScanEnter(_, i, best, read) => BestOk(sets, best) && ScanOk(i, best, read)
    case ScanIn(_, i, best, read) => BestOk(sets, best) && ScanOk(i, best, read) && i < |sets|
    case ScanLeave(_, i, best, read, size) => BestOk(sets, best) && ScanOk(i, best, read) && RoomAt(sets, i, size)
    case AddEnter(_, w) => RoomAt(sets, w, CLIENTS_PER_THREAD - 1)
    case AddIn(_, w) => RoomAt(sets, w, CLIENTS_PER_THREAD - 1)
    case AddFull(_, _) => false
    case AddLeave(w) => w < |sets|
  }

  ghost predicate CoreOk(s: State) {
    && LocksOk(s)
    && NamesDistinct(s.users) && SeatIds(s.seats) && SetsOk(s.sets) && MainOk(s.sets, s.main)
    && (forall w {:trigger WorkerOk(s, w)} :: 0 <= w < |s.pcs| ==> WorkerOk(s, w))
  }

  // ------------------------------------------------ interference

  lemma UserLockKnown(users: seq<User>, seats: seq<Seat>, slots: seq<Slot>, pc: Pc)
    requires FactsOk(users, seats, slots, pc)
    ensures Locks(pc).user.Some? ==> Locks(pc).user.value < |users|
  {
    hide Entering, PickedOk;
  }

  /** Two workers never guard the same user. */
  lemma GuardsDiffer(s: State, v: nat, w: nat, u: nat)
    requires LocksOk(s) && v < |s.pcs| && w < |s.pcs| && v != w && FreshOk(s.owner, s.pcs[v])
    requires Locks(s.pcs[w]).user == Some(u)
    ensures !Guards(s.pcs[v], u)
  {
    assert Has(Locks(s.pcs[w]), w, UserLock(u));
    assert OwnedBy(s.owner, UserLock(u), Worker(w));
    if Locks(s.pcs[v]).user == Some(u) {
      assert Has(Locks(s.pcs[v]), v, UserLock(u));
      HeldByOne(s, v, w, UserLock(u));
    }
  }

  /** Two workers never hold the same seat. */
  lemma SeatsDiffer(s: State, v: nat, w: nat, k: nat)
    requires LocksOk(s) && v < |s.pcs| && w < |s.pcs| && v != w && Locks(s.pcs[w]).seat == Some(k)
    ensures Locks(s.pcs[v]).seat != Some(k)
  {
    assert Has(Locks(s.pcs[w]), w, SeatLock(k));
    if Locks(s.pcs[v]).seat == Some(k) {
      assert Has(Locks(s.pcs[v]), v, SeatLock(k));
      HeldByOne(s, v, w, SeatLock(k));
    }
  }

  /** Two workers never hold the user array. */
  lemma ArrayDiffers(s: State, v: nat, w: nat)
    requires LocksOk(s) && v < |s.pcs| && w < |s.pcs| && v != w && Locks(s.pcs[w]).array_
    ensures !Locks(s.pcs[v]).array_
  {
    assert Has(Locks(s.pcs[w]), w, ArrayLock);
    if Locks(s.pcs[v]).array_ {
      assert Has(Locks(s.pcs[v]), v, ArrayLock);
      HeldByOne(s, v, w, ArrayLock);
    }
  }

  /** A move within the mover's locks respects what the others rely on. */
  lemma MoveKeepsRely(s: State, w: nat, m: Move, v: nat)
    requires LocksOk(s) && NamesDistinct(s.users) && v < |s.pcs| && w < |s.pcs| && v != w
    requires FreshOk(s.owner, s.pcs[v]) && EffectOk(s.users, s.seats, s.sets[w], s.pcs[w], m)
    ensures Rely(s.users, s.seats, s.sets[v], UsersAfter(s.users, m.effect), SeatsAfter(s.seats, m.effect), s.sets[v],
      s.pcs[v])
  {
    hide Locks, LocksOk, Guards, FreshOk;
    match m.effect
    case AddUser(_, _) => ArrayDiffers(s, v, w);
    case SetFlag(uid, on) => GuardsDiffer(s, v, w, uid);
    case SetHolder(k, event) =>
      var uid :| Locks(s.pcs[w]).user == Some(uid) && uid < |s.users| && s.users[uid].name == event.name;
      GuardsDiffer(s, v, w, uid);
      SeatsDiffer(s, v, w, k);
    case Count(k, event) => SeatsDiffer(s, v, w, k);
    case _ =>
  }

  /** Only a thread with the array lock takes a user lock. */
  lemma UserLockUnderArray(s: State, w: nat, c: Choice)
    requires w < |s.pcs| == |s.sets|
    ensures Program(s, w, c).sync.Acquire? && Program(s, w, c).sync.lock.UserLock? ==> Locks(s.pcs[w]).array_
  {
    hide FindUser, FindFd, Precheck;
  }

  /** A user that another thread is just adding stays unlocked. */
  lemma FreshKept(s: State, w: nat, c: Choice, v: nat)
    requires LocksOk(s) && v < |s.pcs| && w < |s.pcs| && v != w && FreshOk(s.owner, s.pcs[v])
    requires Program(s, w, c).sync.Acquire? ==> Program(s, w, c).sync.lock !in s.owner
    ensures FreshOk(SyncOwner(s.owner, Worker(w), Program(s, w, c).sync), s.pcs[v])
  {
    hide Program, LocksOk;
    SetsLengths(s);
    UserLockUnderArray(s, w, c);
    if s.pcs[v].Handling? && s.pcs[v].stage.NewUser? && Program(s, w, c).sync == Acquire(UserLock(s.pcs[v].stage.uid)) {
      assert Has(Locks(s.pcs[v]), v, ArrayLock);
      assert Has(Locks(s.pcs[w]), w, ArrayLock);
      HeldByOne(s, v, w, ArrayLock);
    }
  }

  /** Only adding a user leads to the stage after it. */
  lemma NewUserIsAdded(s: State, w: nat, c: Choice)
    requires w < |s.pcs| == |s.sets|
    ensures var m := Program(s, w, c);
      m.next.Handling? && m.next.stage.NewUser? ==>
        (m.sync == NoSync && m.next.stage.uid == |s.users|) || (m.next == s.pcs[w] && m.sync == NoSync)
  {
    hide FindUser, FindFd, Precheck;
  }

  ghost predicate AllFacts(s: State)
    requires |s.pcs| == |s.sets|
  {
    forall w {:trigger WorkerOk(s, w)} :: 0 <= w < |s.pcs| ==> WorkerOk(s, w)
  }

  /** No lock of an unknown user is taken. */
  lemma UnknownUserUnlocked(s: State)
    requires LocksOk(s) && AllFacts(s)
    ensures UserLock(|s.users|) !in s.owner
  {
    hide FactsOk, Locks;
    var l := UserLock(|s.users|);
    if l in s.owner {
      assert OwnedBy(s.owner, l, s.owner[l]);
      if s.owner[l].Worker? {
        var v := s.owner[l].w;
        assert Has(Locks(s.pcs[v]), v, l);
        assert WorkerOk(s, v);
        UserLockKnown(s.users, s.seats, s.sets[v], s.pcs[v]);
      }
    }
  }

  lemma TablesKept(s: State, w: nat, m: Move)
    requires w < |s.sets| && w < |s.pcs| && EffectOk(s.users, s.seats, s.sets[w], s.pcs[w], m)
    requires NamesDistinct(s.users) && SeatIds(s.seats) && SetsOk(s.sets)
    ensures NamesDistinct(UsersAfter(s.users, m.effect)) && SeatIds(SeatsAfter(s.seats, m.effect))
    ensures SetsOk(s.sets[w := SlotsAfter(s.sets[w], m.effect)])
    ensures |SlotsAfter(s.sets[w], m.effect)| <= |s.sets[w]|
  {
    hide Locks;
    if m.effect.AddUser? {
      AddKeepsDistinct(s.users, m.effect.name, m.effect.password);
    }
  }

  lemma RoomKept(sets: seq<seq<Slot>>, more: seq<seq<Slot>>, main: MainPc)
    requires MainOk(sets, main) && |more| == |sets|
    requires forall v {:trigger more[v]} :: 0 <= v < |sets| ==> |more[v]| <= |sets[v]|
    ensures MainOk(more, main)
  {
  }

  lemma OwnFactsStep(s: State, w: nat, c: Choice)
    requires CoreOk(s) && w < |s.pcs|
    requires Program(s, w, c).sync.Acquire? ==> Program(s, w, c).sync.lock !in s.owner
    ensures WorkerOk(Apply(s, w, Program(s, w, c)), w)
  {
    assert WorkerOk(s, w);
    hide Program, Apply, FactsOk, LocksOk;
    SetsLengths(s);
    ProgramOk(s, w, c);
    var m := Program(s, w, c);
    ApplyTables(s, w, m);
    ApplyShape(s, w, m);
    NewUserIsAdded(s, w, c);
    UnknownUserUnlocked(s);
  }

  lemma SetsLengths(s: State)
    requires LocksOk(s)
    ensures |s.pcs| == |s.sets|
  {
  }

  lemma OtherFactsStep(s: State, w: nat, c: Choice, v: nat)
    requires CoreOk(s) && w < |s.pcs| && v < |s.pcs| && v != w
    requires Program(s, w, c).sync.Acquire? ==> Program(s, w, c).sync.lock !in s.owner
    ensures WorkerOk(Apply(s, w, Program(s, w, c)), v)
  {
    assert WorkerOk(s, w) && WorkerOk(s, v);
    hide Program, Apply, FactsOk, LocksOk, Rely, EffectOk;
    SetsLengths(s);
    ProgramOk(s, w, c);
    var m := Program(s, w, c);
    ApplyTables(s, w, m);
    ApplyShape(s, w, m);
    MoveKeepsRely(s, w, m, v);
    FactsStable(s.users, s.seats, s.sets[v], UsersAfter(s.users, m.effect), SeatsAfter(s.seats, m.effect), s.sets[v],
      s.pcs[v]);
    FreshKept(s, w, c, v);
  }

  /** Every worker step keeps the core invariant. */
  lemma CoreWorkerStep(s: State, w: nat, c: Choice)
    requires CoreOk(s) && w < |s.pcs|
    ensures CoreOk(WorkerStep(s, w, c))
  {
    hide Program, Apply, FactsOk, LocksOk, EffectOk, WorkerOk, MainOk, SetsOk, NamesDistinct, SeatIds;
    SetsLengths(s);
    var m := Program(s, w, c);
    WorkerLocksStep(s, w, c);
    if m.sync.Acquire? && m.sync.lock in s.owner {
      return;
    }
    var t := Apply(s, w, m);
    WorkerMoveOk(s, w, c);
    TablesKept(s, w, m);
    ApplyTables(s, w, m);
    ApplyShape(s, w, m);
    RoomKept(s.sets, t.sets, s.main);
    forall v | 0 <= v < |t.pcs| ensures WorkerOk(t, v) {
      if v == w {
        OwnFactsStep(s, w, c);
      } else {
        OtherFactsStep(s, w, c, v);
      }
    }
  }

  lemma WorkerMoveOk(s: State, w: nat, c: Choice)
    requires CoreOk(s) && w < |s.pcs|
    ensures |s.pcs| == |s.sets| && MoveOk(s.users, s.seats, s.sets[w], s.pcs[w], Program(s, w, c))
    ensures EffectOk(s.users, s.seats, s.sets[w], s.pcs[w], Program(s, w, c))
  {
    assert WorkerOk(s, w);
    hide Program, FactsOk, LocksOk, EffectOk;
    SetsLengths(s);
    ProgramOk(s, w, c);
  }

  // ------------------------------------------------ the main thread, and runs

  /** The main thread changes no users and no seats, and only appends to sets. */
  lemma MainTables(s: State, fd: nat)
    requires MainOk(s.sets, s.main) && SetsOk(s.sets)
    ensures var t := MainStep(s, fd);
      && t.users == s.users && t.seats == s.seats && t.pcs == s.pcs && |t.sets| == |s.sets| && t.exited == s.exited
      && SetsOk(t.sets) && MainOk(t.sets, t.main)
      && (forall v {:trigger t.sets[v]} :: 0 <= v < |s.sets| ==> s.sets[v] <= t.sets[v])
  {
    MainKeeps(s, fd);
    hide MainStep, MainOk, SetsOk;
    MainHasRoom(s, fd);
  }

  lemma MainKeeps(s: State, fd: nat)
    requires SetsOk(s.sets)
    ensures var t := MainStep(s, fd);
      && t.users == s.users && t.seats == s.seats && t.pcs == s.pcs && |t.sets| == |s.sets| && t.exited == s.exited
      && SetsOk(t.sets)
      && (forall v {:trigger t.sets[v]} :: 0 <= v < |s.sets| ==> s.sets[v] <= t.sets[v])
  {
    hide IsWake, Better;
  }

  lemma MainHasRoom(s: State, fd: nat)
    requires MainOk(s.sets, s.main)
    ensures MainOk(MainStep(s, fd).sets, MainStep(s, fd).main)
  {
    if s.main.ScanLeave? {
      BestOfSnoc(s.main.read, s.main.size);
    }
    hide IsWake;
  }

  /** The main thread takes poll locks only. */
  lemma MainKeepsUserLocks(s: State, fd: nat, l: Lock)
    requires !l.PollLock?
    ensures l in MainStep(s, fd).owner <==> l in s.owner
  {
    hide IsWake, Better;
  }

  lemma SameRely(users: seq<User>, seats: seq<Seat>, slots: seq<Slot>, slots': seq<Slot>, pc: Pc)
    requires slots <= slots'
    ensures Rely(users, seats, slots, users, seats, slots', pc)
  {
  }

  lemma CoreMainStep(s: State, fd: nat)
    requires CoreOk(s)
    ensures CoreOk(MainStep(s, fd))
  {
    hide MainStep, FactsOk, LocksOk, MainOk, SetsOk, NamesDistinct, SeatIds, Rely;
    SetsLengths(s);
    var t := MainStep(s, fd);
    MainLocksStep(s, fd);
    MainTables(s, fd);
    forall v | 0 <= v < |t.pcs| ensures WorkerOk(t, v) {
      assert WorkerOk(s, v);
      SameRely(s.users, s.seats, s.sets[v], t.sets[v], s.pcs[v]);
      FactsStable(s.users, s.seats, s.sets[v], s.users, s.seats, t.sets[v], s.pcs[v]);
      if s.pcs[v].Handling? && s.pcs[v].stage.NewUser? {
        MainKeepsUserLocks(s, fd, UserLock(s.pcs[v].stage.uid));
      }
    }
  }

  lemma CoreInit(s: State)
    requires Init(s)
    ensures CoreOk(s)
  {
    forall w | 0 <= w < |s.pcs| ensures WorkerOk(s, w) && WorkerOwns(s.owner, w, s.pcs[w]) {
    }
  }
}
