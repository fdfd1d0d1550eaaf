/** Descriptors stay apart (PA3/server/pa3_server.c:122-184, PA3/server/pa3_server.c:335-353):
    although a number is reused as soon as it is closed, a poll set never holds one twice, so
    looking a descriptor up finds its own connection. */
module Connections {
  import opened Options
  import opened ServerTables
  import opened Reservation
  import opened LockDiscipline
  import opened ThreadFacts
  import opened ThreadMoves
  import opened ServerCore

  /** The descriptor of a client slot, unless it has just been closed. */
  function LiveAt(pc: Pc, slots: seq<Slot>, i: nat): Option<nat> {
    if 1 <= i < |slots| && !(pc.Dropping? && pc.off == Removing(i)) then Some(slots[i].fd) else None
  }

  function Live(s: State, w: nat, i: nat): Option<nat> {
    if w < |s.pcs| && w < |s.sets| then LiveAt(s.pcs[w], s.sets[w], i) else None
  }

  ghost predicate LiveOpen(s: State) {
    forall w: nat, i: nat {:trigger Live(s, w, i)} :: Live(s, w, i).Some? ==> Live(s, w, i).value in s.open
  }

  ghost predicate LiveUnique(s: State) {
    forall v: nat, i: nat, w: nat, j: nat {:trigger Live(s, v, i), Live(s, w, j)} ::
      Live(s, v, i).Some? && Live(s, v, i) == Live(s, w, j) ==> v == w && i == j
  }

  /** The connection the main thread is about to place. */
  function Conn(main: MainPc): Option<nat> {
    match main
    case ScanEnter(conn, _, _, _) => Some(conn)
    case ScanIn(conn, _, _, _) => Some(conn)
    case ScanLeave(conn, _, _, _, _) => Some(conn)
    case AddEnter(conn, _) => Some(conn)
    case AddIn(conn, _) => Some(conn)
    case AddFull(conn, _) => Some(conn)
    case _ => None
  }

  ghost predicate ConnOk(s: State) {
    Conn(s.main).Some? ==>
      && Conn(s.main).value in s.open
      && (forall w: nat, i: nat {:trigger Live(s, w, i)} :: Live(s, w, i) != Conn(s.main))
  }

  /** Wake pipes are not client connections. */
  ghost predicate WakesOk(s: State) {
    forall w {:trigger s.sets[w]} :: 0 <= w < |s.sets| && s.sets[w] != [] ==> s.sets[w][0].fd !in s.open
  }

  predicate DistinctFds(slots: seq<Slot>) {
    forall i, j :: 0 <= i < j < |slots| ==> slots[i].fd != slots[j].fd
  }

  ghost predicate SetsDistinct(s: State) {
    forall w {:trigger s.sets[w]} :: 0 <= w < |s.sets| ==> DistinctFds(s.sets[w])
  }

  ghost predicate IsLive(s: State, fd: nat) {
    exists w: nat, i: nat :: Live(s, w, i) == Some(fd)
  }

  /** No connection is lost: an open one is in some set, or is about to be placed. */
  ghost predicate OpenOwned(s: State) {
    forall fd {:trigger fd in s.open} :: fd in s.open ==> Conn(s.main) == Some(fd) || IsLive(s, fd)
  }

  ghost predicate FdsOk(s: State) {
    LiveOpen(s) && LiveUnique(s) && ConnOk(s) && WakesOk(s) && SetsDistinct(s) && OpenOwned(s)
  }

  /** Looking a slot's descriptor up finds that slot. */
  lemma LookupIsExact(slots: seq<Slot>, i: nat)
    requires DistinctFds(slots) && i < |slots|
    ensures FindFd(slots, slots[i].fd, 0) == Some(i)
  {
  }

  // ------------------------------------------------ worker moves

  /** The descriptors of slots change only by removal. */
  ghost predicate KeepsFds(slots: seq<Slot>, pc: Pc, m: Move) {
    && !m.effect.CloseFd? && !m.effect.RemoveSlot?
    && !(m.next.Dropping? && m.next.off.Removing?) && !(pc.Dropping? && pc.off.Removing?)
  }

  ghost predicate ClosesFd(slots: seq<Slot>, pc: Pc, m: Move) {
    && pc.Dropping? && pc.off.Closing? && 1 <= pc.off.i < |slots| && slots[pc.off.i].fd == pc.fd
    && m.effect == CloseFd(pc.fd) && m.next == Dropping(pc.fd, Removing(pc.off.i))
  }

  ghost predicate RemovesFd(slots: seq<Slot>, pc: Pc, m: Move) {
    && pc.Dropping? && pc.off.Removing? && 1 <= pc.off.i < |slots|
    && m.effect == RemoveSlot(pc.off.i) && m.next == Dropping(pc.fd, OffLeave)
  }

  ghost predicate FdMove(slots: seq<Slot>, pc: Pc, m: Move) {
    KeepsFds(slots, pc, m) || ClosesFd(slots, pc, m) || RemovesFd(slots, pc, m)
  }

  lemma LookFds(seat: Seat, slots: seq<Slot>, task: Task, uid: nat, k: nat, picked: seq<nat>)
    ensures FdMove(slots, Handling(task, InSeat(uid, k, picked)), SeatMove(seat, task, uid, k, picked))
  {
  }

  lemma ProgramFds(s: State, w: nat, c: Choice)
    requires w < |s.pcs| == |s.sets| && FactsOk(s.users, s.seats, s.sets[w], s.pcs[w])
    ensures FdMove(s.sets[w], s.pcs[w], Program(s, w, c))
  {
    hide StageOk, FindFd, FindUser, Precheck, Matches, SeatMove;
    if s.pcs[w].Handling? && s.pcs[w].stage.InSeat? && s.pcs[w].stage.k < |s.seats| {
      var task, at := s.pcs[w].task, s.pcs[w].stage;
      LookFds(s.seats[at.k], s.sets[w], task, at.uid, at.k, at.picked);
    }
  }

  lemma KeptFds(slots: seq<Slot>, e: Effect)
    requires !e.RemoveSlot?
    ensures |SlotsAfter(slots, e)| == |slots|
    ensures forall i {:trigger SlotsAfter(slots, e)[i]} :: 0 <= i < |slots| ==>
      SlotsAfter(slots, e)[i].fd == slots[i].fd
  {
  }

  /** The step of worker `w` to `t`. */
  ghost predicate Moved(s: State, t: State, w: nat, m: Move) {
    && |s.pcs| == |s.sets| && w < |s.pcs|
    && t.pcs == s.pcs[w := m.next] && t.sets == s.sets[w := SlotsAfter(s.sets[w], m.effect)] && t.main == s.main
    && t.open == (if m.effect.CloseFd? then s.open - {m.effect.fd} else s.open)
  }

  lemma LiveElsewhere(s: State, t: State, w: nat, m: Move, v: nat, i: nat)
    requires Moved(s, t, w, m) && v != w
    ensures Live(t, v, i) == Live(s, v, i)
  {
  }

  lemma KeepStep(s: State, t: State, w: nat, m: Move)
    requires FdsOk(s) && Moved(s, t, w, m) && KeepsFds(s.sets[w], s.pcs[w], m)
    ensures FdsOk(t)
  {
    KeptFds(s.sets[w], m.effect);
    hide SlotsAfter;
    forall v: nat, i: nat ensures Live(t, v, i) == Live(s, v, i) {
      if v != w {
        LiveElsewhere(s, t, w, m, v, i);
      }
    }
    hide Live;
    assert DistinctFds(s.sets[w]);
  }

  lemma CloseStep(s: State, t: State, w: nat, m: Move)
    requires FdsOk(s) && Moved(s, t, w, m) && ClosesFd(s.sets[w], s.pcs[w], m)
    ensures FdsOk(t)
  {
    var i := s.pcs[w].off.i;
    forall v: nat, j: nat
      ensures Live(t, v, j) == if v == w && j == i then None else Live(s, v, j)
    {
      if v != w {
        LiveElsewhere(s, t, w, m, v, j);
      }
    }
    assert Live(s, w, i) == Some(s.pcs[w].fd);
    hide Live;
  }

  lemma WithoutDistinct(slots: seq<Slot>, i: nat)
    requires DistinctFds(slots) && 1 <= i < |slots|
    ensures DistinctFds(Without(slots, i))
  {
    WithoutKeepsOthers(slots, i);
    hide Without;
    var rest := Without(slots, i);
    forall a, b | 0 <= a < b < |rest| ensures rest[a].fd != rest[b].fd {
      assert rest[a] == if a == i then slots[|slots| - 1] else slots[a];
      assert rest[b] == if b == i then slots[|slots| - 1] else slots[b];
    }
  }

  lemma RemoveStep(s: State, t: State, w: nat, m: Move)
    requires FdsOk(s) && Moved(s, t, w, m) && RemovesFd(s.sets[w], s.pcs[w], m)
    ensures FdsOk(t)
  {
    var i, last := s.pcs[w].off.i, |s.sets[w]| - 1;
    assert DistinctFds(s.sets[w]);
    WithoutDistinct(s.sets[w], i);
    WithoutKeepsOthers(s.sets[w], i);
    hide Without;
    forall v: nat, j: nat
      ensures Live(t, v, j) ==
        if v != w then Live(s, v, j)
        else if j == last then None
        else if j == i then Live(s, w, last)
        else Live(s, w, j)
    {
      if v != w {
        LiveElsewhere(s, t, w, m, v, j);
      }
    }
    hide Live;
    forall fd | fd in t.open && Conn(t.main) != Some(fd) ensures IsLive(t, fd) {
      var v: nat, j: nat :| Live(s, v, j) == Some(fd);
      assert Live(t, v, if v == w && j == last then i else j) == Some(fd);
    }
  }

  lemma FdsWorkerStep(s: State, w: nat, c: Choice)
    requires CoreOk(s) && FdsOk(s) && w < |s.pcs|
    ensures FdsOk(WorkerStep(s, w, c))
  {
    WorkerMoveOk(s, w, c);
    assert WorkerOk(s, w);
    hide Program, Apply, FactsOk, LocksOk, EffectOk, FdsOk, KeepsFds, ClosesFd, RemovesFd;
    var m := Program(s, w, c);
    if m.sync.Acquire? && m.sync.lock in s.owner {
      return;
    }
    var t := Apply(s, w, m);
    ApplyTables(s, w, m);
    ApplyShape(s, w, m);
    ProgramFds(s, w, c);
    if KeepsFds(s.sets[w], s.pcs[w], m) {
      KeepStep(s, t, w, m);
    } else if ClosesFd(s.sets[w], s.pcs[w], m) {
      CloseStep(s, t, w, m);
    } else {
      RemoveStep(s, t, w, m);
    }
  }

  // ------------------------------------------------ the main thread

  /** While the main thread holds a set's lock, its worker is not taking a slot out. */
  lemma NotRemoving(s: State, w: nat)
    requires LocksOk(s) && w < |s.pcs| && MainLocked(s.main) == Some(w)
    ensures !Locks(s.pcs[w]).poll
  {
    var l := PollLock(w);
    assert MainHas(s.main, l) <==> OwnedBy(s.owner, l, MainThread);
    assert Has(Locks(s.pcs[w]), w, l) <==> OwnedBy(s.owner, l, Worker(w));
  }

  lemma RemovingHoldsPoll(pc: Pc)
    requires !Locks(pc).poll
    ensures !(pc.Dropping? && pc.off.Removing?)
  {
  }

  lemma AcceptStep(s: State, t: State, fd: nat)
    requires FdsOk(s) && s.main == Waiting && fd !in s.open && !IsWake(s, fd)
    requires t.open == s.open + {fd} && t.sets == s.sets && t.pcs == s.pcs && Conn(t.main) == Some(fd)
    ensures FdsOk(t)
  {
    forall v: nat, i: nat ensures Live(t, v, i) == Live(s, v, i) {
    }
    hide Live;
  }

  lemma PlaceStep(s: State, t: State, conn: nat, w: nat)
    requires FdsOk(s) && SetsOk(s.sets) && w < |s.pcs| == |s.sets| && Conn(s.main) == Some(conn)
      && !(s.pcs[w].Dropping? && s.pcs[w].off.Removing?)
    requires t.open == s.open && t.sets == s.sets[w := s.sets[w] + [Slot(conn, None)]] && t.pcs == s.pcs
      && Conn(t.main) == None
    ensures FdsOk(t)
  {
    var n := |s.sets[w]|;
    forall v: nat, i: nat
      ensures Live(t, v, i) == if v == w && i == n then Some(conn) else Live(s, v, i)
    {
    }
    forall i | 0 <= i < n ensures s.sets[w][i].fd != conn {
      assert i == 0 || Live(s, w, i) == Some(s.sets[w][i].fd);
    }
    assert Live(s, w, n) == None;
    hide Live;
    assert DistinctFds(s.sets[w]);
    forall fd | fd in t.open ensures IsLive(t, fd) {
      if fd == conn {
        assert Live(t, w, n) == Some(fd);
      } else {
        var v: nat, j: nat :| Live(s, v, j) == Some(fd);
        assert Live(t, v, j) == Some(fd);
      }
    }
  }

  lemma IdleStep(s: State, t: State)
    requires FdsOk(s) && t.open == s.open && t.sets == s.sets && t.pcs == s.pcs
    requires Conn(t.main) == Conn(s.main)
    ensures FdsOk(t)
  {
    forall v: nat, i: nat ensures Live(t, v, i) == Live(s, v, i) {
    }
    hide Live;
  }

  lemma FdsMainStep(s: State, fd: nat)
    requires CoreOk(s) && FdsOk(s)
    ensures FdsOk(MainStep(s, fd))
  {
    hide FdsOk, LocksOk, NamesDistinct, SeatIds, SetsOk, IsWake, Better, WorkerOk;
    SetsLengths(s);
    var t := MainStep(s, fd);
    if s.main.Waiting? && fd !in s.open && !IsWake(s, fd) {
      AcceptStep(s, t, fd);
    } else if s.main.AddIn? {
      NotRemoving(s, s.main.w);
      RemovingHoldsPoll(s.pcs[s.main.w]);
      PlaceStep(s, t, s.main.conn, s.main.w);
    } else {
      IdleStep(s, t);
    }
  }

  /** The pipes are open before any client is: their descriptors are no client's. */
  lemma FdsInit(s: State)
    requires Init(s)
    ensures FdsOk(s)
  {
  }
}
