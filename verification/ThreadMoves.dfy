/** A worker's own move keeps its facts, and touches only what its locks cover. */
module ThreadMoves {
  import opened Options
  import opened ServerTables
  import opened Reservation
  import opened LockDiscipline
  import opened ThreadFacts

  /** What effect a worker may have: flags under the user's lock, seats under the seat's
      and the user's lock, its own slots, and new users under the array lock. */
  ghost predicate EffectOk(users: seq<User>, seats: seq<Seat>, slots: seq<Slot>, pc: Pc, m: Move) {
    match m.effect
    case NoEffect => true
    case Exit => true
    case AddUser(name, _) => Locks(pc).array_ && FindUser(users, name) == None
    case SetFlag(uid, _) => Locks(pc).user == Some(uid) && uid < |users|
    case SetActive(i, _) => 1 <= i < |slots|
    case SetHolder(k, event) =>
      && Locks(pc).seat == Some(k) && k < |seats|
      && (exists uid :: Locks(pc).user == Some(uid) && uid < |users| && users[uid].name == event.name)
      && seats[k].holder == (if event.BookedBy? then None else Some(event.name))
    case Count(k, _) => Locks(pc).seat == Some(k)
    case CloseFd(_) => Locks(pc).poll
    case RemoveSlot(i) => Locks(pc).poll && 1 <= i < |slots|
  }

  lemma ApplyTables(s: State, w: nat, m: Move)
    requires w < |s.pcs| == |s.sets|
    ensures var t := Apply(s, w, m);
      && t.users == UsersAfter(s.users, m.effect) && t.seats == SeatsAfter(s.seats, m.effect)
      && t.sets == s.sets[w := SlotsAfter(s.sets[w], m.effect)]
      && t.open == (if m.effect.CloseFd? then s.open - {m.effect.fd} else s.open)
      && t.exited == (s.exited || m.effect.Exit?)
  {
  }

  /** Facts and permission of a move. */
  ghost predicate MoveOk(users: seq<User>, seats: seq<Seat>, slots: seq<Slot>, pc: Pc, m: Move) {
    && EffectOk(users, seats, slots, pc, m)
    && FactsOk(UsersAfter(users, m.effect), SeatsAfter(seats, m.effect), SlotsAfter(slots, m.effect), m.next)
  }

  lemma NothingBooked(seats: seq<Seat>, name: Name)
    ensures BookedIds(seats, name, 0) == []
  {
  }

  lemma FlagOk(s: State, slots: seq<Slot>, task: Task, uid: nat)
    requires FactsOk(s.users, s.seats, slots, Handling(task, InUser(uid))) && |s.seats| == NUM_SEATS
    ensures MoveOk(s.users, s.seats, slots, Handling(task, InUser(uid)),
      EntryMove(s, task, InUser(uid), slots[task.slot].active))
  {
    hide Without, FindUser, BookedIds;
    NothingBooked(s.seats, UserName(task.req));
  }

  lemma EntranceOk(s: State, slots: seq<Slot>, task: Task, stage: Stage)
    requires AtEntrance(stage) && !stage.InUser? && FactsOk(s.users, s.seats, slots, Handling(task, stage))
      && |s.seats| == NUM_SEATS
    ensures MoveOk(s.users, s.seats, slots, Handling(task, stage),
      EntryMove(s, task, stage, slots[task.slot].active))
  {
    hide Without, FindUser, SeatsAfter, BookedIds, PickedOk;
  }

  lemma MarkingOk(s: State, slots: seq<Slot>, task: Task, stage: Stage)
    requires !AtSeats(stage) && !AtEntrance(stage) && FactsOk(s.users, s.seats, slots, Handling(task, stage))
      && |s.seats| == NUM_SEATS
    ensures MoveOk(s.users, s.seats, slots, Handling(task, stage),
      EntryMove(s, task, stage, slots[task.slot].active))
  {
    LoginHasPassword(task.req, slots[task.slot].active);
    hide Without, FindUser, SeatsAfter, BookedIds, PickedOk, Precheck;
  }

  lemma LoginHasPassword(req: Request, active: Option<Name>)
    ensures Entering(req, active) && req.Login? ==> req.password == Some(PasswordOf(req))
  {
  }

  lemma EntryOk(s: State, slots: seq<Slot>, task: Task, stage: Stage)
    requires !AtSeats(stage) && FactsOk(s.users, s.seats, slots, Handling(task, stage)) && |s.seats| == NUM_SEATS
    ensures MoveOk(s.users, s.seats, slots, Handling(task, stage),
      EntryMove(s, task, stage, slots[task.slot].active))
  {
    hide MoveOk, FactsOk, EntryMove;
    if stage.InUser? {
      FlagOk(s, slots, task, stage.uid);
    } else if AtEntrance(stage) {
      EntranceOk(s, slots, task, stage);
    } else {
      MarkingOk(s, slots, task, stage);
    }
  }

  lemma BookedStep(seats: seq<Seat>, req: Request, k: nat, picked: seq<nat>, now: seq<nat>)
    requires k < |seats| && PickedOk(seats, req, k, picked)
    requires ListsBooked(req) ==>
      now == if seats[k].holder == Some(UserName(req)) then picked + [seats[k].id] else picked
    ensures PickedOk(seats, req, k + 1, now)
  {
    if ListsBooked(req) {
      assert picked + [] == picked;
    }
  }

  lemma ListOk(s: State, slots: seq<Slot>, task: Task, uid: nat, k: nat, picked: seq<nat>)
    requires FactsOk(s.users, s.seats, slots, Handling(task, InSeat(uid, k, picked))) && |s.seats| == NUM_SEATS
      && task.req.Confirm?
    ensures MoveOk(s.users, s.seats, slots, Handling(task, InSeat(uid, k, picked)),
      SeatMove(s.seats[k], task, uid, k, picked))
  {
    hide BookedIds, PickedOk, Precheck;
    var req := task.req;
    var take := if req.list.WantsAvailable? then s.seats[k].holder.None? else s.seats[k].holder == Some(UserName(req));
    BookedStep(s.seats, req, k, picked, if take then picked + [s.seats[k].id] else picked);
  }

  lemma ChangeOk(s: State, slots: seq<Slot>, task: Task, uid: nat, k: nat, picked: seq<nat>)
    requires FactsOk(s.users, s.seats, slots, Handling(task, InSeat(uid, k, picked))) && |s.seats| == NUM_SEATS
      && !task.req.Confirm?
    ensures MoveOk(s.users, s.seats, slots, Handling(task, InSeat(uid, k, picked)),
      SeatMove(s.seats[k], task, uid, k, picked))
  {
    hide BookedIds, PickedOk, Precheck;
  }

  /** Looking at a seat: listing or changing it. */
  lemma LookOk(s: State, slots: seq<Slot>, task: Task, uid: nat, k: nat, picked: seq<nat>)
    requires FactsOk(s.users, s.seats, slots, Handling(task, InSeat(uid, k, picked))) && |s.seats| == NUM_SEATS
    ensures k < |s.seats|
    ensures MoveOk(s.users, s.seats, slots, Handling(task, InSeat(uid, k, picked)),
      SeatMove(s.seats[k], task, uid, k, picked))
  {
    hide MoveOk, SeatMove, SessionOk, PickedOk;
    if task.req.Confirm? {
      ListOk(s, slots, task, uid, k, picked);
    } else {
      ChangeOk(s, slots, task, uid, k, picked);
    }
  }

  lemma LeaveSeatOk(s: State, slots: seq<Slot>, task: Task, stage: Stage)
    requires stage.LeaveSeat? && FactsOk(s.users, s.seats, slots, Handling(task, stage)) && |s.seats| == NUM_SEATS
    ensures MoveOk(s.users, s.seats, slots, Handling(task, stage), SeatStageMove(s, task, stage))
  {
    hide BookedIds, SeatMove, Entering, PickedOk, NameOf;
  }

  lemma LeavingOk(s: State, slots: seq<Slot>, task: Task, stage: Stage)
    requires stage.EnterSeat? || stage.Counting? || stage.LeaveUser?
    requires FactsOk(s.users, s.seats, slots, Handling(task, stage)) && |s.seats| == NUM_SEATS
    ensures MoveOk(s.users, s.seats, slots, Handling(task, stage), SeatStageMove(s, task, stage))
  {
    hide BookedIds, SeatMove, Entering, PickedOk, NameOf;
  }

  lemma StatsOk(s: State, slots: seq<Slot>, task: Task, stage: Stage)
    requires stage.EnterStats? || stage.InStats? || stage.LeaveStats?
    requires FactsOk(s.users, s.seats, slots, Handling(task, stage)) && |s.seats| == NUM_SEATS
    ensures MoveOk(s.users, s.seats, slots, Handling(task, stage), SeatStageMove(s, task, stage))
  {
    hide BookedIds, SeatMove, Entering, PickedOk, NameOf;
  }

  lemma SeatStageOk(s: State, slots: seq<Slot>, task: Task, stage: Stage)
    requires AtSeats(stage) && FactsOk(s.users, s.seats, slots, Handling(task, stage)) && |s.seats| == NUM_SEATS
    ensures MoveOk(s.users, s.seats, slots, Handling(task, stage), SeatStageMove(s, task, stage))
  {
    hide MoveOk, SeatMove, FactsOk;
    if stage.InSeat? {
      LookOk(s, slots, task, stage.uid, stage.k, stage.picked);
    } else if stage.LeaveSeat? {
      LeaveSeatOk(s, slots, task, stage);
    } else if stage.EnterStats? || stage.InStats? || stage.LeaveStats? {
      StatsOk(s, slots, task, stage);
    } else {
      LeavingOk(s, slots, task, stage);
    }
  }

  lemma OffMoveOk(s: State, w: nat, slots: seq<Slot>, fd: nat, off: OffStage)
    requires FactsOk(s.users, s.seats, slots, Dropping(fd, off))
    ensures MoveOk(s.users, s.seats, slots, Dropping(fd, off), OffMove(s, w, slots, fd, off))
  {
    hide FindUser;
    if off.Removing? {
      WithoutKeepsOthers(slots, off.i);
    }
  }

  lemma SimpleOk(s: State, w: nat, c: Choice)
    requires w < |s.pcs| == |s.sets| && !s.pcs[w].Handling? && !s.pcs[w].Dropping?
    requires FactsOk(s.users, s.seats, s.sets[w], s.pcs[w])
    ensures MoveOk(s.users, s.seats, s.sets[w], s.pcs[w], Program(s, w, c))
  {
    if s.pcs[w].Found? {
      FoundNotWake(s.sets[w], s.pcs[w].fd);
    }
  }

  lemma FoundNotWake(slots: seq<Slot>, fd: nat)
    requires NotWake(slots, fd)
    ensures FindFd(slots, fd, 0).Some? ==> SlotIs(slots, FindFd(slots, fd, 0).value, fd)
  {
  }

  /** Every move of a worker keeps its facts and stays within its locks. */
  lemma ProgramOk(s: State, w: nat, c: Choice)
    requires w < |s.pcs| == |s.sets| && |s.seats| == NUM_SEATS
    requires FactsOk(s.users, s.seats, s.sets[w], s.pcs[w])
    ensures MoveOk(s.users, s.seats, s.sets[w], s.pcs[w], Program(s, w, c))
  {
    hide MoveOk, StageOk, OffOk, EntryMove, SeatStageMove, OffMove;
    match s.pcs[w]
    case Handling(task, stage) =>
      if AtSeats(stage) {
        SeatStageOk(s, s.sets[w], task, stage);
      } else {
        EntryOk(s, s.sets[w], task, stage);
      }
    case Dropping(fd, off) => OffMoveOk(s, w, s.sets[w], fd, off);
    case other => SimpleOk(s, w, c);
  }
}
