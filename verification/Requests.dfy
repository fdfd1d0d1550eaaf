/** What becomes of a request in every run: it is carried through as it was received, its
    worker comes to an answer, and the answer is right about what the worker found while it
    held the locks (PA3/server/handle_request.c:61-317). */
module Requests {
  import opened Options
  import opened ServerTables
  import opened Reservation
  import opened LockDiscipline
  import opened ThreadFacts
  import opened ThreadMoves
  import opened ServerCore
  import opened Sessions
  import opened SeatHistory
  import opened Connections
  import opened ReservationTheorems

  // ------------------------------------------------ steps as a worker sees them

  /** Worker `w`'s own move. */
  ghost predicate OwnStep(s: State, t: State, w: nat, c: Choice) {
    && w < |s.pcs| == |s.sets|
    && var m := Program(s, w, c);
      && t.users == UsersAfter(s.users, m.effect) && t.seats == SeatsAfter(s.seats, m.effect)
      && t.pcs == s.pcs[w := m.next] && t.sets == s.sets[w := SlotsAfter(s.sets[w], m.effect)]
  }

  /** A step that is not worker `w`'s, or in which it waits. */
  ghost predicate OthersStep(s: State, t: State, w: nat) {
    && w < |s.pcs| == |s.sets| && |t.pcs| == |t.sets| == |s.pcs|
    && t.pcs[w] == s.pcs[w] && s.sets[w] <= t.sets[w] && |t.seats| == |s.seats|
    && (Locks(s.pcs[w]).poll ==> t.sets[w] == s.sets[w])
    && (forall k {:trigger t.seats[k]} :: 0 <= k < |s.seats| ==>
          s.seats[k].log <= t.seats[k].log && (Locks(s.pcs[w]).seat == Some(k) ==> t.seats[k] == s.seats[k]))
  }

  lemma RelyKeepsSeat(users: seq<User>, seats: seq<Seat>, slots: seq<Slot>, users': seq<User>, seats': seq<Seat>,
                      slots': seq<Slot>, pc: Pc, k: nat)
    requires Rely(users, seats, slots, users', seats', slots', pc) && k < |seats|
    ensures k < |seats'| && (Locks(pc).seat == Some(k) ==> seats'[k] == seats[k])
  {
  }

  lemma LogsGrow(seats: seq<Seat>, e: Effect, k: nat)
    requires k < |seats|
    ensures k < |SeatsAfter(seats, e)| && seats[k].log <= SeatsAfter(seats, e)[k].log
  {
  }

  lemma OtherWorkerStep(s: State, w: nat, v: nat, c: Choice)
    requires CoreOk(s) && w < |s.pcs| && v < |s.pcs| && v != w
    ensures OthersStep(s, WorkerStep(s, v, c), w)
  {
    hide LocksOk, FactsOk, Program, Apply, Rely, EffectOk, MainOk, SetsOk, NamesDistinct, Locks, SeatsAfter;
    SetsLengths(s);
    assert WorkerOk(s, w);
    var m, t := Program(s, v, c), WorkerStep(s, v, c);
    if !(m.sync.Acquire? && m.sync.lock in s.owner) {
      WorkerMoveOk(s, v, c);
      ApplyTables(s, v, m);
      ApplyShape(s, v, m);
      MoveKeepsRely(s, v, m, w);
      RelyKeepsLength(s.users, s.seats, s.sets[w], t.users, t.seats, s.sets[w], s.pcs[w]);
      forall k | 0 <= k < |s.seats|
        ensures s.seats[k].log <= t.seats[k].log && (Locks(s.pcs[w]).seat == Some(k) ==> t.seats[k] == s.seats[k])
      {
        RelyKeepsSeat(s.users, s.seats, s.sets[w], t.users, t.seats, s.sets[w], s.pcs[w], k);
        LogsGrow(s.seats, m.effect, k);
      }
    }
  }

  lemma RelyKeepsLength(users: seq<User>, seats: seq<Seat>, slots: seq<Slot>, users': seq<User>, seats': seq<Seat>,
                        slots': seq<Slot>, pc: Pc)
    requires Rely(users, seats, slots, users', seats', slots', pc)
    ensures |seats'| == |seats|
  {
  }

  /** Every step is the worker's own or leaves alone what the worker holds. */
  lemma StepKinds(s: State, t: State, w: nat)
    requires CoreOk(s) && Step(s, t) && w < |s.pcs|
    ensures |s.pcs| == |s.sets| && ((exists c :: OwnStep(s, t, w, c)) || OthersStep(s, t, w))
  {
    hide LocksOk, Program, Apply, MainStep, MainOk, SetsOk, NamesDistinct, WorkerOk, Locks, SeatIds;
    SetsLengths(s);
    if v, c :| 0 <= v < |s.pcs| && t == WorkerStep(s, v, c) {
      var m := Program(s, w, c);
      if v != w {
        OtherWorkerStep(s, w, v, c);
      } else if !(m.sync.Acquire? && m.sync.lock in s.owner) {
        ApplyTables(s, w, m);
        ApplyShape(s, w, m);
        assert OwnStep(s, t, w, c);
      }
    } else {
      var fd: nat :| t == MainStep(s, fd);
      MainTables(s, fd);
      if Locks(s.pcs[w]).poll {
        MainKeepsHeld(s, fd, w);
      }
    }
  }

  /** The main thread leaves a set alone while its worker has it locked. */
  lemma MainKeepsHeld(s: State, fd: nat, w: nat)
    requires LocksOk(s) && w < |s.pcs| == |s.sets| && Locks(s.pcs[w]).poll
    ensures w < |MainStep(s, fd).sets| && MainStep(s, fd).sets[w] == s.sets[w]
  {
    if s.main.AddIn? && s.main.w == w {
      NotRemoving(s, w);
    }
    hide LocksOk, Locks, IsWake, Better;
  }

  // ------------------------------------------------ what a change of a seat is answered

  /** The name of the user who asks, as the request spells it. */
  function AsksFor(req: Request): Option<Name> {
    match req
    case Book(name, _) => name
    case Cancel(name, _) => name
    case _ => None
  }

  /** The right answer to a booking or cancellation that finds the seat as `seen`. */
  function Decision(seen: Seat, req: Request): Reply {
    if req.Book? then if seen.holder == None then Success else Refused(Unavailable)
    else if seen.holder == AsksFor(req) then Success
    else Refused(NotBookedByUser)
  }

  function OwnEvent(req: Request): Event {
    if req.Book? then BookedBy(UserName(req)) else CanceledBy(UserName(req))
  }

  /** The seat as the request leaves it. */
  function Settled(seen: Seat, req: Request): Seat {
    if Decision(seen, req) == Success then Counted(Changed(seen, OwnEvent(req)), OwnEvent(req)) else seen
  }

  /** From the look at seat `k` until the connection is answered. */
  predicate OnSeat(pc: Pc, task: Task, k: nat) {
    match pc
    case Handling(t, InSeat(_, j, _)) => t == task && j == k
    case Handling(t, Counting(_, j)) => t == task && j == k
    case Handling(t, LeaveSeat(_, j, _, _)) => t == task && j == k
    case Handling(t, LeaveUser(_, _)) => t == task
    case Replied(fd, _) => fd == task.fd
    case _ => false
  }

  /** How far the request has come with the seat it found as `seen`, which is `now`. */
  ghost predicate Decided(seen: Seat, req: Request, now: Seat, pc: Pc) {
    match pc
    case Handling(_, InSeat(_, _, _)) => now == seen
    case Handling(_, Counting(_, _)) => Decision(seen, req) == Success && now == Changed(seen, OwnEvent(req))
    case Handling(_, LeaveSeat(_, _, _, reply)) => reply == Decision(seen, req) && now == Settled(seen, req)
    case Handling(_, LeaveUser(_, reply)) => reply == Decision(seen, req) && Settled(seen, req).log <= now.log
    case Replied(_, reply) => reply == Decision(seen, req) && Settled(seen, req).log <= now.log
    case _ => false
  }

  /** From state `a`, at the look at seat `k`, to state `b`, worker `w` is at one change. */
  ghost predicate ChangesThroughout(states: seq<State>, a: nat, b: nat, w: nat, task: Task, k: nat) {
    && a <= b < |states| && (task.req.Book? || task.req.Cancel?)
    && (forall i {:trigger states[i]} :: a <= i <= b ==> w < |states[i].pcs| && OnSeat(states[i].pcs[w], task, k))
    && states[a].pcs[w].Handling? && states[a].pcs[w].stage.InSeat?
  }

  /** The request's own step goes on with the right answer. */
  lemma OwnDecision(s: State, w: nat, c: Choice, task: Task, k: nat, seen: Seat)
    requires w < |s.pcs| == |s.sets| && |s.seats| == NUM_SEATS && FactsOk(s.users, s.seats, s.sets[w], s.pcs[w])
    requires OnSeat(s.pcs[w], task, k) && k < NUM_SEATS && (task.req.Book? || task.req.Cancel?)
    requires Decided(seen, task.req, s.seats[k], s.pcs[w])
    ensures var m := Program(s, w, c);
      OnSeat(m.next, task, k) ==>
        k < |SeatsAfter(s.seats, m.effect)| && Decided(seen, task.req, SeatsAfter(s.seats, m.effect)[k], m.next)
  {
    hide Entering, PickedOk, SeatReplyOk, HoldReplyOk, UserReplyOk;
  }

  /** A step of another thread leaves the decision alone. */
  lemma DecisionKept(seen: Seat, task: Task, k: nat, was: Seat, now: Seat, pc: Pc)
    requires OnSeat(pc, task, k) && Decided(seen, task.req, was, pc)
    requires was.log <= now.log && (Locks(pc).seat == Some(k) ==> now == was)
    ensures Decided(seen, task.req, now, pc)
  {
  }

  /** No step of any thread spoils the decision. */
  lemma DecisionStep(s: State, t: State, w: nat, task: Task, k: nat, seen: Seat)
    requires CoreOk(s) && Step(s, t) && w < |s.pcs| && w < |t.pcs| && k < NUM_SEATS
      && (task.req.Book? || task.req.Cancel?)
    requires OnSeat(s.pcs[w], task, k) && OnSeat(t.pcs[w], task, k)
    requires k < |s.seats| && Decided(seen, task.req, s.seats[k], s.pcs[w])
    ensures k < |t.seats| && Decided(seen, task.req, t.seats[k], t.pcs[w])
  {
    hide LocksOk, FactsOk, Program, MainOk, SetsOk, NamesDistinct, Decided, OnSeat, SeatsAfter, Step;
    StepKinds(s, t, w);
    assert WorkerOk(s, w);
    if c :| OwnStep(s, t, w, c) {
      OwnDecision(s, w, c, task, k, seen);
    } else {
      DecisionKept(seen, task, k, s.seats[k], t.seats[k], s.pcs[w]);
    }
  }

  /** In every run a booking is answered with success exactly if it finds the seat free, a
      cancellation exactly if it finds the seat held by the user who asks. The seat then
      is as that request leaves it while it is locked, and the change stays in its history. */
  lemma {:induction false} SeatDecision(states: seq<State>, a: nat, b: nat, w: nat, task: Task, k: nat)
    requires IsRun(states) && ChangesThroughout(states, a, b, w, task, k)
    ensures k < |states[a].seats| && k < |states[b].seats|
    ensures task.req.seat == SeatNumber(k) && AsksFor(task.req) == Some(OwnEvent(task.req).name)
    ensures Decided(states[a].seats[k], task.req, states[b].seats[k], states[b].pcs[w])
    decreases b
  {
    hide Step, SessionsOk, SeatsOk, IsRun, Decided, CoreOk;
    if a == b {
      Always(states, a);
      LookedAt(states[a], w);
      InSeatDecided(states[a].seats[k], task, k, states[a].pcs[w]);
    } else {
      SeatDecision(states, a, b - 1, w, task, k);
      Always(states, a);
      Always(states, b - 1);
      LookedAt(states[a], w);
      RunStep(states, b - 1);
      DecisionStep(states[b - 1], states[b], w, task, k, states[a].seats[k]);
    }
  }

  /** The seat a worker looks at is one there is. */
  lemma LookedAt(s: State, w: nat)
    requires CoreOk(s) && w < |s.pcs| && s.pcs[w].Handling? && s.pcs[w].stage.InSeat?
    ensures s.pcs[w].stage.k < NUM_SEATS == |s.seats|
    ensures var req := s.pcs[w].task.req;
      req.Book? || req.Cancel? ==>
        req.seat == SeatNumber(s.pcs[w].stage.k) && AsksFor(req) == Some(OwnEvent(req).name)
  {
    hide LocksOk, PickedOk;
    SetsLengths(s);
    assert WorkerOk(s, w);
  }

  lemma InSeatDecided(seen: Seat, task: Task, k: nat, pc: Pc)
    requires OnSeat(pc, task, k) && pc.Handling? && pc.stage.InSeat?
    ensures Decided(seen, task.req, seen, pc)
  {
  }

  // ------------------------------------------------ a request goes on to its answer

  /** A request is taken in and handled as it was received, in the slot that holds its connection, and only
      its own connection is answered; it is given up only if the connection has no slot. */
  lemma RequestKept(s: State, w: nat, c: Choice)
    requires w < |s.pcs| == |s.sets|
    ensures var next := Program(s, w, c).next;
      match s.pcs[w]
      case Idle => next == Idle || next == Copying || next == Dropping(c.fd, OffEnter) || next == Finding(c.fd, c.req)
      case Finding(fd, req) => next == Found(fd, req)
      case Found(fd, req) =>
        || (next == Idle && forall i :: 0 <= i < |s.sets[w]| ==> s.sets[w][i].fd != fd)
        || (exists i: nat :: i < |s.sets[w]| && s.sets[w][i].fd == fd && next == Handling(Task(fd, i, req), Located))
      case Handling(task, _) => (next.Handling? && next.task == task) || (next.Replied? && next.fd == task.fd)
      case _ => true
  {
    hide FindUser, Precheck;
  }

  function StageLeft(stage: Stage): nat {
    match stage
    case Located => 415
    case EnterArray => 414
    case InArray => 413
    case EnterUser(_) => 412
    case HandOver(_) => 411
    case InUser(_) => 410
    case EnterSeat(_, k, _) => SeatLeft(k) + 3
    case InSeat(_, k, _) => SeatLeft(k) + 2
    case Counting(_, k) => SeatLeft(k) + 1
    case LeaveSeat(_, k, _, _) => SeatLeft(k)
    case Checked(_) => 5
    case NewUser(_) => 5
    case NewInUser(_) => 4
    case NewMarked(_) => 3
    case EnterStats(_) => 3
    case NewLeaveArray(_) => 2
    case Marked(_) => 2
    case Cleared(_) => 2
    case InStats(_) => 2
    case LeaveArray(_) => 1
    case LeaveUser(_, _) => 1
    case LeaveStats(_, _) => 1
    case Saving => 1
    case Forgetting => 1
  }

  function SeatLeft(k: nat): nat {
    if k < NUM_SEATS then 4 * (NUM_SEATS - k) + 2 else 2
  }

  function OffLeft(off: OffStage): nat {
    match off
    case OffEnter => 13
    case OffSearch => 12
    case OffEnterArray(_) => 11
    case OffInArray(_) => 10
    case OffEnterUser(_, _) => 9
    case OffHandOver(_, _) => 8
    case OffInUser(_, _) => 7
    case OffCleared(_, _) => 6
    case OffLeaveArray(_) => 6
    case Freeing(_) => 5
    case Closing(_) => 4
    case Removing(_) => 3
    case OffLeave => 2
  }

  /** How many more moves of its own a worker makes at most before it is through with the
      request or the dropped connection. */
  function MovesLeft(pc: Pc): nat {
    match pc
    case Finding(_, _) => 417
    case Found(_, _) => 416
    case Handling(_, stage) => StageLeft(stage)
    case Dropping(_, off) => OffLeft(off)
    case _ => 0
  }

  /** The move brings the request nearer to its answer, or the full table ends the program. */
  ghost predicate Advances(users: seq<User>, pc: Pc, m: Move) {
    if m.effect.Exit? then |users| >= NUM_USERS else MovesLeft(m.next) < MovesLeft(pc)
  }

  lemma EntryAdvances(s: State, task: Task, stage: Stage, active: Option<Name>)
    requires AtEntrance(stage)
    ensures Advances(s.users, Handling(task, stage), EntryMove(s, task, stage, active))
  {
    hide FindUser, Precheck;
  }

  lemma MarkingAdvances(s: State, task: Task, stage: Stage, active: Option<Name>)
    requires !AtSeats(stage) && !AtEntrance(stage)
    ensures Advances(s.users, Handling(task, stage), EntryMove(s, task, stage, active))
  {
    hide FindUser, Precheck;
  }

  lemma LookAdvances(s: State, task: Task, uid: nat, k: nat, picked: seq<nat>)
    requires k < |s.seats| == NUM_SEATS
    ensures Advances(s.users, Handling(task, InSeat(uid, k, picked)), SeatMove(s.seats[k], task, uid, k, picked))
  {
  }

  lemma SeatsAdvance(s: State, task: Task, stage: Stage)
    requires AtSeats(stage) && |s.seats| == NUM_SEATS
    requires stage.InSeat? || stage.InStats? ==> stage.k < NUM_SEATS
    ensures Advances(s.users, Handling(task, stage), SeatStageMove(s, task, stage))
  {
    hide SeatMove;
    if stage.InSeat? {
      LookAdvances(s, task, stage.uid, stage.k, stage.picked);
    }
  }

  lemma StageAdvances(s: State, w: nat, c: Choice)
    requires w < |s.pcs| == |s.sets| && |s.seats| == NUM_SEATS && FactsOk(s.users, s.seats, s.sets[w], s.pcs[w])
    requires s.pcs[w].Handling?
    ensures Advances(s.users, s.pcs[w], Program(s, w, c))
  {
    var task, stage := s.pcs[w].task, s.pcs[w].stage;
    var active := s.sets[w][task.slot].active;
    hide Advances, EntryMove, SeatStageMove, Precheck, PickedOk;
    if AtSeats(stage) {
      SeatsAdvance(s, task, stage);
    } else if AtEntrance(stage) {
      EntryAdvances(s, task, stage, active);
    } else {
      MarkingAdvances(s, task, stage, active);
    }
  }

  lemma OtherAdvances(s: State, w: nat, c: Choice)
    requires w < |s.pcs| == |s.sets| && (s.pcs[w].Finding? || s.pcs[w].Found? || s.pcs[w].Dropping?)
    ensures Advances(s.users, s.pcs[w], Program(s, w, c))
  {
    hide FindUser;
  }

  /** In every run each move of a worker brings its request nearer to the answer, or the
      dropped connection nearer to its end, unless the full user table ends the program: 417
      moves of its own are enough. */
  lemma RequestAdvances(states: seq<State>, i: nat, w: nat, c: Choice)
    requires IsRun(states) && i < |states| && w < |states[i].pcs|
    requires var pc := states[i].pcs[w]; pc.Finding? || pc.Found? || pc.Handling? || pc.Dropping?
    ensures |states[i].sets| == |states[i].pcs| && MovesLeft(states[i].pcs[w]) <= 417
    ensures Advances(states[i].users, states[i].pcs[w], Program(states[i], w, c))
  {
    hide LocksOk, SessionsOk, SeatsOk, FdsOk, IsRun, FactsOk, Program, MainOk, SetsOk, NamesDistinct;
    Always(states, i);
    SetsLengths(states[i]);
    assert WorkerOk(states[i], w);
    if states[i].pcs[w].Handling? {
      StageAdvances(states[i], w, c);
    } else {
      OtherAdvances(states[i], w, c);
    }
  }

  // ------------------------------------------------ what stays and what goes

  lemma PasswordsStep(s: State, t: State, u: nat)
    requires CoreOk(s) && Step(s, t) && u < |s.users|
    ensures u < |t.users| && t.users[u].name == s.users[u].name && t.users[u].password == s.users[u].password
  {
    hide LocksOk, Program, MainStep, MainOk, SetsOk, NamesDistinct, WorkerOk, SeatIds, SeatsAfter, SlotsAfter;
    SetsLengths(s);
    if v, c :| 0 <= v < |s.pcs| && t == WorkerStep(s, v, c) {
    } else {
      var fd: nat :| t == MainStep(s, fd);
      MainTables(s, fd);
    }
  }

  /** In every run a user keeps the name and the password it was added with. */
  lemma {:induction false} UserKept(states: seq<State>, i: nat, j: nat, u: nat)
    requires IsRun(states) && i <= j < |states| && u < |states[i].users|
    ensures u < |states[j].users|
    ensures states[j].users[u].name == states[i].users[u].name
    ensures states[j].users[u].password == states[i].users[u].password
    decreases j
  {
    hide IsRun, Step, CoreOk, SessionsOk, SeatsOk, FdsOk;
    if i < j {
      UserKept(states, i, j - 1, u);
      Always(states, j - 1);
      RunStep(states, j - 1);
      PasswordsStep(states[j - 1], states[j], u);
    }
  }

  ghost predicate NoSlotOf(slots: seq<Slot>, fd: nat) {
    forall i {:trigger slots[i]} :: 0 <= i < |slots| ==> slots[i].fd != fd
  }

  lemma WithoutIsGone(slots: seq<Slot>, i: nat)
    requires DistinctFds(slots) && 1 <= i < |slots|
    ensures NoSlotOf(Without(slots, i), slots[i].fd)
  {
    WithoutKeepsOthers(slots, i);
    hide Without;
  }

  lemma LastDropMove(s: State, w: nat, c: Choice)
    requires w < |s.pcs| == |s.sets| && FactsOk(s.users, s.seats, s.sets[w], s.pcs[w]) && DistinctFds(s.sets[w])
    requires Program(s, w, c).next.Dropping? && Program(s, w, c).next.off == OffLeave
    ensures NoSlotOf(SlotsAfter(s.sets[w], Program(s, w, c).effect), Program(s, w, c).next.fd)
  {
    hide Without, FindUser, Precheck, DistinctFds, StageOk;
    if s.pcs[w].Dropping? && s.pcs[w].off.Removing? {
      WithoutIsGone(s.sets[w], s.pcs[w].off.i);
    }
  }

  lemma DropStep(s: State, t: State, w: nat)
    requires Invariant(s) && Step(s, t) && w < |s.pcs| && w < |t.pcs| && w < |t.sets|
    requires t.pcs[w].Dropping? && t.pcs[w].off == OffLeave
    ensures s.pcs[w] == t.pcs[w] && |s.sets| == |s.pcs| && NoSlotOf(s.sets[w], t.pcs[w].fd) ==>
      NoSlotOf(t.sets[w], t.pcs[w].fd)
    ensures s.pcs[w] != t.pcs[w] ==> NoSlotOf(t.sets[w], t.pcs[w].fd)
  {
    hide Step, LocksOk, SessionsOk, SeatsOk, SetsOk, MainOk, NamesDistinct, Program, FactsOk, NoSlotOf, DistinctFds,
      SlotsAfter;
    StepKinds(s, t, w);
    assert WorkerOk(s, w);
    assert DistinctFds(s.sets[w]);
    if c :| OwnStep(s, t, w, c) {
      LastDropMove(s, w, c);
    }
  }

  /** In every run a dropped connection is out of its worker's set when the set is unlocked. */
  lemma {:induction false} DroppedGone(states: seq<State>, i: nat, w: nat)
    requires IsRun(states) && i < |states| && w < |states[i].pcs|
    requires states[i].pcs[w].Dropping? && states[i].pcs[w].off == OffLeave
    ensures w < |states[i].sets| && NoSlotOf(states[i].sets[w], states[i].pcs[w].fd)
  {
    hide Step, CoreOk, SessionsOk, SeatsOk, FdsOk, NoSlotOf;
    Always(states, i);
    CoreLengths(states[i]);
    if i > 0 {
      Always(states, i - 1);
      RunStep(states, i - 1);
      WorkersStay(states[i - 1], states[i]);
      if states[i - 1].pcs[w] == states[i].pcs[w] {
        DroppedGone(states, i - 1, w);
      }
      hide IsRun;
      DropStep(states[i - 1], states[i], w);
    }
  }

  lemma CoreLengths(s: State)
    requires CoreOk(s)
    ensures |s.pcs| == |s.sets|
  {
    hide LocksOk;
    SetsLengths(s);
  }

  lemma WorkersStay(s: State, t: State)
    requires CoreOk(s) && Step(s, t)
    ensures |t.pcs| == |s.pcs|
  {
    hide LocksOk, Program, MainStep, MainOk, SetsOk, NamesDistinct, WorkerOk, SeatIds;
    SetsLengths(s);
    if v, c :| 0 <= v < |s.pcs| && t == WorkerStep(s, v, c) {
    } else {
      var fd: nat :| t == MainStep(s, fd);
      MainTables(s, fd);
    }
  }
}
