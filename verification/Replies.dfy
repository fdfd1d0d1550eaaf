/** Every reply that is sent is the one the request deserves, by what its worker found at the
    step that decided it; a listing shows each seat as the worker found it
    (PA3/server/handle_request.c:61-374). */
module Replies {
  import opened Options
  import opened ServerTables
  import opened Reservation
  import opened LockDiscipline
  import opened ThreadFacts
  import opened ThreadMoves
  import opened ServerCore
  import opened Sessions
  import opened SeatHistory
  import opened Connections
  import opened ReservationTheorems
  import opened Requests

  // ------------------------------------------------ a request on its way

  predicate Handles(pc: Pc, task: Task) {
    pc.Handling? && pc.task == task
  }

  predicate AtTask(pc: Pc, task: Task) {
    Handles(pc, task) || (pc.Replied? && pc.fd == task.fd)
  }

  ghost predicate HandlesAt(s: State, w: nat, task: Task) {
    w < |s.pcs| && Handles(s.pcs[w], task)
  }

  /** From state `a`, where its slot has been found, to state `b` the request is handled; in
      `b` it may have just been answered. */
  ghost predicate ServesTo(states: seq<State>, a: nat, b: nat, w: nat, task: Task) {
    && a <= b < |states| && w < |states[a].pcs| && states[a].pcs[w] == Handling(task, Located)
    && (forall j {:trigger HandlesAt(states[j], w, task)} :: a <= j < b ==> HandlesAt(states[j], w, task))
    && w < |states[b].pcs| && AtTask(states[b].pcs[w], task)
  }

  lemma ServesBefore(states: seq<State>, a: nat, b: nat, w: nat, task: Task)
    requires ServesTo(states, a, b, w, task) && a < b
    ensures ServesTo(states, a, b - 1, w, task) && Handles(states[b - 1].pcs[w], task)
  {
    assert HandlesAt(states[b - 1], w, task);
  }

  // ------------------------------------------------ what decides a reply

  /** The refusals given before any lock is taken. */
  predicate RefusedEarly(req: Request, active: Option<Name>, reply: Reply) {
    match req
    case Login(name, password) =>
      || (active.Some? && reply == Refused(ActiveClient))
      || (active.None? && name.None? && reply == Refused(NoUsername))
      || (active.None? && name.Some? && password.None? && reply == Refused(NoPassword))
    case Logout(name) => name.None? && reply == Refused(UserNotFound)
    case Book(name, seat) => RefusedSeat(name, seat, active, reply)
    case Cancel(name, seat) => RefusedSeat(name, seat, active, reply)
    case Confirm(name, list) =>
      || (list == NoListData && reply == Refused(NoData))
      || (list == BadList && reply == Refused(InvalidData))
      || ((list == WantsAvailable || list == WantsBooked) && !IsOwn(name, active) && reply == Refused(NotLoggedIn))
    case Query(seat) =>
      || (seat == NoSeatData && reply == Refused(NoData))
      || (seat != NoSeatData && !IsSeat(seat) && reply == Refused(OutOfRange))
    case OtherAction => reply == Refused(InvalidAction)
  }

  predicate RefusedSeat(name: Option<Name>, seat: SeatArg, active: Option<Name>, reply: Reply) {
    || (seat == NoSeatData && reply == Refused(NoData))
    || (seat != NoSeatData && !IsSeat(seat) && reply == Refused(OutOfRange))
    || (IsSeat(seat) && !IsOwn(name, active) && reply == Refused(NotLoggedIn))
  }

  predicate IsSeat(seat: SeatArg) {
    seat.SeatNumber? && seat.k < 100
  }

  /** The request names the user the connection is logged in as. */
  predicate IsOwn(name: Option<Name>, active: Option<Name>) {
    name.Some? && name == active
  }

  /** With the user array locked: there is no such user. */
  ghost predicate RightUnknown(users: seq<User>, req: Request, reply: Reply) {
    match req
    case Login(Some(n), Some(_)) => NoUserNamed(users, n) && |users| < 10000 && reply == Success
    case Logout(Some(n)) => NoUserNamed(users, n) && reply == Refused(UserNotFound)
    case Book(Some(n), _) => NoUserNamed(users, n) && reply == Refused(NotLoggedIn)
    case Cancel(Some(n), _) => NoUserNamed(users, n) && reply == Refused(NotLoggedIn)
    case Confirm(Some(n), _) => NoUserNamed(users, n) && reply == Refused(NotLoggedIn)
    case _ => false
  }

  /** With the user locked: what the flag decides. */
  predicate RightFlag(user: User, req: Request, active: Option<Name>, reply: Reply) {
    match req
    case Login(Some(n), Some(_)) => user.name == n && user.loggedIn && reply == Refused(ActiveUser)
    case Logout(Some(n)) =>
      user.name == n && reply == if user.loggedIn && active == Some(n) then Success else Refused(NotLoggedIn)
    case Book(Some(n), _) => user.name == n && !user.loggedIn && reply == Refused(NotLoggedIn)
    case Cancel(Some(n), _) => user.name == n && !user.loggedIn && reply == Refused(NotLoggedIn)
    case Confirm(Some(n), _) => user.name == n && !user.loggedIn && reply == Refused(NotLoggedIn)
    case _ => false
  }

  /** With the user locked and logged out: what the password decides. */
  predicate RightPassword(user: User, req: Request, reply: Reply) {
    match req
    case Login(Some(n), Some(p)) =>
      user.name == n && !user.loggedIn && reply == if p == user.password then Success else Refused(IncorrectPassword)
    case _ => false
  }

  /** With the seat locked: what its holder decides. */
  predicate RightChange(seat: Seat, k: nat, req: Request, reply: Reply) {
    match req
    case Book(Some(_), SeatNumber(j)) =>
      j == k && reply == if seat.holder == None then Success else Refused(Unavailable)
    case Cancel(Some(n), SeatNumber(j)) =>
      j == k && reply == if seat.holder == Some(n) then Success else Refused(NotBookedByUser)
    case _ => false
  }

  predicate RightStats(seat: Seat, k: nat, req: Request, reply: Reply) {
    req == Query(SeatNumber(k)) && reply == Stats(k + 1, seat.booked, seat.canceled)
  }

  /** The stage decides the reply, and rightly. */
  ghost predicate Decides(users: seq<User>, seats: seq<Seat>, active: Option<Name>, req: Request, stage: Stage,
                          reply: Reply)
  {
    match stage
    case Located => RefusedEarly(req, active, reply)
    case InArray => RightUnknown(users, req, reply)
    case InUser(uid) => uid < |users| && RightFlag(users[uid], req, active, reply)
    case Checked(uid) => uid < |users| && RightPassword(users[uid], req, reply)
    case InSeat(_, k, _) => k < |seats| && RightChange(seats[k], k, req, reply)
    case InStats(k) => k < |seats| && RightStats(seats[k], k, req, reply)
    case _ => false
  }

  /** In this state the worker is at the step that decides its reply. */
  ghost predicate Grounds(s: State, w: nat, task: Task, reply: Reply) {
    && HandlesAt(s, w, task) && w < |s.sets| && task.slot < |s.sets[w]|
    && Decides(s.users, s.seats, s.sets[w][task.slot].active, task.req, s.pcs[w].stage, reply)
  }

  // ------------------------------------------------ the reply on its way

  /** The reply a stage will lead to, once it is settled; listings are spoken of below. */
  function Settling(stage: Stage): Option<Reply> {
    match stage
    case LeaveArray(reply) => Unlisted(reply)
    case LeaveUser(_, reply) => Unlisted(reply)
    case LeaveSeat(_, _, _, reply) => Unlisted(reply)
    case LeaveStats(_, reply) => Unlisted(reply)
    case Marked(_) => Some(Success)
    case NewUser(_) => Some(Success)
    case NewInUser(_) => Some(Success)
    case NewMarked(_) => Some(Success)
    case NewLeaveArray(_) => Some(Success)
    case Saving => Some(Success)
    case Cleared(_) => Some(Success)
    case Forgetting => Some(Success)
    case Counting(_, _) => Some(Success)
    case _ => None
  }

  function Unlisted(reply: Reply): Option<Reply> {
    if reply.SeatList? then None else Some(reply)
  }

  function SettledReply(pc: Pc): Option<Reply> {
    match pc
    case Handling(_, stage) => Settling(stage)
    case Replied(_, reply) => Unlisted(reply)
    case _ => None
  }

  /** A move that settles a reply is at the step that decides it. */
  ghost predicate SettlesRightly(users: seq<User>, seats: seq<Seat>, active: Option<Name>, task: Task, stage: Stage,
                                 m: Move)
  {
    AtTask(m.next, task) && SettledReply(m.next).Some? ==>
      || SettledReply(m.next) == Settling(stage)
      || Decides(users, seats, active, task.req, stage, SettledReply(m.next).value)
  }

  lemma EarlySettles(s: State, task: Task, active: Option<Name>)
    ensures SettlesRightly(s.users, s.seats, active, task, Located, EntryMove(s, task, Located, active))
  {
  }

  /** What has passed the checks made before any lock. */
  predicate Passed(req: Request, active: Option<Name>) {
    match req
    case Login(name, password) => active.None? && name.Some? && password.Some?
    case Logout(name) => name.Some?
    case Book(name, seat) => IsSeat(seat) && IsOwn(name, active)
    case Cancel(name, seat) => IsSeat(seat) && IsOwn(name, active)
    case Confirm(name, list) => (list == WantsAvailable || list == WantsBooked) && IsOwn(name, active)
    case Query(seat) => IsSeat(seat)
    case OtherAction => false
  }

  /** A request goes on exactly if none of the early refusals is due. */
  lemma PrecheckExact(req: Request, active: Option<Name>)
    ensures Precheck(req, active) == None <==> Passed(req, active)
    ensures Passed(req, active) <==> forall reply :: !RefusedEarly(req, active, reply)
    ensures Precheck(req, active).Some? ==> RefusedEarly(req, active, Precheck(req, active).value)
  {
    if !Passed(req, active) {
      assert RefusedEarly(req, active, Precheck(req, active).value);
    }
  }

  lemma ArraySettles(s: State, slots: seq<Slot>, task: Task)
    requires FactsOk(s.users, s.seats, slots, Handling(task, InArray))
    ensures SettlesRightly(s.users, s.seats, slots[task.slot].active, task, InArray,
      EntryMove(s, task, InArray, slots[task.slot].active))
  {
    PrecheckExact(task.req, slots[task.slot].active);
    hide FindUser, Precheck;
  }

  lemma UserSettles(s: State, slots: seq<Slot>, task: Task, uid: nat)
    requires FactsOk(s.users, s.seats, slots, Handling(task, InUser(uid)))
    ensures SettlesRightly(s.users, s.seats, slots[task.slot].active, task, InUser(uid),
      EntryMove(s, task, InUser(uid), slots[task.slot].active))
  {
    PrecheckExact(task.req, slots[task.slot].active);
    hide FindUser, Precheck;
  }

  lemma PasswordSettles(s: State, slots: seq<Slot>, task: Task, uid: nat)
    requires FactsOk(s.users, s.seats, slots, Handling(task, Checked(uid)))
    ensures SettlesRightly(s.users, s.seats, slots[task.slot].active, task, Checked(uid),
      EntryMove(s, task, Checked(uid), slots[task.slot].active))
  {
    PrecheckExact(task.req, slots[task.slot].active);
    hide FindUser, Precheck;
  }

  lemma OtherEntrySettles(s: State, task: Task, stage: Stage, active: Option<Name>)
    requires !AtSeats(stage) && !stage.Located? && !stage.InArray? && !stage.InUser? && !stage.Checked?
    ensures SettlesRightly(s.users, s.seats, active, task, stage, EntryMove(s, task, stage, active))
  {
    hide FindUser, Precheck, Decides;
  }

  lemma LookSettles(s: State, slots: seq<Slot>, task: Task, uid: nat, k: nat, picked: seq<nat>)
    requires FactsOk(s.users, s.seats, slots, Handling(task, InSeat(uid, k, picked))) && k < |s.seats|
    ensures SettlesRightly(s.users, s.seats, slots[task.slot].active, task, InSeat(uid, k, picked),
      SeatMove(s.seats[k], task, uid, k, picked))
  {
    PrecheckExact(task.req, slots[task.slot].active);
    hide Precheck, PickedOk;
  }

  lemma SeatSettles(s: State, slots: seq<Slot>, task: Task, stage: Stage)
    requires AtSeats(stage) && !stage.InSeat? && !stage.InStats?
    requires FactsOk(s.users, s.seats, slots, Handling(task, stage))
    ensures SettlesRightly(s.users, s.seats, slots[task.slot].active, task, stage, SeatStageMove(s, task, stage))
  {
    hide Entering, PickedOk, SeatReplyOk, HoldReplyOk, UserReplyOk, Decides, BookedIds;
  }

  lemma StatsSettles(s: State, slots: seq<Slot>, task: Task, k: nat)
    requires FactsOk(s.users, s.seats, slots, Handling(task, InStats(k))) && SeatIds(s.seats)
    ensures SettlesRightly(s.users, s.seats, slots[task.slot].active, task, InStats(k),
      SeatStageMove(s, task, InStats(k)))
  {
  }

  /** Whatever the worker does next, a reply is settled only at the step that decides it. */
  lemma OwnSettles(s: State, w: nat, c: Choice, task: Task)
    requires w < |s.pcs| == |s.sets| && SeatIds(s.seats) && FactsOk(s.users, s.seats, s.sets[w], s.pcs[w])
    requires Handles(s.pcs[w], task)
    ensures task.slot < |s.sets[w]|
    ensures SettlesRightly(s.users, s.seats, s.sets[w][task.slot].active, task, s.pcs[w].stage, Program(s, w, c))
  {
    var slots, stage := s.sets[w], s.pcs[w].stage;
    var active := slots[task.slot].active;
    hide SettlesRightly, StageOk, EntryMove, SeatStageMove, SeatMove;
    match stage
    case Located => EarlySettles(s, task, active);
    case InArray => ArraySettles(s, slots, task);
    case InUser(uid) => UserSettles(s, slots, task, uid);
    case Checked(uid) => PasswordSettles(s, slots, task, uid);
    case InSeat(uid, k, picked) => LookStageSettles(s, slots, task, uid, k, picked);
    case InStats(k) => StatsSettles(s, slots, task, k);
    case _ =>
      if AtSeats(stage) {
        SeatSettles(s, slots, task, stage);
      } else {
        OtherEntrySettles(s, task, stage, active);
      }
  }

  lemma LookStageSettles(s: State, slots: seq<Slot>, task: Task, uid: nat, k: nat, picked: seq<nat>)
    requires FactsOk(s.users, s.seats, slots, Handling(task, InSeat(uid, k, picked))) && |s.seats| == NUM_SEATS
    ensures SettlesRightly(s.users, s.seats, slots[task.slot].active, task, InSeat(uid, k, picked),
      SeatStageMove(s, task, InSeat(uid, k, picked)))
  {
    LookSettles(s, slots, task, uid, k, picked);
    hide SettlesRightly, SeatMove;
  }

  lemma OwnReply(s: State, t: State, w: nat, c: Choice, task: Task, reply: Reply)
    requires CoreOk(s) && OwnStep(s, t, w, c) && HandlesAt(s, w, task)
    requires AtTask(t.pcs[w], task) && SettledReply(t.pcs[w]) == Some(reply)
    ensures SettledReply(s.pcs[w]) == Some(reply) || Grounds(s, w, task, reply)
  {
    assert WorkerOk(s, w);
    hide Program, LocksOk, FactsOk, SetsOk, MainOk, NamesDistinct, SeatIds, Decides, UsersAfter, SeatsAfter, SlotsAfter;
    OwnSettles(s, w, c, task);
  }

  /** In one step of any thread a reply is settled only at the step that decides it. */
  lemma ReplyStep(s: State, t: State, w: nat, task: Task, reply: Reply)
    requires CoreOk(s) && Step(s, t) && HandlesAt(s, w, task)
    requires w < |t.pcs| && AtTask(t.pcs[w], task) && SettledReply(t.pcs[w]) == Some(reply)
    ensures SettledReply(s.pcs[w]) == Some(reply) || Grounds(s, w, task, reply)
  {
    hide Step, CoreOk, Program, Grounds, SettledReply, AtTask;
    StepKinds(s, t, w);
    if c :| OwnStep(s, t, w, c) {
      OwnReply(s, t, w, c, task, reply);
    }
  }

  /** Every reply other than a listing was decided, and rightly, in a state in which the worker
      was at the step that decides it, holding the locks that step needs. */
  lemma {:induction false} ReplyGrounded(states: seq<State>, a: nat, b: nat, w: nat, task: Task, reply: Reply)
    requires IsRun(states) && ServesTo(states, a, b, w, task) && SettledReply(states[b].pcs[w]) == Some(reply)
    ensures exists j {:trigger Grounds(states[j], w, task, reply)} :: a <= j < b && Grounds(states[j], w, task, reply)
    decreases b
  {
    hide IsRun, Step, CoreOk, SessionsOk, SeatsOk, FdsOk, Grounds, SettledReply, AtTask;
    if a == b {
      NothingSettled(task);
    } else {
      ServesBefore(states, a, b, w, task);
      Always(states, b - 1);
      RunStep(states, b - 1);
      ReplyStep(states[b - 1], states[b], w, task, reply);
      if !Grounds(states[b - 1], w, task, reply) {
        ReplyGrounded(states, a, b - 1, w, task, reply);
      }
    }
  }

  lemma NothingSettled(task: Task)
    ensures SettledReply(Handling(task, Located)) == None
  {
  }

  // ------------------------------------------------ listings

  /** Ascending ids of seats below `k`. */
  predicate Rises(ids: seq<nat>, k: nat) {
    && (forall i {:trigger ids[i]} :: 0 <= i < |ids| ==> 1 <= ids[i] <= k)
    && (forall i, j {:trigger ids[i], ids[j]} :: 0 <= i < j < |ids| ==> ids[i] < ids[j])
  }

  /** What has been picked, and from how many seats. */
  function PickedSoFar(pc: Pc): (seq<nat>, nat) {
    match pc
    case Handling(_, EnterSeat(_, k, picked)) => (picked, k)
    case Handling(_, InSeat(_, k, picked)) => (picked, k)
    case Handling(_, LeaveSeat(_, k, picked, _)) => (picked, k + 1)
    case Handling(_, LeaveUser(_, SeatList(ids))) => (ids, NUM_SEATS)
    case Replied(_, SeatList(ids)) => (ids, NUM_SEATS)
    case _ => ([], 0)
  }

  /** A seat is not looked at yet, is being looked at, or has been. */
  datatype Phase = Before | At | After

  function PhaseOf(pc: Pc, q: nat): Phase {
    match pc
    case Handling(_, InSeat(_, k, _)) => if q < k then After else if q == k then At else Before
    case _ => if q < PickedSoFar(pc).1 then After else Before
  }

  /** The listing asks for seats like this one. */
  predicate Lists(req: Request, seat: Seat) {
    match req
    case Confirm(_, WantsAvailable) => seat.holder == None
    case Confirm(name, WantsBooked) => name.Some? && seat.holder == name
    case _ => false
  }

  lemma RisesSnoc(ids: seq<nat>, k: nat)
    requires Rises(ids, k)
    ensures Rises(ids + [k + 1], k + 1) && Rises(ids, k + 1) && k + 1 !in ids
    ensures forall id {:trigger id in ids + [k + 1]} :: id in ids + [k + 1] <==> id in ids || id == k + 1
  {
    assert forall id :: id in ids ==> id <= k;
  }

  /** The worker's next program counter: seat `q` passes from phase to phase, and is picked
      exactly if it is listed when looked at. */
  ghost predicate ListsRightly(seats: seq<Seat>, task: Task, pc: Pc, next: Pc, q: nat)
    requires q < |seats|
  {
    AtTask(next, task) ==>
      && Rises(PickedSoFar(next).0, PickedSoFar(next).1)
      && match PhaseOf(next, q)
         case Before => PhaseOf(pc, q) == Before
         case At => PhaseOf(pc, q) == Before
         case After =>
           || (PhaseOf(pc, q) == After && (q + 1 in PickedSoFar(next).0 <==> q + 1 in PickedSoFar(pc).0))
           || (PhaseOf(pc, q) == At && (q + 1 in PickedSoFar(next).0 <==> Lists(task.req, seats[q])))
  }

  lemma LookLists(seats: seq<Seat>, task: Task, uid: nat, k: nat, picked: seq<nat>, q: nat)
    requires SeatIds(seats) && k < |seats| && q < |seats| && task.req.Confirm? && Rises(picked, k)
    requires task.req.name.Some? && (task.req.list == WantsAvailable || task.req.list == WantsBooked)
    ensures ListsRightly(seats, task, Handling(task, InSeat(uid, k, picked)),
      SeatMove(seats[k], task, uid, k, picked).next, q)
  {
    RisesSnoc(picked, k);
    hide Rises;
  }

  lemma SeatsList(s: State, slots: seq<Slot>, task: Task, stage: Stage, q: nat)
    requires AtSeats(stage) && !stage.InSeat? && task.req.Confirm? && |s.seats| == NUM_SEATS && q < NUM_SEATS
    requires FactsOk(s.users, s.seats, slots, Handling(task, stage))
    requires Rises(PickedSoFar(Handling(task, stage)).0, PickedSoFar(Handling(task, stage)).1)
    ensures ListsRightly(s.seats, task, Handling(task, stage), SeatStageMove(s, task, stage).next, q)
  {
    hide Rises, Precheck, UserReplyOk, BookedIds;
  }

  lemma EntryLists(s: State, slots: seq<Slot>, task: Task, stage: Stage, q: nat)
    requires !AtSeats(stage) && task.req.Confirm? && |s.seats| == NUM_SEATS && q < NUM_SEATS
    requires FactsOk(s.users, s.seats, slots, Handling(task, stage))
    ensures ListsRightly(s.seats, task, Handling(task, stage),
      EntryMove(s, task, stage, slots[task.slot].active).next, q)
  {
    hide FindUser;
  }

  lemma LookStageLists(s: State, slots: seq<Slot>, task: Task, uid: nat, k: nat, picked: seq<nat>, q: nat)
    requires SeatIds(s.seats) && q < NUM_SEATS && task.req.Confirm? && Rises(picked, k)
    requires FactsOk(s.users, s.seats, slots, Handling(task, InSeat(uid, k, picked)))
    ensures ListsRightly(s.seats, task, Handling(task, InSeat(uid, k, picked)),
      SeatStageMove(s, task, InSeat(uid, k, picked)).next, q)
  {
    PrecheckExact(task.req, slots[task.slot].active);
    LookLists(s.seats, task, uid, k, picked, q);
    hide ListsRightly, SeatMove, Precheck, Rises;
  }

  /** The worker's own move treats every seat rightly. */
  lemma OwnLists(s: State, w: nat, c: Choice, task: Task, q: nat)
    requires w < |s.pcs| == |s.sets| && SeatIds(s.seats) && q < NUM_SEATS
    requires FactsOk(s.users, s.seats, s.sets[w], s.pcs[w]) && Handles(s.pcs[w], task) && task.req.Confirm?
    requires Rises(PickedSoFar(s.pcs[w]).0, PickedSoFar(s.pcs[w]).1)
    ensures ListsRightly(s.seats, task, s.pcs[w], Program(s, w, c).next, q)
  {
    var slots, stage := s.sets[w], s.pcs[w].stage;
    hide ListsRightly, StageOk, EntryMove, SeatStageMove, Rises;
    if stage.InSeat? {
      LookStageLists(s, slots, task, stage.uid, stage.k, stage.picked, q);
    } else if AtSeats(stage) {
      SeatsList(s, slots, task, stage, q);
    } else {
      EntryLists(s, slots, task, stage, q);
    }
  }

  /** Worker `w` stands at seat `q`. */
  ghost predicate StandsAtSeat(s: State, w: nat, q: nat) {
    w < |s.pcs| && q < |s.seats| && PhaseOf(s.pcs[w], q) == At
  }

  /** Up to state `b` the worker has stood at seat `q`, and in every state in which it did the
      seat was as the list says. */
  ghost predicate Witnessed(states: seq<State>, a: nat, b: nat, w: nat, req: Request, q: nat, ids: seq<nat>) {
    && b < |states|
    && (exists j {:trigger StandsAtSeat(states[j], w, q)} :: a <= j < b && StandsAtSeat(states[j], w, q))
    && (forall j {:trigger StandsAtSeat(states[j], w, q)} :: a <= j < b && StandsAtSeat(states[j], w, q) ==>
          (q + 1 in ids <==> Lists(req, states[j].seats[q])))
  }

  /** What is known of seat `q` in state `b`, by its phase. */
  ghost predicate SeatKnown(states: seq<State>, a: nat, b: nat, w: nat, req: Request, q: nat) {
    && b < |states| && w < |states[b].pcs|
    && match PhaseOf(states[b].pcs[w], q)
       case Before =>
         forall j {:trigger StandsAtSeat(states[j], w, q)} :: a <= j <= b ==> !StandsAtSeat(states[j], w, q)
       case At =>
         && q < |states[b].seats|
         && (forall j {:trigger StandsAtSeat(states[j], w, q)} :: a <= j <= b && StandsAtSeat(states[j], w, q) ==>
               states[j].seats[q] == states[b].seats[q])
       case After => Witnessed(states, a, b, w, req, q, PickedSoFar(states[b].pcs[w]).0)
  }

  /** One step of a listing, as far as seat `q` goes. */
  ghost predicate SeatPasses(s: State, t: State, w: nat, req: Request, q: nat) {
    && w < |s.pcs| && w < |t.pcs| && q < |s.seats| && q < |t.seats|
    && match PhaseOf(t.pcs[w], q)
       case Before => PhaseOf(s.pcs[w], q) == Before
       case At => PhaseOf(s.pcs[w], q) == Before || (PhaseOf(s.pcs[w], q) == At && t.seats[q] == s.seats[q])
       case After =>
         var now := q + 1 in PickedSoFar(t.pcs[w]).0;
         || (PhaseOf(s.pcs[w], q) == After && (now <==> q + 1 in PickedSoFar(s.pcs[w]).0))
         || (PhaseOf(s.pcs[w], q) == At && (now <==> Lists(req, s.seats[q])))
  }

  lemma OwnPasses(s: State, t: State, w: nat, c: Choice, task: Task, q: nat)
    requires CoreOk(s) && OwnStep(s, t, w, c) && HandlesAt(s, w, task) && AtTask(t.pcs[w], task)
    requires task.req.Confirm? && q < NUM_SEATS && Rises(PickedSoFar(s.pcs[w]).0, PickedSoFar(s.pcs[w]).1)
    ensures SeatPasses(s, t, w, task.req, q) && Rises(PickedSoFar(t.pcs[w]).0, PickedSoFar(t.pcs[w]).1)
  {
    assert WorkerOk(s, w);
    hide Program, LocksOk, FactsOk, SetsOk, MainOk, NamesDistinct, UsersAfter, SlotsAfter, Rises, Lists, PhaseOf,
      PickedSoFar;
    OwnLists(s, w, c, task, q);
  }

  lemma OthersPass(s: State, t: State, w: nat, task: Task, q: nat)
    requires OthersStep(s, t, w) && HandlesAt(s, w, task) && q < |s.seats|
    ensures SeatPasses(s, t, w, task.req, q)
  {
    hide Lists;
  }

  lemma ListStep(s: State, t: State, w: nat, task: Task, q: nat)
    requires CoreOk(s) && Step(s, t) && HandlesAt(s, w, task) && w < |t.pcs| && AtTask(t.pcs[w], task)
    requires task.req.Confirm? && q < NUM_SEATS && Rises(PickedSoFar(s.pcs[w]).0, PickedSoFar(s.pcs[w]).1)
    ensures SeatPasses(s, t, w, task.req, q) && Rises(PickedSoFar(t.pcs[w]).0, PickedSoFar(t.pcs[w]).1)
  {
    hide Step, LocksOk, WorkerOk, SetsOk, MainOk, NamesDistinct, Program, SeatPasses, Rises, PickedSoFar, AtTask;
    StepKinds(s, t, w);
    if c :| OwnStep(s, t, w, c) {
      OwnPasses(s, t, w, c, task, q);
    } else {
      OthersPass(s, t, w, task, q);
    }
  }

  lemma KnownStep(states: seq<State>, a: nat, b: nat, w: nat, req: Request, q: nat)
    requires a <= b && b + 1 < |states| && SeatKnown(states, a, b, w, req, q)
    requires SeatPasses(states[b], states[b + 1], w, req, q)
    ensures SeatKnown(states, a, b + 1, w, req, q)
  {
    hide Lists, PhaseOf, PickedSoFar;
    var was, now := PhaseOf(states[b].pcs[w], q), PhaseOf(states[b + 1].pcs[w], q);
    assert StandsAtSeat(states[b], w, q) <==> was == At;
    if now == After {
      assert was == After || (was == At && a <= b && StandsAtSeat(states[b], w, q));
    }
  }

  lemma KnownStart(states: seq<State>, a: nat, w: nat, task: Task, q: nat)
    requires a < |states| && w < |states[a].pcs| && states[a].pcs[w] == Handling(task, Located)
    ensures SeatKnown(states, a, a, w, task.req, q)
    ensures Rises(PickedSoFar(states[a].pcs[w]).0, PickedSoFar(states[a].pcs[w]).1)
  {
  }

  lemma {:induction false} ListingKnown(states: seq<State>, a: nat, b: nat, w: nat, task: Task, q: nat)
    requires IsRun(states) && ServesTo(states, a, b, w, task) && task.req.Confirm? && q < NUM_SEATS
    ensures SeatKnown(states, a, b, w, task.req, q)
    ensures Rises(PickedSoFar(states[b].pcs[w]).0, PickedSoFar(states[b].pcs[w]).1)
    decreases b
  {
    hide IsRun, Step, CoreOk, SessionsOk, SeatsOk, FdsOk, SeatKnown, SeatPasses, Rises, PickedSoFar, AtTask;
    if a == b {
      KnownStart(states, a, w, task, q);
    } else {
      ServesBefore(states, a, b, w, task);
      ListingKnown(states, a, b - 1, w, task, q);
      Always(states, b - 1);
      RunStep(states, b - 1);
      ListStep(states[b - 1], states[b], w, task, q);
      KnownStep(states, a, b - 1, w, task.req, q);
    }
  }

  lemma ListIsAsked(s: State, t: State, w: nat, task: Task)
    requires CoreOk(s) && Step(s, t) && HandlesAt(s, w, task)
    requires w < |t.pcs| && t.pcs[w].Replied? && t.pcs[w].reply.SeatList?
    ensures task.req.Confirm?
  {
    hide Step, LocksOk, SetsOk, MainOk, NamesDistinct, Program, FactsOk;
    StepKinds(s, t, w);
    assert WorkerOk(s, w);
    if c :| OwnStep(s, t, w, c) {
      ListMove(s, w, c);
    }
  }

  lemma ListMove(s: State, w: nat, c: Choice)
    requires w < |s.pcs| == |s.sets| && FactsOk(s.users, s.seats, s.sets[w], s.pcs[w]) && s.pcs[w].Handling?
    requires Program(s, w, c).next.Replied? && Program(s, w, c).next.reply.SeatList?
    ensures s.pcs[w].task.req.Confirm?
  {
    hide PickedOk, FindUser;
  }

  /** A listing that is sent answers a listing request, its ids ascend, and no seat is passed
      over: seat by seat it says what the worker found when it stood there. */
  lemma ListingSeen(states: seq<State>, a: nat, b: nat, w: nat, task: Task, ids: seq<nat>)
    requires IsRun(states) && ServesTo(states, a, b, w, task) && states[b].pcs[w] == Replied(task.fd, SeatList(ids))
    ensures task.req.Confirm? && Rises(ids, NUM_SEATS)
    ensures forall q: nat :: q < NUM_SEATS ==> Witnessed(states, a, b, w, task.req, q, ids)
  {
    hide IsRun, Step, CoreOk, SessionsOk, SeatsOk, FdsOk, Witnessed, Rises;
    ServesBefore(states, a, b, w, task);
    Always(states, b - 1);
    RunStep(states, b - 1);
    assert HandlesAt(states[b - 1], w, task);
    ListIsAsked(states[b - 1], states[b], w, task);
    forall q: nat | q < NUM_SEATS ensures Witnessed(states, a, b, w, task.req, q, ids) {
      ListingKnown(states, a, b, w, task, q);
    }
    ListingKnown(states, a, b, w, task, 0);
  }

  // ------------------------------------------------ the connection's session

  /** Whose session the connection has once the request is answered. */
  function SessionAfter(req: Request, reply: Reply, active: Option<Name>): Option<Name> {
    match req
    case Login(name, _) => if reply == Success then name else active
    case Logout(_) => if reply == Success then None else active
    case _ => active
  }

  /** The connection's own slot after the move. */
  ghost predicate KeepsSession(slots: seq<Slot>, task: Task, m: Move) {
    AtTask(m.next, task) ==>
      var after := SlotsAfter(slots, m.effect);
      && 1 <= task.slot < |slots| && task.slot < |after|
      && after[task.slot] == slots[task.slot].(active :=
           if m.next.Replied? then SessionAfter(task.req, m.next.reply, slots[task.slot].active)
           else slots[task.slot].active)
  }

  lemma EntryKeepsSession(s: State, slots: seq<Slot>, task: Task, stage: Stage)
    requires !AtSeats(stage) && FactsOk(s.users, s.seats, slots, Handling(task, stage))
    ensures KeepsSession(slots, task, EntryMove(s, task, stage, slots[task.slot].active))
  {
    PrecheckExact(task.req, slots[task.slot].active);
    hide FindUser, Precheck;
  }

  lemma SeatsKeepSession(s: State, slots: seq<Slot>, task: Task, stage: Stage)
    requires AtSeats(stage) && FactsOk(s.users, s.seats, slots, Handling(task, stage))
    ensures KeepsSession(slots, task, SeatStageMove(s, task, stage))
  {
    hide PickedOk, BookedIds, SeatReplyOk, HoldReplyOk;
  }

  lemma OwnSession(s: State, w: nat, c: Choice, task: Task)
    requires w < |s.pcs| == |s.sets| && FactsOk(s.users, s.seats, s.sets[w], s.pcs[w]) && Handles(s.pcs[w], task)
    ensures KeepsSession(s.sets[w], task, Program(s, w, c))
  {
    hide KeepsSession, StageOk, EntryMove, SeatStageMove;
    if AtSeats(s.pcs[w].stage) {
      SeatsKeepSession(s, s.sets[w], task, s.pcs[w].stage);
    } else {
      EntryKeepsSession(s, s.sets[w], task, s.pcs[w].stage);
    }
  }

  /** The connection's slot in this state. */
  ghost predicate InSlot(s: State, w: nat, task: Task, active: Option<Name>) {
    w < |s.sets| && 1 <= task.slot < |s.sets[w]| && s.sets[w][task.slot] == Slot(task.fd, active)
  }

  /** Who is logged in on the connection, as the request leaves it. */
  function Leaves(pc: Pc, req: Request, active: Option<Name>): Option<Name> {
    if pc.Replied? then SessionAfter(req, pc.reply, active) else active
  }

  lemma SessionStep(s: State, t: State, w: nat, task: Task, active: Option<Name>)
    requires CoreOk(s) && Step(s, t) && HandlesAt(s, w, task) && InSlot(s, w, task, active)
    requires w < |t.pcs| && AtTask(t.pcs[w], task)
    ensures InSlot(t, w, task, Leaves(t.pcs[w], task.req, active))
  {
    hide Step, LocksOk, SetsOk, MainOk, NamesDistinct, Program, FactsOk, UsersAfter, SeatsAfter, SlotsAfter,
      SessionAfter;
    StepKinds(s, t, w);
    assert WorkerOk(s, w);
    if c :| OwnStep(s, t, w, c) {
      OwnSession(s, w, c, task);
    }
  }

  lemma LocatedInSlot(s: State, w: nat)
    requires CoreOk(s) && w < |s.pcs| && s.pcs[w].Handling?
    ensures w < |s.sets| && s.pcs[w].task.slot < |s.sets[w]|
    ensures InSlot(s, w, s.pcs[w].task, s.sets[w][s.pcs[w].task.slot].active)
  {
    hide LocksOk, StageOk;
    SetsLengths(s);
    assert WorkerOk(s, w);
  }

  /** A login that succeeds makes its user the connection's, a logout that succeeds leaves the
      connection without one, and any other answer leaves it as it was. */
  lemma {:induction false} SessionSettled(states: seq<State>, a: nat, b: nat, w: nat, task: Task)
    requires IsRun(states) && ServesTo(states, a, b, w, task)
    ensures w < |states[a].sets| && task.slot < |states[a].sets[w]|
    ensures InSlot(states[b], w, task,
      Leaves(states[b].pcs[w], task.req, states[a].sets[w][task.slot].active))
    decreases b
  {
    hide IsRun, Step, CoreOk, SessionsOk, SeatsOk, FdsOk, AtTask, InSlot, SessionAfter;
    Always(states, a);
    LocatedInSlot(states[a], w);
    if a < b {
      ServesBefore(states, a, b, w, task);
      SessionSettled(states, a, b - 1, w, task);
      Always(states, b - 1);
      RunStep(states, b - 1);
      SessionStep(states[b - 1], states[b], w, task, states[a].sets[w][task.slot].active);
    }
  }

  /** A login answered with success has its user logged in, on this connection. */
  lemma LoginTakes(states: seq<State>, a: nat, b: nat, w: nat, task: Task, name: Name)
    requires IsRun(states) && ServesTo(states, a, b, w, task) && states[b].pcs[w] == Replied(task.fd, Success)
    requires task.req.Login? && task.req.name == Some(name)
    ensures LoggedIn(states[b].users, name) && SessionOf(states[b], w, task.slot) == Some(name)
  {
    hide IsRun, LoggedIn;
    SessionSettled(states, a, b, w, task);
    assert SessionOf(states[b], w, task.slot) == Some(name);
    OneSession(states, b, name);
  }
}
