/** What a worker knows at each program counter, that its own moves keep it true, and that
    nothing another thread may do under the locks can make it false. */
module ThreadFacts {
  import opened Options
  import opened ServerTables
  import opened Reservation
  import opened LockDiscipline

  // ------------------------------------------------ facts

  ghost predicate IsUser(users: seq<User>, uid: nat, req: Request) {
    uid < |users| && NameOf(req) == Some(users[uid].name)
  }

  /** The request has passed the checks made without locks. */
  predicate Entering(req: Request, active: Option<Name>) {
    Precheck(req, active) == None && !req.Query?
  }

  /** The ids of the user's seats among the first `k`, ascending. */
  function BookedIds(seats: seq<Seat>, name: Name, k: nat): seq<nat>
    requires k <= |seats|
  {
    if k == 0 then []
    else BookedIds(seats, name, k - 1) + if seats[k - 1].holder == Some(name) then [seats[k - 1].id] else []
  }

  predicate ListsBooked(req: Request) {
    req.Confirm? && req.list.WantsBooked?
  }

  /** The picks of a listing are right for the first `k` seats as they are now. */
  ghost predicate PickedOk(seats: seq<Seat>, req: Request, k: nat, picked: seq<nat>) {
    ListsBooked(req) ==> k <= |seats| && picked == BookedIds(seats, UserName(req), k)
  }

  predicate SeatAt(req: Request, k: nat) {
    k < NUM_SEATS && (req.Book? || req.Cancel? ==> k == FirstSeat(req))
  }

  /** The reply to a change of the seat is true while the seat is still locked. */
  predicate SeatReplyOk(seat: Seat, req: Request, reply: Reply) {
    if req.Book? then
      || (reply == Success && seat.holder == NameOf(req))
      || (reply == Refused(Unavailable) && seat.holder.Some?)
    else
      || (reply == Success && seat.holder == None)
      || (reply == Refused(NotBookedByUser) && seat.holder != NameOf(req))
  }

  /** What stays true of it while only the user is locked. */
  predicate HoldReplyOk(seat: Seat, req: Request, reply: Reply) {
    if req.Book? then reply == Success ==> seat.holder == NameOf(req)
    else reply == Success || reply == Refused(NotBookedByUser) ==> seat.holder != NameOf(req)
  }

  /** The replies found under the user's lock, each with what the user's flag then is. */
  predicate UserReplyOk(user: User, req: Request, active: Option<Name>, reply: Reply) {
    match req
    case Login(_, password) =>
      if user.loggedIn then reply == Refused(ActiveUser)
      else reply == Refused(IncorrectPassword) && password != Some(user.password)
    case Logout(_) => reply == Refused(NotLoggedIn) && (!user.loggedIn || !Matches(req, active))
    case Book(_, _) => reply == Success || reply == Refused(Unavailable)
      || (reply == Refused(NotLoggedIn) && !user.loggedIn)
    case Cancel(_, _) => reply == Success || reply == Refused(NotBookedByUser)
      || (reply == Refused(NotLoggedIn) && !user.loggedIn)
    case Confirm(_, _) => reply.SeatList? || (reply == Refused(NotLoggedIn) && !user.loggedIn)
    case _ => false
  }

  ghost predicate NoUserNamed(users: seq<User>, name: Name) {
    forall u {:trigger users[u]} :: 0 <= u < |users| ==> users[u].name != name
  }

  /** A refusal under the array lock: there is no user of that name. */
  ghost predicate UnknownReplyOk(users: seq<User>, req: Request, reply: Reply) {
    && !req.Login? && NameOf(req).Some? && NoUserNamed(users, NameOf(req).value)
    && reply == Refused(if req.Logout? then UserNotFound else NotLoggedIn)
  }

  /** A login with the password of the user it names. */
  ghost predicate HasPassed(users: seq<User>, uid: nat, req: Request, active: Option<Name>) {
    req.Login? && Entering(req, active) && IsUser(users, uid, req) && req.password == Some(users[uid].password)
  }

  /** What holds at each stage of a request. */
  ghost predicate StageOk(users: seq<User>, seats: seq<Seat>, active: Option<Name>, req: Request, stage: Stage) {
    match stage
    case Located => true
    case EnterArray => Entering(req, active)
    case InArray => Entering(req, active)
    case LeaveArray(reply) => UnknownReplyOk(users, req, reply)
    case EnterUser(uid) => Entering(req, active) && IsUser(users, uid, req)
    case HandOver(uid) => Entering(req, active) && IsUser(users, uid, req)
    case InUser(uid) => Entering(req, active) && IsUser(users, uid, req)
    case Checked(uid) => req.Login? && Entering(req, active) && IsUser(users, uid, req) && !users[uid].loggedIn
    case Marked(uid) => HasPassed(users, uid, req, active) && users[uid].loggedIn
    case NewUser(uid) => HasPassed(users, uid, req, active) && !users[uid].loggedIn
    case NewInUser(uid) => HasPassed(users, uid, req, active) && !users[uid].loggedIn
    case NewMarked(uid) => HasPassed(users, uid, req, active) && users[uid].loggedIn
    case NewLeaveArray(uid) => HasPassed(users, uid, req, active)
    case Saving => req.Login? && Entering(req, active)
    case Cleared(uid) => req.Logout? && Matches(req, active) && IsUser(users, uid, req) && !users[uid].loggedIn
    case Forgetting => req.Logout? && Matches(req, active)
    case EnterSeat(uid, k, picked) => SessionOk(users, active, req, uid) && SeatAt(req, k)
      && PickedOk(seats, req, k, picked)
    case InSeat(uid, k, picked) => SessionOk(users, active, req, uid) && SeatAt(req, k)
      && PickedOk(seats, req, k, picked)
    case Counting(uid, k) =>
      && SessionOk(users, active, req, uid) && SeatAt(req, k) && !req.Confirm?
      && k < |seats| && seats[k].holder == (if req.Book? then NameOf(req) else None)
    case LeaveSeat(uid, k, picked, reply) =>
      && SessionOk(users, active, req, uid) && SeatAt(req, k)
      && (req.Confirm? ==> reply == SeatList(picked) && PickedOk(seats, req, k + 1, picked))
      && (!req.Confirm? ==> k < |seats| && SeatReplyOk(seats[k], req, reply))
    case LeaveUser(uid, reply) =>
      && IsUser(users, uid, req)
      && (reply.SeatList? ==> req.Confirm? && PickedOk(seats, req, NUM_SEATS, reply.ids))
      && UserReplyOk(users[uid], req, active, reply)
      && (req.Book? || req.Cancel? ==> FirstSeat(req) < |seats| && HoldReplyOk(seats[FirstSeat(req)], req, reply))
    case EnterStats(k) => k < NUM_SEATS && req == Query(SeatNumber(k))
    case InStats(k) => k < NUM_SEATS && req == Query(SeatNumber(k))
    case LeaveStats(k, reply) =>
      && req == Query(SeatNumber(k))
      && k < |seats| && reply == Stats(seats[k].id, seats[k].booked, seats[k].canceled)
  }

  ghost predicate SessionOk(users: seq<User>, active: Option<Name>, req: Request, uid: nat) {
    WithinSession(req) && Entering(req, active) && IsUser(users, uid, req)
  }

  /** Slot `i` is a client slot that holds `fd`. */
  ghost predicate SlotIs(slots: seq<Slot>, i: nat, fd: nat) {
    1 <= i < |slots| && slots[i].fd == fd
  }

  ghost predicate NotWake(slots: seq<Slot>, fd: nat) {
    slots != [] && slots[0].fd != fd
  }

  /** Slot `i` is being dropped and its user is user `uid`. */
  ghost predicate OffUserIs(users: seq<User>, slots: seq<Slot>, i: nat, uid: nat) {
    i < |slots| && uid < |users| && slots[i].active == Some(users[uid].name)
  }

  ghost predicate OffOk(users: seq<User>, slots: seq<Slot>, fd: nat, off: OffStage) {
    match off
    case OffEnter => true
    case OffSearch => true
    case OffEnterArray(i) => SlotIs(slots, i, fd) && slots[i].active.Some?
    case OffInArray(i) => SlotIs(slots, i, fd) && slots[i].active.Some?
    case OffLeaveArray(i) => SlotIs(slots, i, fd) && slots[i].active.Some?
    case OffEnterUser(i, uid) => SlotIs(slots, i, fd) && OffUserIs(users, slots, i, uid)
    case OffHandOver(i, uid) => SlotIs(slots, i, fd) && OffUserIs(users, slots, i, uid)
    case OffInUser(i, uid) => SlotIs(slots, i, fd) && OffUserIs(users, slots, i, uid)
    case OffCleared(i, uid) => SlotIs(slots, i, fd) && OffUserIs(users, slots, i, uid)
    case Freeing(i) => SlotIs(slots, i, fd) && slots[i].active.Some?
    case Closing(i) => SlotIs(slots, i, fd) && slots[i].active.None?
    case Removing(i) => SlotIs(slots, i, fd) && slots[i].active.None?
    case OffLeave => true
  }

  ghost predicate FactsOk(users: seq<User>, seats: seq<Seat>, slots: seq<Slot>, pc: Pc) {
    match pc
    case Idle => true
    case Copying => true
    case Finding(fd, _) => NotWake(slots, fd)
    case Found(fd, _) => NotWake(slots, fd)
    case Handling(task, stage) =>
      && SlotIs(slots, task.slot, task.fd) && NotWake(slots, task.fd)
      && StageOk(users, seats, slots[task.slot].active, task.req, stage)
    case Replied(fd, _) => NotWake(slots, fd)
    case Dropping(fd, off) => NotWake(slots, fd) && OffOk(users, slots, fd, off)
  }

  // ------------------------------------------------ interference

  /** What the other threads may change while a worker with `locks` is at `pc`. */
  ghost predicate Rely(users: seq<User>, seats: seq<Seat>, slots: seq<Slot>,
                       users': seq<User>, seats': seq<Seat>, slots': seq<Slot>, pc: Pc)
  {
    && |users| <= |users'| && |seats| == |seats'|
    && (forall u {:trigger users'[u]} :: 0 <= u < |users| ==>
          users'[u].name == users[u].name && users'[u].password == users[u].password)
    && (forall u {:trigger users'[u]} :: 0 <= u < |users| && Guards(pc, u) ==> users'[u] == users[u])
    && (Locks(pc).array_ ==> |users'| == |users|)
    && slots <= slots'
    && (forall k, u {:trigger seats'[k], users[u]} :: 0 <= k < |seats| && 0 <= u < |users| && Guards(pc, u) ==>
          (seats'[k].holder == Some(users[u].name) <==> seats[k].holder == Some(users[u].name)))
    && (forall k {:trigger seats'[k]} :: 0 <= k < |seats| ==> seats'[k].id == seats[k].id)
    && (forall k {:trigger seats'[k]} :: 0 <= k < |seats| && Locks(pc).seat == Some(k) ==> seats'[k] == seats[k])
  }

  /** The worker holds user `u`'s lock, or has just added the user. */
  predicate Guards(pc: Pc, u: nat) {
    Locks(pc).user == Some(u) || (pc.Handling? && pc.stage == NewUser(u))
  }

  lemma {:induction false} BookedStable(seats: seq<Seat>, seats': seq<Seat>, name: Name, k: nat)
    requires k <= |seats| == |seats'|
    requires forall j {:trigger seats'[j]} :: 0 <= j < k ==> seats'[j].id == seats[j].id
    requires forall j {:trigger seats'[j]} :: 0 <= j < k ==>
      (seats'[j].holder == Some(name) <==> seats[j].holder == Some(name))
    ensures BookedIds(seats', name, k) == BookedIds(seats, name, k)
  {
    if k > 0 {
      BookedStable(seats, seats', name, k - 1);
    }
  }

  /** A listing under the user's lock stays right. */
  lemma PickedStable(users: seq<User>, seats: seq<Seat>, slots: seq<Slot>, users': seq<User>, seats': seq<Seat>,
                     slots': seq<Slot>, pc: Pc, uid: nat, req: Request, k: nat, picked: seq<nat>)
    requires Rely(users, seats, slots, users', seats', slots', pc) && Guards(pc, uid) && IsUser(users, uid, req)
    requires PickedOk(seats, req, k, picked)
    ensures PickedOk(seats', req, k, picked)
  {
    if ListsBooked(req) {
      BookedStable(seats, seats', users[uid].name, k);
    }
  }

  lemma StageStable(users: seq<User>, seats: seq<Seat>, slots: seq<Slot>, users': seq<User>, seats': seq<Seat>,
                    slots': seq<Slot>, active: Option<Name>, task: Task, stage: Stage)
    requires Rely(users, seats, slots, users', seats', slots', Handling(task, stage))
    requires StageOk(users, seats, active, task.req, stage)
    ensures StageOk(users', seats', active, task.req, stage)
  {
    hide Entering, PickedOk, BookedIds, NameOf;
    var pc := Handling(task, stage);
    match stage
    case EnterSeat(uid, k, picked) =>
      PickedStable(users, seats, slots, users', seats', slots', pc, uid, task.req, k, picked);
    case InSeat(uid, k, picked) =>
      PickedStable(users, seats, slots, users', seats', slots', pc, uid, task.req, k, picked);
    case LeaveSeat(uid, k, picked, reply) =>
      if task.req.Confirm? {
        PickedStable(users, seats, slots, users', seats', slots', pc, uid, task.req, k + 1, picked);
      }
    case LeaveUser(uid, reply) =>
      if reply.SeatList? {
        PickedStable(users, seats, slots, users', seats', slots', pc, uid, task.req, NUM_SEATS, reply.ids);
      }
    case _ =>
  }

  /** What a worker knows survives the moves of the others. */
  lemma FactsStable(users: seq<User>, seats: seq<Seat>, slots: seq<Slot>, users': seq<User>, seats': seq<Seat>,
                    slots': seq<Slot>, pc: Pc)
    requires Rely(users, seats, slots, users', seats', slots', pc) && FactsOk(users, seats, slots, pc)
    ensures FactsOk(users', seats', slots', pc)
  {
    hide StageOk;
    match pc
    case Handling(task, stage) =>
      StageStable(users, seats, slots, users', seats', slots', slots[task.slot].active, task, stage);
    case _ =>
  }
}
