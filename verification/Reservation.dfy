/** The reservation server as a transition system: the main thread and one worker per
    core, one step for each lock, unlock or guarded access
    (PA3/server/handle_request.c, PA3/server/pa3_server.c, PA3/server/helper.c:155-171).

    A worker's program says, for each program counter, the next move: a lock operation or
    an effect on shared data, and the next program counter. */
module Reservation {
  import opened Options
  import opened ServerTables

  const U64_LIMIT := 0x1_0000_0000_0000_0000

  // ------------------------------------------------ shared state

  /** What happened to a seat. */
  datatype Event = BookedBy(name: Name) | CanceledBy(name: Name)

  /** The counters wrap like the source's 64-bit ones; `log` is a history variable. */
  datatype Seat = Seat(id: nat, holder: Option<Name>, booked: nat, canceled: nat, log: seq<Event>)

  datatype Lock = PollLock(w: nat) | ArrayLock | UserLock(uid: nat) | SeatLock(k: nat)

  datatype Thread = MainThread | Worker(w: nat)

  /** `open` are the open client connections; a worker's wake pipe is in slot 0 of its set. */
  datatype State = State(
    users: seq<User>, seats: seq<Seat>, sets: seq<seq<Slot>>, open: set<nat>,
    owner: map<Lock, Thread>, pcs: seq<Pc>, main: MainPc, exited: bool)

  // ------------------------------------------------ requests

  datatype SeatArg = NoSeatData | BadSeat | SeatNumber(k: nat)

  datatype ListArg = NoListData | BadList | WantsAvailable | WantsBooked

  /** A received request; a name or password is absent when its length is zero. */
  datatype Request =
    | Login(name: Option<Name>, password: Option<Password>)
    | Logout(name: Option<Name>)
    | Book(name: Option<Name>, seat: SeatArg)
    | Cancel(name: Option<Name>, seat: SeatArg)
    | Confirm(name: Option<Name>, list: ListArg)
    | Query(seat: SeatArg)
    | OtherAction

  datatype Reason =
    | ActiveClient | NoUsername | NoPassword | ActiveUser | IncorrectPassword
    | NoData | OutOfRange | InvalidData | NotLoggedIn | UserNotFound
    | Unavailable | NotBookedByUser | InvalidAction

  datatype Reply = Refused(why: Reason) | Success | SeatList(ids: seq<nat>) | Stats(id: nat, booked: nat, canceled: nat)

  // ------------------------------------------------ program counters

  /** A request being handled for the connection in slot `slot`. */
  datatype Task = Task(fd: nat, slot: nat, req: Request)

  datatype Pc =
    | Idle
    | Copying                        // copying the poll set
    | Finding(fd: nat, req: Request) // about to lock the set
    | Found(fd: nat, req: Request)   // looking the descriptor up
    | Handling(task: Task, stage: Stage)
    | Replied(fd: nat, reply: Reply)
    | Dropping(fd: nat, off: OffStage)

  datatype Stage =
    | Located
    | EnterArray
    | InArray
    | LeaveArray(reply: Reply)
    | EnterUser(uid: nat)
    | HandOver(uid: nat)             // holds the array and the user lock
    | InUser(uid: nat)
    | Checked(uid: nat)              // login: the user is logged out, the password is next
    | Marked(uid: nat)               // login: flag set
    | NewUser(uid: nat)              // login: just added
    | NewInUser(uid: nat)
    | NewMarked(uid: nat)
    | NewLeaveArray(uid: nat)
    | Saving                         // login: flag set and unlocked, slot not written yet
    | Cleared(uid: nat)              // logout: flag cleared
    | Forgetting                     // logout: slot not cleared yet
    | EnterSeat(uid: nat, k: nat, picked: seq<nat>)
    | InSeat(uid: nat, k: nat, picked: seq<nat>)
    | Counting(uid: nat, k: nat)     // holder changed, counter not yet
    | LeaveSeat(uid: nat, k: nat, picked: seq<nat>, reply: Reply)
    | LeaveUser(uid: nat, reply: Reply)
    | EnterStats(k: nat)
    | InStats(k: nat)
    | LeaveStats(k: nat, reply: Reply)

  /** Removing a connection; the poll set is locked throughout. */
  datatype OffStage =
    | OffEnter
    | OffSearch
    | OffEnterArray(i: nat)
    | OffInArray(i: nat)
    | OffLeaveArray(i: nat)
    | OffEnterUser(i: nat, uid: nat)
    | OffHandOver(i: nat, uid: nat)
    | OffInUser(i: nat, uid: nat)
    | OffCleared(i: nat, uid: nat)
    | Freeing(i: nat)
    | Closing(i: nat)
    | Removing(i: nat)
    | OffLeave

  /** The main thread places a new connection in a smallest set that has room; `best` is the
      set and size kept so far, `read` records the sizes read in this scan. */
  datatype MainPc =
    | Waiting
    | ScanEnter(conn: nat, i: nat, best: Option<(nat, nat)>, read: seq<nat>)
    | ScanIn(conn: nat, i: nat, best: Option<(nat, nat)>, read: seq<nat>)
    | ScanLeave(conn: nat, i: nat, best: Option<(nat, nat)>, read: seq<nat>, size: nat)
    | AddEnter(conn: nat, w: nat)
    | AddIn(conn: nat, w: nat)
    | AddFull(conn: nat, w: nat)
    | AddLeave(w: nat)

  // ------------------------------------------------ moves

  datatype Sync = NoSync | Acquire(lock: Lock) | Release(lock: Lock)

  datatype Effect =
    | NoEffect
    | Exit
    | AddUser(name: Name, password: Password)
    | SetFlag(uid: nat, on: bool)
    | SetActive(i: nat, to: Option<Name>)
    | SetHolder(k: nat, event: Event)
    | Count(k: nat, event: Event)
    | CloseFd(fd: nat)
    | RemoveSlot(i: nat)

  datatype Move = Move(sync: Sync, effect: Effect, next: Pc)

  function HolderAfter(event: Event): Option<Name> {
    match event
    case BookedBy(name) => Some(name)
    case CanceledBy(_) => None
  }

  /** The seat with its new holder and the change in its history. */
  function Changed(seat: Seat, event: Event): Seat {
    seat.(holder := HolderAfter(event), log := seat.log + [event])
  }

  /** The seat with the change counted; the counters wrap. */
  function Counted(seat: Seat, event: Event): Seat {
    match event
    case BookedBy(_) => seat.(booked := (seat.booked + 1) % U64_LIMIT)
    case CanceledBy(_) => seat.(canceled := (seat.canceled + 1) % U64_LIMIT)
  }

  function UsersAfter(users: seq<User>, e: Effect): seq<User> {
    match e
    case AddUser(name, password) => users + [User(name, password, false)]
    case SetFlag(uid, on) => if uid < |users| then users[uid := users[uid].(loggedIn := on)] else users
    case _ => users
  }

  function SeatsAfter(seats: seq<Seat>, e: Effect): seq<Seat> {
    match e
    case SetHolder(k, event) => if k < |seats| then seats[k := Changed(seats[k], event)] else seats
    case Count(k, event) => if k < |seats| then seats[k := Counted(seats[k], event)] else seats
    case _ => seats
  }

  /** The mover's own poll set after an effect. */
  function SlotsAfter(slots: seq<Slot>, e: Effect): seq<Slot> {
    match e
    case SetActive(i, to) => if i < |slots| then slots[i := slots[i].(active := to)] else slots
    case RemoveSlot(i) => if i < |slots| then Without(slots, i) else slots
    case _ => slots
  }

  function SyncOwner(owner: map<Lock, Thread>, t: Thread, sync: Sync): map<Lock, Thread> {
    match sync
    case NoSync => owner
    case Acquire(l) => owner[l := t]
    case Release(l) => owner - {l}
  }

  function Apply(s: State, w: nat, m: Move): State
    requires w < |s.pcs| == |s.sets|
  {
    s.(users := UsersAfter(s.users, m.effect),
       seats := SeatsAfter(s.seats, m.effect),
       sets := s.sets[w := SlotsAfter(s.sets[w], m.effect)],
       open := if m.effect.CloseFd? then s.open - {m.effect.fd} else s.open,
       owner := SyncOwner(s.owner, Worker(w), m.sync),
       pcs := s.pcs[w := m.next],
       exited := s.exited || m.effect.Exit?)
  }

  // ------------------------------------------------ the worker's program

  /** What the environment decides at a step. */
  datatype Choice = Choice(fd: nat, req: Request, copy: bool, hangup: bool, yes: bool)

  function Go(next: Pc): Move {
    Move(NoSync, NoEffect, next)
  }

  function Do(effect: Effect, next: Pc): Move {
    Move(NoSync, effect, next)
  }

  function NameOf(req: Request): Option<Name> {
    match req
    case Login(name, _) => name
    case Logout(name) => name
    case Book(name, _) => name
    case Cancel(name, _) => name
    case Confirm(name, _) => name
    case Query(_) => None
    case OtherAction => None
  }

  /** The request comes from the user the connection is logged in as. */
  predicate Matches(req: Request, active: Option<Name>) {
    active.Some? && NameOf(req) == active
  }

  /** The checks made before any lock is taken. */
  function Precheck(req: Request, active: Option<Name>): Option<Reply> {
    match req
    case Login(name, password) =>
      if active.Some? then Some(Refused(ActiveClient))
      else if name == None then Some(Refused(NoUsername))
      else if password == None then Some(Refused(NoPassword))
      else None
    case Logout(name) => if name == None then Some(Refused(UserNotFound)) else None
    case Book(_, seat) => SeatCheck(req, seat, active)
    case Cancel(_, seat) => SeatCheck(req, seat, active)
    case Confirm(_, list) =>
      if list.NoListData? then Some(Refused(NoData))
      else if list.BadList? then Some(Refused(InvalidData))
      else if !Matches(req, active) then Some(Refused(NotLoggedIn))
      else None
    case Query(seat) =>
      if seat.NoSeatData? then Some(Refused(NoData))
      else if seat.BadSeat? || seat.k >= NUM_SEATS then Some(Refused(OutOfRange))
      else None
    case OtherAction => Some(Refused(InvalidAction))
  }

  function SeatCheck(req: Request, seat: SeatArg, active: Option<Name>): Option<Reply> {
    if seat.NoSeatData? then Some(Refused(NoData))
    else if seat.BadSeat? || seat.k >= NUM_SEATS then Some(Refused(OutOfRange))
    else if !Matches(req, active) then Some(Refused(NotLoggedIn))
    else None
  }

  predicate WithinSession(req: Request) {
    req.Book? || req.Cancel? || req.Confirm?
  }

  /** The first seat a request within a session looks at. */
  function FirstSeat(req: Request): nat {
    if (req.Book? || req.Cancel?) && req.seat.SeatNumber? then req.seat.k else 0
  }

  function UserName(req: Request): Name {
    if NameOf(req).Some? then NameOf(req).value else ""
  }

  function PasswordOf(req: Request): Password {
    if req.Login? && req.password.Some? then req.password.value else ""
  }

  /** Login, logout and the check of a session, up to the seats. */
  function EntryMove(s: State, task: Task, stage: Stage, active: Option<Name>): Move {
    var req, name := task.req, UserName(task.req);
    match stage
    case Located =>
      var early := Precheck(req, active);
      if early.Some? then Go(Replied(task.fd, early.value))
      else if req.Query? && req.seat.SeatNumber? then Go(Handling(task, EnterStats(req.seat.k)))
      else Go(Handling(task, EnterArray))
    case EnterArray => Move(Acquire(ArrayLock), NoEffect, Handling(task, InArray))
    case InArray =>
      var uid := FindUser(s.users, name);
      if uid.Some? then Go(Handling(task, EnterUser(uid.value)))
      else if req.Logout? then Go(Handling(task, LeaveArray(Refused(UserNotFound))))
      else if !req.Login? then Go(Handling(task, LeaveArray(Refused(NotLoggedIn))))
      else if |s.users| >= NUM_USERS then Do(Exit, Handling(task, InArray))
      else Do(AddUser(name, PasswordOf(req)), Handling(task, NewUser(|s.users|)))
    case LeaveArray(reply) => Move(Release(ArrayLock), NoEffect, Replied(task.fd, reply))
    case EnterUser(uid) => Move(Acquire(UserLock(uid)), NoEffect, Handling(task, HandOver(uid)))
    case HandOver(uid) => Move(Release(ArrayLock), NoEffect, Handling(task, InUser(uid)))
    case InUser(uid) =>
      var on := uid < |s.users| && s.users[uid].loggedIn;
      if req.Login? then Go(Handling(task, if on then LeaveUser(uid, Refused(ActiveUser)) else Checked(uid)))
      else if req.Logout? then
        if !on || !Matches(req, active) then Go(Handling(task, LeaveUser(uid, Refused(NotLoggedIn))))
        else Do(SetFlag(uid, false), Handling(task, Cleared(uid)))
      else Go(Handling(task, if on then EnterSeat(uid, FirstSeat(req), []) else LeaveUser(uid, Refused(NotLoggedIn))))
    case Checked(uid) =>
      if uid < |s.users| && s.users[uid].password == PasswordOf(req)
      then Do(SetFlag(uid, true), Handling(task, Marked(uid)))
      else Go(Handling(task, LeaveUser(uid, Refused(IncorrectPassword))))
    case Marked(uid) => Move(Release(UserLock(uid)), NoEffect, Handling(task, Saving))
    case NewUser(uid) => Move(Acquire(UserLock(uid)), NoEffect, Handling(task, NewInUser(uid)))
    case NewInUser(uid) => Do(SetFlag(uid, true), Handling(task, NewMarked(uid)))
    case NewMarked(uid) => Move(Release(UserLock(uid)), NoEffect, Handling(task, NewLeaveArray(uid)))
    case NewLeaveArray(uid) => Move(Release(ArrayLock), NoEffect, Handling(task, Saving))
    case Saving => Do(SetActive(task.slot, Some(name)), Replied(task.fd, Success))
    case Cleared(uid) => Move(Release(UserLock(uid)), NoEffect, Handling(task, Forgetting))
    case Forgetting => Do(SetActive(task.slot, None), Replied(task.fd, Success))
    case _ => Go(Handling(task, stage))
  }

  /** What looking at seat `k` leads to. */
  function SeatMove(seat: Seat, task: Task, uid: nat, k: nat, picked: seq<nat>): Move {
    var req, name := task.req, UserName(task.req);
    if req.Book? then
      if seat.holder.Some? then Go(Handling(task, LeaveSeat(uid, k, picked, Refused(Unavailable))))
      else Do(SetHolder(k, BookedBy(name)), Handling(task, Counting(uid, k)))
    else if req.Cancel? then
      if seat.holder != Some(name) then Go(Handling(task, LeaveSeat(uid, k, picked, Refused(NotBookedByUser))))
      else Do(SetHolder(k, CanceledBy(name)), Handling(task, Counting(uid, k)))
    else
      var take := if req.Confirm? && req.list.WantsAvailable? then seat.holder.None? else seat.holder == Some(name);
      var now := if take then picked + [seat.id] else picked;
      Go(Handling(task, LeaveSeat(uid, k, now, SeatList(now))))
  }

  /** The seats: booking, canceling, listing, statistics. */
  function SeatStageMove(s: State, task: Task, stage: Stage): Move {
    match stage
    case EnterSeat(uid, k, picked) => Move(Acquire(SeatLock(k)), NoEffect, Handling(task, InSeat(uid, k, picked)))
    case InSeat(uid, k, picked) =>
      if k < |s.seats| then SeatMove(s.seats[k], task, uid, k, picked) else Go(Handling(task, stage))
    case Counting(uid, k) =>
      var event := if task.req.Book? then BookedBy(UserName(task.req)) else CanceledBy(UserName(task.req));
      Do(Count(k, event), Handling(task, LeaveSeat(uid, k, [], Success)))
    case LeaveSeat(uid, k, picked, reply) =>
      Move(Release(SeatLock(k)), NoEffect, Handling(task,
        if task.req.Confirm? && k + 1 < NUM_SEATS then EnterSeat(uid, k + 1, picked) else LeaveUser(uid, reply)))
    case LeaveUser(uid, reply) => Move(Release(UserLock(uid)), NoEffect, Replied(task.fd, reply))
    case EnterStats(k) => Move(Acquire(SeatLock(k)), NoEffect, Handling(task, InStats(k)))
    case InStats(k) =>
      if k < |s.seats|
      then Go(Handling(task, LeaveStats(k, Stats(s.seats[k].id, s.seats[k].booked, s.seats[k].canceled))))
      else Go(Handling(task, stage))
    case LeaveStats(k, reply) => Move(Release(SeatLock(k)), NoEffect, Replied(task.fd, reply))
    case _ => Go(Handling(task, stage))
  }

  predicate AtSeats(stage: Stage) {
    || stage.EnterSeat? || stage.InSeat? || stage.Counting? || stage.LeaveSeat? || stage.LeaveUser?
    || stage.EnterStats? || stage.InStats? || stage.LeaveStats?
  }

  /** Up to the look at the user's flag. */
  predicate AtEntrance(stage: Stage) {
    || stage.Located? || stage.EnterArray? || stage.InArray? || stage.LeaveArray?
    || stage.EnterUser? || stage.HandOver? || stage.InUser?
  }

  /** Dropping a connection: log its user out, close it, take its slot out. */
  function OffMove(s: State, w: nat, slots: seq<Slot>, fd: nat, off: OffStage): Move {
    match off
    case OffEnter => Move(Acquire(PollLock(w)), NoEffect, Dropping(fd, OffSearch))
    case OffSearch =>
      var at := FindFd(slots, fd, 0);
      if at.None? then Go(Dropping(fd, OffLeave))
      else if slots[at.value].active.Some? then Go(Dropping(fd, OffEnterArray(at.value)))
      else Go(Dropping(fd, Closing(at.value)))
    case OffEnterArray(i) => Move(Acquire(ArrayLock), NoEffect, Dropping(fd, OffInArray(i)))
    case OffInArray(i) =>
      var uid := if i < |slots| && slots[i].active.Some? then FindUser(s.users, slots[i].active.value) else None;
      Go(Dropping(fd, if uid.Some? then OffEnterUser(i, uid.value) else OffLeaveArray(i)))
    case OffLeaveArray(i) => Move(Release(ArrayLock), NoEffect, Dropping(fd, Freeing(i)))
    case OffEnterUser(i, uid) => Move(Acquire(UserLock(uid)), NoEffect, Dropping(fd, OffHandOver(i, uid)))
    case OffHandOver(i, uid) => Move(Release(ArrayLock), NoEffect, Dropping(fd, OffInUser(i, uid)))
    case OffInUser(i, uid) => Do(SetFlag(uid, false), Dropping(fd, OffCleared(i, uid)))
    case OffCleared(i, uid) => Move(Release(UserLock(uid)), NoEffect, Dropping(fd, Freeing(i)))
    case Freeing(i) => Do(SetActive(i, None), Dropping(fd, Closing(i)))
    case Closing(i) => Do(CloseFd(fd), Dropping(fd, Removing(i)))
    case Removing(i) => Do(RemoveSlot(i), Dropping(fd, OffLeave))
    case OffLeave => Move(Release(PollLock(w)), NoEffect, Idle)
  }

  /** The worker's next move. Descriptors come from a copy of its own poll set, so the wake
      pipe is never served or dropped. */
  function Program(s: State, w: nat, c: Choice): Move
    requires w < |s.pcs| == |s.sets|
  {
    var slots := s.sets[w];
    match s.pcs[w]
    case Idle =>
      if c.copy then Move(Acquire(PollLock(w)), NoEffect, Copying)
      else if slots == [] || c.fd == slots[0].fd then Go(Idle)
      else if c.hangup then Go(Dropping(c.fd, OffEnter))
      else Go(Finding(c.fd, c.req))
    case Copying => Move(Release(PollLock(w)), NoEffect, Idle)
    case Finding(fd, req) => Move(Acquire(PollLock(w)), NoEffect, Found(fd, req))
    case Found(fd, req) =>
      var at := FindFd(slots, fd, 0);
      Move(Release(PollLock(w)), NoEffect, if at.None? then Idle else Handling(Task(fd, at.value, req), Located))
    case Handling(task, stage) =>
      if AtSeats(stage) then SeatStageMove(s, task, stage)
      else EntryMove(s, task, stage, if task.slot < |slots| then slots[task.slot].active else None)
    case Replied(fd, _) => Go(if c.yes then Idle else Dropping(fd, OffEnter))
    case Dropping(fd, off) => OffMove(s, w, slots, fd, off)
  }

  /** A worker's step; one that wants a taken lock waits. */
  function WorkerStep(s: State, w: nat, c: Choice): State
    requires w < |s.pcs| == |s.sets|
  {
    var m := Program(s, w, c);
    if m.sync.Acquire? && m.sync.lock in s.owner then s else Apply(s, w, m)
  }

  // ------------------------------------------------ the main thread

  function MainLock(s: State, l: Lock, next: MainPc): State {
    if l in s.owner then s else s.(owner := s.owner[l := MainThread], main := next)
  }

  function MainUnlock(s: State, l: Lock, next: MainPc): State {
    s.(owner := s.owner - {l}, main := next)
  }

  /** Keep the smallest set with room, the first one among equals. */
  function Better(best: Option<(nat, nat)>, i: nat, size: nat): Option<(nat, nat)> {
    if size < CLIENTS_PER_THREAD && (best.None? || size < best.value.1) then Some((i, size)) else best
  }

  ghost predicate IsWake(s: State, fd: nat) {
    exists w :: 0 <= w < |s.sets| && s.sets[w] != [] && s.sets[w][0].fd == fd
  }

  /** The main thread's step; `fd` is the descriptor a new connection gets. */
  ghost function MainStep(s: State, fd: nat): State {
    match s.main
    case Waiting =>
      if fd in s.open || IsWake(s, fd) then s else s.(open := s.open + {fd}, main := ScanEnter(fd, 0, None, []))
    case ScanEnter(conn, i, best, read) =>
      if i < |s.sets| then MainLock(s, PollLock(i), ScanIn(conn, i, best, read))
      else if best.None? then s.(main := ScanEnter(conn, 0, None, []))
      else s.(main := AddEnter(conn, best.value.0))
    case ScanIn(conn, i, best, read) =>
      if i < |s.sets| then s.(main := ScanLeave(conn, i, best, read, |s.sets[i]|)) else s
    case ScanLeave(conn, i, best, read, size) =>
      MainUnlock(s, PollLock(i), ScanEnter(conn, i + 1, Better(best, i, size), read + [size]))
    case AddEnter(conn, w) => MainLock(s, PollLock(w), AddIn(conn, w))
    case AddIn(conn, w) =>
      if w < |s.sets| && |s.sets[w]| < CLIENTS_PER_THREAD
      then s.(sets := s.sets[w := s.sets[w] + [Slot(conn, None)]], main := AddLeave(w))
      else s.(main := AddFull(conn, w))
    case AddFull(conn, w) => MainUnlock(s.(open := s.open - {conn}), PollLock(w), Waiting)
    case AddLeave(w) => MainUnlock(s, PollLock(w), Waiting)
  }

  // ------------------------------------------------ runs

  ghost predicate Init(s: State) {
    && s.users == [] && s.owner == map[] && s.main == Waiting && !s.exited && s.open == {}
    && |s.seats| == NUM_SEATS
    && (forall k {:trigger s.seats[k]} :: 0 <= k < NUM_SEATS ==> s.seats[k] == Seat(k + 1, None, 0, 0, []))
    && |s.pcs| == |s.sets|
    && (forall w {:trigger s.pcs[w]} :: 0 <= w < |s.pcs| ==> s.pcs[w] == Idle)
    && (forall w {:trigger s.sets[w]} :: 0 <= w < |s.sets| ==> |s.sets[w]| == 1 && s.sets[w][0].active == None)
  }

  /** One step of some thread; nothing happens after the program has exited. */
  ghost predicate Step(s: State, t: State) {
    && !s.exited && |s.pcs| == |s.sets|
    && ((exists w, c :: 0 <= w < |s.pcs| && t == WorkerStep(s, w, c)) || (exists fd: nat :: t == MainStep(s, fd)))
  }

  ghost predicate StepAt(states: seq<State>, i: nat) {
    0 < i < |states| && Step(states[i - 1], states[i])
  }

  ghost predicate IsRun(states: seq<State>) {
    && states != [] && Init(states[0])
    && (forall i: nat {:trigger StepAt(states, i)} :: 0 < i < |states| ==> StepAt(states, i))
  }
}
