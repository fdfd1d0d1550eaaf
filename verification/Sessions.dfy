/** Session exclusivity (PA3/server/handle_request.c:86-142, PA3/server/handle_request.c:283-317,
    PA3/server/pa3_server.c:30-46): a user is flagged logged in iff exactly one connection
    owns the user's session, so clearing the flag on disconnect is always right. */
module Sessions {
  import opened Options
  import opened ServerTables
  import opened Reservation
  import opened LockDiscipline
  import opened ThreadFacts
  import opened ThreadMoves
  import opened ServerCore

  /** Whose session the connection in slot `i` owns. Ownership starts and ends when the flag
      is written; the slot's own entry may trail. */
  function SessionAt(pc: Pc, slots: seq<Slot>, i: nat): Option<Name> {
    if !(1 <= i < |slots|) then None
    else match pc
      case Handling(task, stage) =>
        if task.slot != i then slots[i].active
        else if stage.Marked? || stage.NewMarked? || stage.NewLeaveArray? || stage.Saving? then NameOf(task.req)
        else if stage.Cleared? || stage.Forgetting? then None
        else slots[i].active
      case Dropping(_, off) =>
        if (off.OffCleared? || off.Freeing?) && off.i == i then None else slots[i].active
      case _ => slots[i].active
  }

  function SessionOf(s: State, w: nat, i: nat): Option<Name> {
    if w < |s.pcs| && w < |s.sets| then SessionAt(s.pcs[w], s.sets[w], i) else None
  }

  predicate LoggedIn(users: seq<User>, name: Name) {
    var uid := FindUser(users, name);
    uid.Some? && users[uid.value].loggedIn
  }

  /** An owned session's user is logged in. */
  ghost predicate OwnersLoggedIn(s: State) {
    forall w: nat, i: nat {:trigger SessionOf(s, w, i)} :: SessionOf(s, w, i).Some? ==>
      LoggedIn(s.users, SessionOf(s, w, i).value)
  }

  /** Every logged-in user's session is owned. */
  ghost predicate UsersOwned(s: State) {
    forall u {:trigger s.users[u]} :: 0 <= u < |s.users| && s.users[u].loggedIn ==>
      exists w: nat, i: nat :: SessionOf(s, w, i) == Some(s.users[u].name)
  }

  /** No two connections own one session. */
  ghost predicate OwnersUnique(s: State) {
    forall v: nat, i: nat, w: nat, j: nat {:trigger SessionOf(s, v, i), SessionOf(s, w, j)} ::
      SessionOf(s, v, i).Some? && SessionOf(s, v, i) == SessionOf(s, w, j) ==> v == w && i == j
  }

  /** A dropped connection's user is always found. */
  ghost predicate NeverLost(s: State) {
    forall w {:trigger s.pcs[w]} :: 0 <= w < |s.pcs| ==> !(s.pcs[w].Dropping? && s.pcs[w].off.OffLeaveArray?)
  }

  ghost predicate SessionsOk(s: State) {
    OwnersLoggedIn(s) && UsersOwned(s) && OwnersUnique(s) && NeverLost(s)
  }

  // ------------------------------------------------ moves that keep every session

  /** The move changes no flag, and no slot's owner. */
  ghost predicate KeepsSessions(slots: seq<Slot>, pc: Pc, m: Move) {
    && !m.effect.SetFlag? && !m.effect.RemoveSlot?
    && (forall i: nat {:trigger SessionAt(pc, slots, i)} {:trigger SessionAt(m.next, SlotsAfter(slots, m.effect), i)} ::
          SessionAt(m.next, SlotsAfter(slots, m.effect), i) == SessionAt(pc, slots, i))
  }

  /** Setting the flag gives the session to this connection, which had none. */
  ghost predicate Opens(users: seq<User>, slots: seq<Slot>, pc: Pc, m: Move) {
    && pc.Handling? && 1 <= pc.task.slot < |slots| && slots[pc.task.slot].active.None?
    && m.next.Handling? && m.next.task == pc.task && (m.next.stage.Marked? || m.next.stage.NewMarked?)
    && m.effect.SetFlag? && m.effect.on && m.effect.uid < |users| && !users[m.effect.uid].loggedIn
    && NameOf(pc.task.req) == Some(users[m.effect.uid].name)
    && !pc.stage.Marked? && !pc.stage.NewMarked? && !pc.stage.NewLeaveArray? && !pc.stage.Saving?
  }

  /** Clearing the flag ends the session this connection owns. */
  ghost predicate Closes(users: seq<User>, slots: seq<Slot>, pc: Pc, m: Move, i: nat) {
    && m.effect.SetFlag? && !m.effect.on && m.effect.uid < |users| && 1 <= i < |slots|
    && SessionAt(pc, slots, i) == Some(users[m.effect.uid].name)
    && SessionAt(m.next, slots, i) == None
    && (forall j: nat {:trigger SessionAt(m.next, slots, j)} :: j != i ==>
      SessionAt(m.next, slots, j) == SessionAt(pc, slots, j))
  }

  /** Taking a slot out: it owns nothing any more, and the last slot takes its place. */
  ghost predicate Removes(slots: seq<Slot>, pc: Pc, m: Move) {
    && m.effect.RemoveSlot? && 1 <= m.effect.i < |slots|
    && pc.Dropping? && m.next.Dropping? && m.next.off.OffLeave? && slots[m.effect.i].active.None?
    && pc.off.Removing?
  }

  ghost predicate SessionMove(users: seq<User>, slots: seq<Slot>, pc: Pc, m: Move) {
    || KeepsSessions(slots, pc, m)
    || Opens(users, slots, pc, m)
    || (exists i: nat :: Closes(users, slots, pc, m, i))
    || Removes(slots, pc, m)
  }

  lemma EntranceSession(s: State, slots: seq<Slot>, task: Task, stage: Stage)
    requires AtEntrance(stage) && FactsOk(s.users, s.seats, slots, Handling(task, stage))
    ensures SessionMove(s.users, slots, Handling(task, stage), EntryMove(s, task, stage, slots[task.slot].active))
  {
    hide FindUser, Precheck;
    var pc, m := Handling(task, stage), EntryMove(s, task, stage, slots[task.slot].active);
    if m.effect.SetFlag? {
      assert Closes(s.users, slots, pc, m, task.slot);
    }
  }

  lemma MarkingSession(s: State, slots: seq<Slot>, task: Task, stage: Stage)
    requires !AtSeats(stage) && !AtEntrance(stage) && FactsOk(s.users, s.seats, slots, Handling(task, stage))
    ensures SessionMove(s.users, slots, Handling(task, stage), EntryMove(s, task, stage, slots[task.slot].active))
  {
    hide FindUser;
  }

  lemma EntrySession(s: State, slots: seq<Slot>, task: Task, stage: Stage)
    requires !AtSeats(stage) && FactsOk(s.users, s.seats, slots, Handling(task, stage))
    ensures SessionMove(s.users, slots, Handling(task, stage), EntryMove(s, task, stage, slots[task.slot].active))
  {
    hide SessionMove, EntryMove, StageOk;
    if AtEntrance(stage) {
      EntranceSession(s, slots, task, stage);
    } else {
      MarkingSession(s, slots, task, stage);
    }
  }

  lemma SeatSession(s: State, slots: seq<Slot>, task: Task, stage: Stage)
    requires AtSeats(stage)
    ensures KeepsSessions(slots, Handling(task, stage), SeatStageMove(s, task, stage))
  {
  }

  lemma OffSession(s: State, w: nat, slots: seq<Slot>, fd: nat, off: OffStage)
    requires FactsOk(s.users, s.seats, slots, Dropping(fd, off)) && !off.OffLeaveArray?
    ensures SessionMove(s.users, slots, Dropping(fd, off), OffMove(s, w, slots, fd, off))
  {
    hide FindUser, FindFd;
    if off.OffInUser? {
      assert Closes(s.users, slots, Dropping(fd, off), OffMove(s, w, slots, fd, off), off.i);
    }
  }

  lemma SimpleSession(s: State, w: nat, c: Choice)
    requires w < |s.pcs| == |s.sets| && !s.pcs[w].Handling? && !s.pcs[w].Dropping?
    ensures KeepsSessions(s.sets[w], s.pcs[w], Program(s, w, c))
  {
    hide FindFd;
  }

  lemma ProgramSession(s: State, w: nat, c: Choice)
    requires w < |s.pcs| == |s.sets| && FactsOk(s.users, s.seats, s.sets[w], s.pcs[w])
    requires !(s.pcs[w].Dropping? && s.pcs[w].off.OffLeaveArray?)
    ensures SessionMove(s.users, s.sets[w], s.pcs[w], Program(s, w, c))
  {
    hide StageOk, OffOk, EntryMove, SeatStageMove, OffMove, KeepsSessions, Opens, Closes, Removes;
    match s.pcs[w]
    case Handling(task, stage) =>
      if AtSeats(stage) {
        SeatSession(s, s.sets[w], task, stage);
      } else {
        EntrySession(s, s.sets[w], task, stage);
      }
    case Dropping(fd, off) => OffSession(s, w, s.sets[w], fd, off);
    case other => SimpleSession(s, w, c);
  }

  // ------------------------------------------------ each kind of move keeps exclusivity

  lemma FoundIs(users: seq<User>, u: nat)
    requires NamesDistinct(users) && u < |users|
    ensures FindUser(users, users[u].name) == Some(u)
  {
  }

  lemma LoggedInMore(users: seq<User>, name: Name, other: User)
    requires FindUser(users, other.name) == None && LoggedIn(users, name)
    ensures LoggedIn(users + [other], name)
  {
    var uid := FindUser(users, name).value;
    var more := users + [other];
    var found := FindUser(more, name);
    assert more[uid].name == name;
    assert found.Some? && found.value <= uid;
    assert more[found.value] == users[found.value];
  }

  ghost predicate SameSessions(s: State, t: State) {
    forall v: nat, i: nat {:trigger SessionOf(t, v, i)} {:trigger SessionOf(s, v, i)} ::
      SessionOf(t, v, i) == SessionOf(s, v, i)
  }

  ghost predicate Exclusive(s: State) {
    OwnersLoggedIn(s) && UsersOwned(s) && OwnersUnique(s)
  }

  lemma SameExclusive(s: State, t: State)
    requires Exclusive(s) && SameSessions(s, t)
    requires t.users == s.users
      || (exists u: User :: FindUser(s.users, u.name) == None && !u.loggedIn && t.users == s.users + [u])
    ensures Exclusive(t)
  {
    hide LoggedIn, SessionOf;
    forall w: nat, i: nat | SessionOf(t, w, i).Some? ensures LoggedIn(t.users, SessionOf(t, w, i).value) {
      assert SessionOf(s, w, i).Some?;
      if t.users != s.users {
        var u: User :| FindUser(s.users, u.name) == None && !u.loggedIn && t.users == s.users + [u];
        LoggedInMore(s.users, SessionOf(s, w, i).value, u);
      }
    }
    forall u | 0 <= u < |t.users| && t.users[u].loggedIn
      ensures exists w: nat, i: nat :: SessionOf(t, w, i) == Some(t.users[u].name)
    {
      assert u < |s.users| && s.users[u] == t.users[u];
      var w: nat, i: nat :| SessionOf(s, w, i) == Some(s.users[u].name);
      assert SessionOf(t, w, i) == Some(t.users[u].name);
    }
  }

  lemma LoggedInSet(users: seq<User>, uid: nat, on: bool, name: Name)
    requires NamesDistinct(users) && uid < |users|
    ensures LoggedIn(users[uid := users[uid].(loggedIn := on)], name) ==
      if name == users[uid].name then on else LoggedIn(users, name)
  {
    var after := users[uid := users[uid].(loggedIn := on)];
    SameNamesFound(users, after, name);
    FoundIs(users, uid);
  }

  lemma SameNamesFound(users: seq<User>, after: seq<User>, name: Name)
    requires |after| == |users| && forall u :: 0 <= u < |users| ==> after[u].name == users[u].name
    ensures FindUser(after, name) == FindUser(users, name)
  {
    var a, b := FindUser(users, name), FindUser(after, name);
    assert a.Some? ==> after[a.value].name == name;
    assert b.Some? ==> users[b.value].name == name;
  }

  /** Everything is as before but the session of slot `i` of worker `w`. */
  ghost predicate SameElsewhere(s: State, t: State, w: nat, i: nat) {
    forall v: nat, j: nat {:trigger SessionOf(t, v, j)} {:trigger SessionOf(s, v, j)} ::
      v != w || j != i ==> SessionOf(t, v, j) == SessionOf(s, v, j)
  }

  lemma OpenExclusive(s: State, t: State, w: nat, i: nat, uid: nat)
    requires Exclusive(s) && NamesDistinct(s.users) && SameElsewhere(s, t, w, i) && uid < |s.users|
    requires t.users == s.users[uid := s.users[uid].(loggedIn := true)] && !s.users[uid].loggedIn
    requires SessionOf(s, w, i) == None && SessionOf(t, w, i) == Some(s.users[uid].name)
    ensures Exclusive(t)
  {
    hide SessionOf;
    var name := s.users[uid].name;
    FoundIs(s.users, uid);
    forall v: nat, j: nat | SessionOf(t, v, j).Some?
      ensures LoggedIn(t.users, SessionOf(t, v, j).value)
      ensures v != w || j != i ==> SessionOf(t, v, j) != Some(name)
    {
      LoggedInSet(s.users, uid, true, SessionOf(t, v, j).value);
      assert v != w || j != i ==> SessionOf(s, v, j).Some?;
    }
    forall u | 0 <= u < |t.users| && t.users[u].loggedIn
      ensures exists v: nat, j: nat :: SessionOf(t, v, j) == Some(t.users[u].name)
    {
      if u != uid {
        var v: nat, j: nat :| SessionOf(s, v, j) == Some(s.users[u].name);
        assert SessionOf(t, v, j) == Some(t.users[u].name);
      } else {
        assert SessionOf(t, w, i) == Some(t.users[u].name);
      }
    }
  }

  lemma CloseExclusive(s: State, t: State, w: nat, i: nat, uid: nat)
    requires Exclusive(s) && NamesDistinct(s.users) && SameElsewhere(s, t, w, i) && uid < |s.users|
    requires t.users == s.users[uid := s.users[uid].(loggedIn := false)]
    requires SessionOf(s, w, i) == Some(s.users[uid].name) && SessionOf(t, w, i) == None
    ensures Exclusive(t)
  {
    hide SessionOf, LoggedIn;
    forall v: nat, j: nat | SessionOf(t, v, j).Some? ensures LoggedIn(t.users, SessionOf(t, v, j).value) {
      LoggedInSet(s.users, uid, false, SessionOf(t, v, j).value);
      assert SessionOf(s, v, j) == SessionOf(t, v, j);
    }
    forall u | 0 <= u < |t.users| && t.users[u].loggedIn
      ensures exists v: nat, j: nat :: SessionOf(t, v, j) == Some(t.users[u].name)
    {
      var v: nat, j: nat :| SessionOf(s, v, j) == Some(s.users[u].name);
      assert SessionOf(t, v, j) == Some(t.users[u].name);
    }
  }

  /** Slot `i` owned nothing; slot `last` has moved there. */
  ghost predicate Moved(s: State, t: State, w: nat, i: nat, last: nat) {
    && SessionOf(s, w, i) == None && i <= last && SessionOf(t, w, last) == None
    && (i != last ==> SessionOf(t, w, i) == SessionOf(s, w, last))
    && (forall v: nat, j: nat {:trigger SessionOf(t, v, j)} {:trigger SessionOf(s, v, j)} ::
          v != w || (j != i && j != last) ==> SessionOf(t, v, j) == SessionOf(s, v, j))
  }

  lemma MoveExclusive(s: State, t: State, w: nat, i: nat, last: nat)
    requires Exclusive(s) && Moved(s, t, w, i, last) && t.users == s.users
    ensures Exclusive(t)
  {
    hide SessionOf, LoggedIn;
    forall u | 0 <= u < |t.users| && t.users[u].loggedIn
      ensures exists v: nat, j: nat :: SessionOf(t, v, j) == Some(t.users[u].name)
    {
      var v: nat, j: nat :| SessionOf(s, v, j) == Some(s.users[u].name);
      assert SessionOf(t, v, if v == w && j == last then i else j) == Some(t.users[u].name);
    }
  }

  // ------------------------------------------------ steps

  /** The other workers' sessions do not change. */
  lemma SessionsElsewhere(s: State, t: State, w: nat, m: Move, v: nat, j: nat)
    requires |s.pcs| == |s.sets| && w < |s.pcs| && v != w
    requires t.pcs == s.pcs[w := m.next] && t.sets == s.sets[w := SlotsAfter(s.sets[w], m.effect)]
    ensures SessionOf(t, v, j) == SessionOf(s, v, j)
  {
  }

  lemma KeepStep(s: State, t: State, w: nat, m: Move)
    requires Exclusive(s) && |s.pcs| == |s.sets| && w < |s.pcs| && KeepsSessions(s.sets[w], s.pcs[w], m)
    requires EffectOk(s.users, s.seats, s.sets[w], s.pcs[w], m)
    requires t.pcs == s.pcs[w := m.next] && t.sets == s.sets[w := SlotsAfter(s.sets[w], m.effect)]
    requires t.users == UsersAfter(s.users, m.effect)
    ensures Exclusive(t)
  {
    hide Exclusive, SessionAt, SlotsAfter, Locks, FindUser;
    forall v: nat, j: nat ensures SessionOf(t, v, j) == SessionOf(s, v, j) {
      if v != w {
        SessionsElsewhere(s, t, w, m, v, j);
      }
    }
    SameExclusive(s, t);
  }

  lemma OpenStep(s: State, t: State, w: nat, m: Move)
    requires Exclusive(s) && NamesDistinct(s.users) && |s.pcs| == |s.sets| && w < |s.pcs|
    requires Opens(s.users, s.sets[w], s.pcs[w], m)
    requires t.pcs == s.pcs[w := m.next] && t.sets == s.sets[w := SlotsAfter(s.sets[w], m.effect)]
    requires t.users == UsersAfter(s.users, m.effect)
    ensures Exclusive(t)
  {
    hide Exclusive, NamesDistinct;
    var i := s.pcs[w].task.slot;
    forall v: nat, j: nat | v != w || j != i ensures SessionOf(t, v, j) == SessionOf(s, v, j) {
      if v != w {
        SessionsElsewhere(s, t, w, m, v, j);
      }
    }
    OpenExclusive(s, t, w, i, m.effect.uid);
  }

  lemma CloseStep(s: State, t: State, w: nat, m: Move, i: nat)
    requires Exclusive(s) && NamesDistinct(s.users) && |s.pcs| == |s.sets| && w < |s.pcs|
    requires Closes(s.users, s.sets[w], s.pcs[w], m, i)
    requires t.pcs == s.pcs[w := m.next] && t.sets == s.sets[w := SlotsAfter(s.sets[w], m.effect)]
    requires t.users == UsersAfter(s.users, m.effect)
    ensures Exclusive(t)
  {
    hide Exclusive, NamesDistinct, SessionAt;
    forall v: nat, j: nat | v != w || j != i ensures SessionOf(t, v, j) == SessionOf(s, v, j) {
      if v != w {
        SessionsElsewhere(s, t, w, m, v, j);
      }
    }
    CloseExclusive(s, t, w, i, m.effect.uid);
  }

  lemma RemoveStep(s: State, t: State, w: nat, m: Move)
    requires Exclusive(s) && |s.pcs| == |s.sets| && w < |s.pcs| && Removes(s.sets[w], s.pcs[w], m)
    requires t.pcs == s.pcs[w := m.next] && t.sets == s.sets[w := SlotsAfter(s.sets[w], m.effect)]
    requires t.users == UsersAfter(s.users, m.effect)
    ensures Exclusive(t)
  {
    hide Exclusive;
    var i, last := m.effect.i, |s.sets[w]| - 1;
    WithoutKeepsOthers(s.sets[w], i);
    hide Without;
    forall v: nat, j: nat | v != w || (j != i && j != last) ensures SessionOf(t, v, j) == SessionOf(s, v, j) {
      if v != w {
        SessionsElsewhere(s, t, w, m, v, j);
      }
    }
    MoveExclusive(s, t, w, i, last);
  }

  /** The user of a connection being dropped is found: the session is owned. */
  lemma DroppedUserFound(s: State, w: nat, c: Choice)
    requires CoreOk(s) && SessionsOk(s) && w < |s.pcs|
    ensures |s.pcs| == |s.sets|
    ensures var next := Program(s, w, c).next; !(next.Dropping? && next.off.OffLeaveArray?)
  {
    hide LocksOk, FindUser;
    SetsLengths(s);
    assert WorkerOk(s, w);
    if s.pcs[w].Dropping? && s.pcs[w].off.OffInArray? {
      assert SessionOf(s, w, s.pcs[w].off.i).Some?;
    }
  }

  lemma ExclusiveStep(s: State, t: State, w: nat, m: Move)
    requires Exclusive(s) && NamesDistinct(s.users) && |s.pcs| == |s.sets| && w < |s.pcs|
    requires SessionMove(s.users, s.sets[w], s.pcs[w], m) && EffectOk(s.users, s.seats, s.sets[w], s.pcs[w], m)
    requires t.pcs == s.pcs[w := m.next] && t.sets == s.sets[w := SlotsAfter(s.sets[w], m.effect)]
    requires t.users == UsersAfter(s.users, m.effect)
    ensures Exclusive(t)
  {
    hide Exclusive, NamesDistinct, KeepsSessions, Opens, Closes, Removes, EffectOk;
    if KeepsSessions(s.sets[w], s.pcs[w], m) {
      KeepStep(s, t, w, m);
    } else if Opens(s.users, s.sets[w], s.pcs[w], m) {
      OpenStep(s, t, w, m);
    } else if Removes(s.sets[w], s.pcs[w], m) {
      RemoveStep(s, t, w, m);
    } else {
      var i: nat :| Closes(s.users, s.sets[w], s.pcs[w], m, i);
      CloseStep(s, t, w, m, i);
    }
  }

  lemma SessionsWorkerStep(s: State, w: nat, c: Choice)
    requires CoreOk(s) && SessionsOk(s) && w < |s.pcs|
    ensures SessionsOk(WorkerStep(s, w, c))
  {
    WorkerMoveOk(s, w, c);
    assert WorkerOk(s, w);
    hide Program, Apply, FactsOk, LocksOk, EffectOk, OwnersLoggedIn, UsersOwned, OwnersUnique, SessionMove;
    var m := Program(s, w, c);
    if m.sync.Acquire? && m.sync.lock in s.owner {
      return;
    }
    ApplyTables(s, w, m);
    ApplyShape(s, w, m);
    ProgramSession(s, w, c);
    ExclusiveStep(s, Apply(s, w, m), w, m);
    DroppedUserFound(s, w, c);
  }

  /** A new connection owns nothing. */
  lemma SessionsMainStep(s: State, fd: nat)
    requires CoreOk(s) && SessionsOk(s)
    ensures SessionsOk(MainStep(s, fd))
  {
    hide LocksOk, NamesDistinct, SeatIds, SetsOk, OwnersLoggedIn, UsersOwned, OwnersUnique, WorkerOk;
    var t := MainStep(s, fd);
    SetsLengths(s);
    forall v: nat, j: nat ensures SessionOf(t, v, j) == SessionOf(s, v, j) {
      MainSessionAt(s, fd, v, j);
    }
    assert t.users == s.users && t.pcs == s.pcs by {
      MainTables(s, fd);
    }
    SameExclusive(s, t);
  }

  lemma MainSessionAt(s: State, fd: nat, v: nat, j: nat)
    requires CoreOk(s)
    ensures SessionOf(MainStep(s, fd), v, j) == SessionOf(s, v, j)
  {
    hide LocksOk, NamesDistinct, SeatIds, SetsOk, IsWake, Better;
    SetsLengths(s);
    if v < |s.pcs| {
      assert WorkerOk(s, v);
    }
  }

  lemma SessionsInit(s: State)
    requires Init(s)
    ensures SessionsOk(s)
  {
  }

  // ------------------------------------------------ what it means

  /** A user is logged in iff some connection owns the session, and then only one does. */
  lemma SessionExclusive(s: State, name: Name)
    requires CoreOk(s) && SessionsOk(s)
    ensures LoggedIn(s.users, name) <==> exists w: nat, i: nat :: SessionOf(s, w, i) == Some(name)
    ensures forall v: nat, i: nat, w: nat, j: nat ::
      SessionOf(s, v, i) == Some(name) && SessionOf(s, w, j) == Some(name) ==> v == w && i == j
  {
    hide SessionOf, LocksOk;
    if LoggedIn(s.users, name) {
      var uid := FindUser(s.users, name).value;
      assert s.users[uid].loggedIn;
    }
    if w: nat, i: nat :| SessionOf(s, w, i) == Some(name) {
      assert LoggedIn(s.users, SessionOf(s, w, i).value);
    }
  }

  /** The unconditional clear on disconnect ends this connection's own session and no other. */
  lemma ClearIsRight(s: State, w: nat)
    requires CoreOk(s) && SessionsOk(s) && w < |s.pcs| && s.pcs[w].Dropping? && s.pcs[w].off.OffInUser?
    ensures s.pcs[w].off.uid < |s.users| && s.users[s.pcs[w].off.uid].loggedIn
    ensures forall v: nat, j: nat :: SessionOf(s, v, j) == Some(s.users[s.pcs[w].off.uid].name) <==>
      v == w && j == s.pcs[w].off.i
  {
    hide LocksOk, StageOk, SeatIds, SetsOk, MainOk;
    SetsLengths(s);
    assert WorkerOk(s, w);
    var i, uid := s.pcs[w].off.i, s.pcs[w].off.uid;
    FoundIs(s.users, uid);
    assert SessionOf(s, w, i) == Some(s.users[uid].name);
  }

  /** Inside a session the flag is always set: the check after taking the user lock never fails. */
  lemma SessionCheckPasses(s: State, w: nat)
    requires CoreOk(s) && SessionsOk(s) && w < |s.pcs| && s.pcs[w].Handling? && s.pcs[w].stage.InUser?
    requires WithinSession(s.pcs[w].task.req)
    ensures s.pcs[w].stage.uid < |s.users| && s.users[s.pcs[w].stage.uid].loggedIn
  {
    hide LocksOk, SeatIds, SetsOk, MainOk;
    SetsLengths(s);
    assert WorkerOk(s, w);
    var uid := s.pcs[w].stage.uid;
    FoundIs(s.users, uid);
    assert SessionOf(s, w, s.pcs[w].task.slot) == Some(s.users[uid].name);
  }
}
