/** The server's tables (PA3/server/helper.c, PA3/server/pa3_server.c:48-55,
    PA3/server/pa3_server.c:122-173): users by name, and the poll set of a worker. */
module ServerTables {
  import opened Options

  type Name = string

  const NUM_USERS := 10000
  const NUM_SEATS := 100
  const CLIENTS_PER_THREAD := 1000

  type Password = string

  /** A registered user. The source stores a salted hash that only `password` passes. */
  datatype User = User(name: Name, password: Password, loggedIn: bool)

  // ------------------------------------------------ users

  /** The first user of that name. */
  function FindUser(users: seq<User>, name: Name): (uid: Option<nat>)
    ensures uid.Some? ==> uid.value < |users| && users[uid.value].name == name
    ensures uid.Some? ==> forall u :: 0 <= u < uid.value ==> users[u].name != name
    ensures uid.None? ==> forall u :: 0 <= u < |users| ==> users[u].name != name
  {
    FindUserFrom(users, name, 0)
  }

  function FindUserFrom(users: seq<User>, name: Name, from: nat): (uid: Option<nat>)
    requires from <= |users|
    ensures uid.Some? ==> from <= uid.value < |users| && users[uid.value].name == name
    ensures uid.Some? ==> forall u :: from <= u < uid.value ==> users[u].name != name
    ensures uid.None? ==> forall u :: from <= u < |users| ==> users[u].name != name
    decreases |users| - from
  {
    if from == |users| then None
    else if users[from].name == name then Some(from)
    else FindUserFrom(users, name, from + 1)
  }

  ghost predicate NamesDistinct(users: seq<User>) {
    forall u, v :: 0 <= u < v < |users| ==> users[u].name != users[v].name
  }

  /** The table behind `Users`: a fixed array filled from the front. */
  class UserTable {
    const array_: array<User>
    var size: nat

    ghost predicate Valid() reads this, array_ {
      array_.Length == NUM_USERS && size <= array_.Length
    }

    ghost function Contents(): seq<User>
      reads this, array_
      requires Valid()
    {
      array_[..size]
    }

    constructor ()
      ensures Valid() && Contents() == [] && fresh(array_)
    {
      array_ := new User[NUM_USERS](_ => User("", "", false));
      size := 0;
    }

    method Find(name: Name) returns (uid: Option<nat>)
      requires Valid()
      ensures uid == FindUser(Contents(), name)
    {
      var i := 0;
      while i < size
        invariant i <= size && FindUserFrom(Contents(), name, i) == FindUser(Contents(), name)
      {
        if array_[i].name == name {
          return Some(i);
        }
        i := i + 1;
      }
      return None;
    }

    /** Append a user, logged out; a full table ends the program. */
    method Add(name: Name, password: Password) returns (uid: Option<nat>)
      requires Valid()
      modifies this, array_
      ensures Valid()
      ensures old(size) >= NUM_USERS ==> uid == None && Contents() == old(Contents())
      ensures old(size) < NUM_USERS ==>
        uid == Some(old(size)) && Contents() == old(Contents()) + [User(name, password, false)]
    {
      if size >= array_.Length {
        return None;
      }
      ghost var was := Contents();
      uid := Some(size);
      array_[size] := User(name, password, false);
      size := size + 1;
      assert Contents() == was + [User(name, password, false)];
    }
  }

  /** Adding only unknown names keeps names distinct, so the first match is the only one. */
  lemma AddKeepsDistinct(users: seq<User>, name: Name, password: Password)
    requires NamesDistinct(users) && FindUser(users, name) == None
    ensures NamesDistinct(users + [User(name, password, false)])
    ensures FindUser(users + [User(name, password, false)], name) == Some(|users|)
  {
    var more := users + [User(name, password, false)];
    assert more[|users|].name == name;
    assert forall u :: 0 <= u < |users| ==> more[u].name != name;
  }

  // ------------------------------------------------ poll sets

  /** A polled descriptor and the user it is logged in as. */
  datatype Slot = Slot(fd: nat, active: Option<Name>)

  function FindFd(slots: seq<Slot>, fd: nat, from: nat): (i: Option<nat>)
    requires from <= |slots|
    ensures i.Some? ==> from <= i.value < |slots| && slots[i.value].fd == fd
    ensures i.Some? ==> forall j :: from <= j < i.value ==> slots[j].fd != fd
    ensures i.None? ==> forall j :: from <= j < |slots| ==> slots[j].fd != fd
    decreases |slots| - from
  {
    if from == |slots| then None
    else if slots[from].fd == fd then Some(from)
    else FindFd(slots, fd, from + 1)
  }

  /** Removal by moving the last slot into the gap. */
  function Without(slots: seq<Slot>, i: nat): (rest: seq<Slot>)
    requires i < |slots|
    ensures |rest| == |slots| - 1
  {
    var last := |slots| - 1;
    if i == last then slots[..last] else slots[..last][i := slots[last]]
  }

  /** Swapping with the last drops exactly one pair. */
  lemma WithoutDropsOne(slots: seq<Slot>, i: nat)
    requires i < |slots|
    ensures multiset(Without(slots, i)) == multiset(slots) - multiset{slots[i]}
  {
    var last := |slots| - 1;
    MultisetOfLast(slots);
    if i != last {
      var front := slots[..last];
      var m := multiset(front);
      assert front[i] == slots[i];
      MultisetOfUpdate(front, i, slots[last]);
      Swap(m, slots[i], slots[last]);
    }
  }

  /** Every other slot stays where it is, the last one excepted; the wake slot stays in front. */
  lemma WithoutKeepsOthers(slots: seq<Slot>, i: nat)
    requires 0 < i < |slots|
    ensures Without(slots, i)[0] == slots[0]
    ensures forall j {:trigger Without(slots, i)[j]} :: 0 <= j < |slots| - 1 ==>
      Without(slots, i)[j] == if j == i then slots[|slots| - 1] else slots[j]
  {
  }

  lemma Swap(m: multiset<Slot>, gone: Slot, last: Slot)
    requires gone in m
    ensures m - multiset{gone} + multiset{last} == m + multiset{last} - multiset{gone}
  {
  }

  lemma MultisetOfLast(s: seq<Slot>)
    requires s != []
    ensures multiset(s) == multiset(s[..|s| - 1]) + multiset{s[|s| - 1]}
    ensures multiset(s[..|s| - 1]) == multiset(s) - multiset{s[|s| - 1]}
  {
    assert s == s[..|s| - 1] + [s[|s| - 1]];
  }

  lemma MultisetOfUpdate(s: seq<Slot>, i: nat, x: Slot)
    requires i < |s|
    ensures multiset(s[i := x]) == multiset(s) - multiset{s[i]} + multiset{x}
  {
  }

  class PollSet {
    const fds: array<nat>
    const activeUsers: array<Option<Name>>
    var size: nat

    ghost predicate Valid() reads this {
      && fds.Length == activeUsers.Length == CLIENTS_PER_THREAD
      && 1 <= size <= CLIENTS_PER_THREAD && fds as object != activeUsers
    }

    ghost function Slots(): (slots: seq<Slot>)
      reads this, fds, activeUsers
      requires Valid()
      ensures |slots| == size
    {
      seq(size, i requires 0 <= i < size reads this, fds, activeUsers requires Valid() => Slot(fds[i], activeUsers[i]))
    }

    /** A new set polls only the wake pipe. */
    constructor (wakeFd: nat)
      ensures Valid() && Slots() == [Slot(wakeFd, None)] && fresh(fds) && fresh(activeUsers)
    {
      fds, activeUsers, size := new nat[CLIENTS_PER_THREAD](_ => 0), new Option<Name>[CLIENTS_PER_THREAD](_ => None), 1;
      new;
      fds[0] := wakeFd;
    }

    method Find(fd: nat) returns (i: Option<nat>)
      requires Valid()
      ensures i == FindFd(Slots(), fd, 0)
    {
      var k := 0;
      while k < size
        invariant k <= size && FindFd(Slots(), fd, k) == FindFd(Slots(), fd, 0)
      {
        if fds[k] == fd {
          return Some(k);
        }
        k := k + 1;
      }
      return None;
    }

    /** Append a connection; a full set refuses it. */
    method Add(fd: nat) returns (added: bool)
      requires Valid()
      modifies this`size, fds, activeUsers
      ensures Valid() && added == (old(size) < CLIENTS_PER_THREAD)
      ensures Slots() == old(Slots()) + if added then [Slot(fd, None)] else []
    {
      if size >= CLIENTS_PER_THREAD {
        assert Slots() + [] == Slots();
        return false;
      }
      fds[size] := fd;
      activeUsers[size] := None;
      size := size + 1;
      return true;
    }

    /** Drop slot `i`: the last slot takes its place. */
    method RemoveAt(i: nat)
      requires Valid() && 0 < i < size
      modifies this`size, fds, activeUsers
      ensures Valid() && Slots() == Without(old(Slots()), i)
    {
      var last := size - 1;
      if i != last {
        fds[i] := fds[last];
        activeUsers[i] := activeUsers[last];
      }
      activeUsers[last] := None;
      size := size - 1;
    }
  }
}
