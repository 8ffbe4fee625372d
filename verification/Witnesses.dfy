/** Runs in which what Chat.dfy, Views.dfy and System.dfy say may go wrong does go wrong. */
module Witnesses {
  import opened Options
  import opened Bytes
  import opened Chat
  import opened Views

  /** One more request of a client that waits for its answers. */
  lemma {:induction false} Grow(ops: seq<Op>, op: Op)
    requires Disciplined(ops) && Legal(After(ops), op) && Apply(After(ops), op).Done? && Polite(ops, op)
    ensures Disciplined(ops + [op]) && After(ops + [op]) == Apply(After(ops), op).world
    ensures forall v :: Greeted(ops + [op], v) <==> Greeted(ops, v) || (op.ServerEnter? && op.uid == v)
    ensures forall v :: LastEntry(ops + [op], v) ==
              if op.RoomEnter? && op.uid == v then |ops| else LastEntry(ops, v)
  {
    Extend(ops, op);
    assert (ops + [op])[..|ops|] == ops;
    forall v
      ensures Greeted(ops + [op], v) <==> Greeted(ops, v) || (op.ServerEnter? && op.uid == v)
    {
      GreetedGrows(ops, op, v);
    }
  }

  /** Users 1 and 2, logged in, and two empty rooms. */
  function LobbyWorld(n: Str, a: Address, b: Address): World {
    World(map[1 := User([], None, a), 2 := User([], None, b)],
          map[1 := Room(n, {}), 2 := Room(n, {})], {a, b}, 3, 3)
  }

  /** The same with both in room 1. */
  function RoomWorld(n: Str, a: Address, b: Address): World {
    World(map[1 := User([], Some(1), a), 2 := User([], Some(1), b)],
          map[1 := Room(n, {1, 2}), 2 := Room(n, {})], {a, b}, 3, 3)
  }

  /** `ops` is a run of patient clients to the world `w` in which 1 and 2 have logged in, as far
      as `greeted` says, and entered at `first` and `second`. */
  ghost predicate Reaches(ops: seq<Op>, w: World, greeted: set<Uid>, first: int, second: int) {
    && Disciplined(ops) && After(ops) == w
    && (forall u :: u in greeted ==> Greeted(ops, u))
    && LastEntry(ops, 1) == first && LastEntry(ops, 2) == second
  }

  lemma {:induction false} Plain(ops: seq<Op>, w: World, greeted: set<Uid>, op: Op, w': World)
    requires Reaches(ops, w, greeted, -1, -1)
    requires op.Connect? || op.RoomCreate?
    requires Legal(w, op) && Apply(w, op).Done? && Apply(w, op).world == w'
    ensures Reaches(ops + [op], w', greeted, -1, -1)
  {
    Grow(ops, op);
  }

  lemma {:induction false} LogIn(ops: seq<Op>, w: World, greeted: set<Uid>, op: Op)
    requires Reaches(ops, w, greeted, -1, -1) && op.ServerEnter? && Legal(w, op)
    requires op.uid in w.users && w.users[op.uid] == User(op.nickname, None, w.users[op.uid].at)
    ensures Reaches(ops + [op], w, greeted + {op.uid}, -1, -1)
  {
    Grow(ops, op);
    assert w.users[op.uid := w.users[op.uid].(nickname := op.nickname)] == w.users;
  }

  function Users(a: Address, b: Address): map<Uid, User> {
    map[1 := User([], None, a), 2 := User([], None, b)]
  }

  lemma {:induction false} TwoConnect(a: Address, b: Address) returns (ops: seq<Op>)
    requires a != b
    ensures Reaches(ops, World(Users(a, b), map[], {a, b}, 3, 1), {}, -1, -1)
  {
    var w := World(map[1 := User([], None, a)], map[], {a}, 2, 1);
    ops := [];
    Plain(ops, Initial(), {}, Connect(a), w);
    ops := ops + [Connect(a)];
    Plain(ops, w, {}, Connect(b), World(Users(a, b), map[], {a, b}, 3, 1));
    ops := ops + [Connect(b)];
  }

  lemma {:induction false} TwoRooms(n: Str, a: Address, b: Address) returns (ops: seq<Op>)
    requires a != b
    ensures Reaches(ops, LobbyWorld(n, a, b), {}, -1, -1)
  {
    ops := TwoConnect(a, b);
    RoomsAreMade(n, a, b);
    var op, w := RoomCreate(1, n), World(Users(a, b), map[1 := Room(n, {})], {a, b}, 3, 2);
    Plain(ops, World(Users(a, b), map[], {a, b}, 3, 1), {}, op, w);
    ops := ops + [op];
    Plain(ops, w, {}, op, LobbyWorld(n, a, b));
    ops := ops + [op];
  }

  lemma {:induction false} RoomsAreMade(n: Str, a: Address, b: Address)
    ensures var w := World(Users(a, b), map[], {a, b}, 3, 1);
            var w' := World(Users(a, b), map[1 := Room(n, {})], {a, b}, 3, 2);
            var op := RoomCreate(1, n);
            && Legal(w, op) && Apply(w, op).Done? && Apply(w, op).world == w'
            && Legal(w', op) && Apply(w', op).Done? && Apply(w', op).world == LobbyWorld(n, a, b)
  {
    assert map[1 := Room(n, {})][2 := Room(n, {})] == LobbyWorld(n, a, b).rooms;
  }

  lemma {:induction false} TwoLogIn(n: Str, a: Address, b: Address) returns (ops: seq<Op>)
    requires a != b
    ensures Reaches(ops, LobbyWorld(n, a, b), {1, 2}, -1, -1)
  {
    ops := TwoRooms(n, a, b);
    LogIn(ops, LobbyWorld(n, a, b), {}, ServerEnter(1, []));
    ops := ops + [ServerEnter(1, [])];
    LogIn(ops, LobbyWorld(n, a, b), {1}, ServerEnter(2, []));
    ops := ops + [ServerEnter(2, [])];
  }

  /** User 1 in room 1. */
  function HostWorld(n: Str, a: Address, b: Address): World {
    World(map[1 := User([], Some(1), a), 2 := User([], None, b)],
          map[1 := Room(n, {1}), 2 := Room(n, {})], {a, b}, 3, 3)
  }

  lemma {:induction false} HostEnters(n: Str, a: Address, b: Address)
    ensures var op := RoomEnter(1, 1, [1]);
            Legal(LobbyWorld(n, a, b), op) && Apply(LobbyWorld(n, a, b), op).Done?
            && Apply(LobbyWorld(n, a, b), op).world == HostWorld(n, a, b)
  {
    var order: seq<Uid> := [1];
    var none: set<Uid> := {};
    assert Enumerates(order, none + {1});
    var members: set<Uid> := {1};
    assert none + {1} == members;
    var w, w' := LobbyWorld(n, a, b), Apply(LobbyWorld(n, a, b), RoomEnter(1, 1, order)).world;
    assert w'.rooms == HostWorld(n, a, b).rooms;
    assert w'.users == HostWorld(n, a, b).users;
  }

  lemma {:induction false} GuestEnters(n: Str, a: Address, b: Address)
    ensures var op := RoomEnter(2, 1, [1, 2]);
            Legal(HostWorld(n, a, b), op) && Apply(HostWorld(n, a, b), op).Done?
            && Apply(HostWorld(n, a, b), op).world == RoomWorld(n, a, b)
  {
    var order: seq<Uid> := [1, 2];
    assert Enumerates(order, {1} + {2});
    var members: set<Uid> := {1, 2};
    assert {1} + {2} == members;
    var w, w' := HostWorld(n, a, b), Apply(HostWorld(n, a, b), RoomEnter(2, 1, order)).world;
    assert w'.rooms == RoomWorld(n, a, b).rooms;
    assert w'.users == RoomWorld(n, a, b).users;
  }

  /** User 2 enters room 1 after user 1 did. */
  lemma {:induction false} TwoInRoom(n: Str, a: Address, b: Address) returns (ops: seq<Op>)
    requires a != b
    ensures Disciplined(ops) && After(ops) == RoomWorld(n, a, b)
    ensures 0 <= LastEntry(ops, 1) < LastEntry(ops, 2)
  {
    ops := TwoLogIn(n, a, b);
    var first, second := RoomEnter(1, 1, [1]), RoomEnter(2, 1, [1, 2]);
    HostEnters(n, a, b);
    Grow(ops, first);
    ops := ops + [first];
    GuestEnters(n, a, b);
    Grow(ops, second);
    ops := ops + [second];
  }

  /** Membership agreement does fail: a user enters a second room. */
  lemma {:induction false} AgreementFails(n: Str) returns (ops: seq<Op>)
    ensures Run(ops) && !NoCrossEnter(ops) && !Agreement(After(ops))
  {
    var before := TwoInRoom(n, 7, 8);
    var op := RoomEnter(1, 2, [1]);
    Extend(before, op);
    DisciplinedAgrees(before);
    CrossEnterBreaks(After(before), op);
    ops := before + [op];
    assert ops[..|before|] == before;
  }

  /** From room 1 either user may enter room 2. */
  lemma {:induction false} SecondEntryLegal(n: Str, u: Uid)
    requires u == 1 || u == 2
    ensures var w, op := RoomWorld(n, 7, 8), RoomEnter(u, 2, [u]);
            && Legal(w, op) && Apply(w, op).Done? && CrossEnter(w, op)
            && InRoomOf(w, u) && MembersAround(w, u) == {1, 2}
  {
    var none: set<Uid> := {};
    assert Enumerates([u], none + {u});
  }

  lemma {:induction false} LatestOfTwo(ops: seq<Op>, u: Uid)
    requires 0 <= LastEntry(ops, 1) < LastEntry(ops, 2) && (u == 1 || u == 2)
    ensures LatestIn(ops, u, {1, 2}) <==> u == 2
  {
    var members: set<Uid> := {1, 2};
    assert 2 in members;
  }

  /** A user that enters a second room is shown the right people (user 2, who came last) or
      the wrong ones (user 1). */
  lemma {:induction false} SecondEntryViews(n: Str) returns (ops: seq<Op>, right: Op, wrong: Op)
    ensures Disciplined(ops) && right.RoomEnter? && wrong.RoomEnter?
    ensures Run(ops + [right]) && right.uid in After(ops + [right]).users
    ensures View(right.uid, ToSession(Log(ops + [right]), right.uid)) == Expected(ops + [right], right.uid)
    ensures Run(ops + [wrong]) && wrong.uid in After(ops + [wrong]).users
    ensures View(wrong.uid, ToSession(Log(ops + [wrong]), wrong.uid)) != Expected(ops + [wrong], wrong.uid)
  {
    ops := TwoInRoom(n, 7, 8);
    right := SecondEntryView(n, ops, 2);
    wrong := SecondEntryView(n, ops, 1);
  }

  lemma {:induction false} SecondEntryView(n: Str, ops: seq<Op>, u: Uid) returns (op: Op)
    requires Disciplined(ops) && After(ops) == RoomWorld(n, 7, 8)
    requires 0 <= LastEntry(ops, 1) < LastEntry(ops, 2) && (u == 1 || u == 2)
    ensures op == RoomEnter(u, 2, [u]) && Run(ops + [op]) && u in After(ops + [op]).users
    ensures View(u, ToSession(Log(ops + [op]), u)) == Expected(ops + [op], u) <==> u == 2
  {
    op := RoomEnter(u, 2, [u]);
    SecondEntryLegal(n, u);
    EnterFromRoomViewExactly(ops, op);
    LatestOfTwo(ops, u);
  }

  /** So does a mate's view of a user that enters a second room: user 1 keeps user 2 on its
      screen, user 2 never had user 1 there. */
  lemma {:induction false} SecondEntryMates(n: Str) returns (ops: seq<Op>, right: Op, wrong: Op)
    ensures Disciplined(ops) && Legal(After(ops), right) && Legal(After(ops), wrong)
    ensures right == RoomEnter(1, 2, [1]) && wrong == RoomEnter(2, 2, [2])
    ensures Run(ops + [right]) && Run(ops + [wrong])
    ensures View(2, ToSession(Log(ops + [right]), 2)) ==
            InRoom(Companions(ops + [right], 2, Present(After(ops + [right]), 1)))
    ensures View(1, ToSession(Log(ops + [wrong]), 1)) !=
            InRoom(Companions(ops + [wrong], 1, Present(After(ops + [wrong]), 1)))
  {
    ops := TwoInRoom(n, 7, 8);
    right, wrong := RoomEnter(1, 2, [1]), RoomEnter(2, 2, [2]);
    SecondEntryLegal(n, 1);
    SecondEntryLegal(n, 2);
    CrossEntryBreaksMatesExactly(ops, right, 2);
    CrossEntryBreaksMatesExactly(ops, wrong, 1);
  }

  /** Logging in again from inside a room does leave a client in the wrong place. */
  lemma {:induction false} GreetingFails(n: Str) returns (ops: seq<Op>, op: Op)
    ensures Disciplined(ops) && op.ServerEnter? && Run(ops + [op]) && op.uid in After(ops + [op]).users
    ensures View(op.uid, ToSession(Log(ops + [op]), op.uid)) != Expected(ops + [op], op.uid)
  {
    ops := TwoInRoom(n, 7, 8);
    op := ServerEnter(1, []);
    GreetingFromRoomBreaksView(ops, op);
  }

  /** A user deleted from inside a room does stay in the lobby set, and the list to the lobby
      meets it. Another user made at its address hides it again. */
  lemma {:induction false} LobbyKeepsDeletedUser(n: Str) returns (ops: seq<Op>, again: seq<Op>)
    ensures Run(ops) && NoCrossEnter(ops) && 1 !in After(ops).users
    ensures 7 in After(ops).lobby && ListToAll(After(ops), []).Fault?
    ensures again == ops + [Connect(7)] && Run(again) && !ListToAll(After(again), []).Fault?
  {
    var before := TwoInRoom(n, 7, 8);
    DisciplinedAgrees(before);
    ops := DeleteHost(n, before);
    again := ReuseAddress(ops);
  }

  lemma {:induction false} DeleteHost(n: Str, before: seq<Op>) returns (ops: seq<Op>)
    requires Run(before) && NoCrossEnter(before) && After(before) == RoomWorld(n, 7, 8)
    ensures Run(ops) && NoCrossEnter(ops)
    ensures After(ops).users == map[2 := User([], Some(1), 8)] && After(ops).lobby == {7, 8}
    ensures After(ops).nextUid == 3 && ListToAll(After(ops), []).Fault?
  {
    var op := ServerExit(1, [1, 2]);
    HostLeaves(n);
    GrowPlainly(before, op);
    ops := before + [op];
    assert 7 in After(ops).lobby && 7 !in Occupied(After(ops));
  }

  lemma {:induction false} HostLeaves(n: Str)
    ensures var w, op := RoomWorld(n, 7, 8), ServerExit(1, [1, 2]);
            && Legal(w, op) && Apply(w, op).Done?
            && Apply(w, op).world.users == map[2 := User([], Some(1), 8)]
            && Apply(w, op).world.lobby == {7, 8} && Apply(w, op).world.nextUid == 3
  {
    var w, order: seq<Uid> := RoomWorld(n, 7, 8), [1, 2];
    assert Enumerates(order, MembersAround(w, 1));
    assert Apply(w, ServerExit(1, order)).world.users == map[2 := User([], Some(1), 8)];
  }

  lemma {:induction false} ReuseAddress(ops: seq<Op>) returns (again: seq<Op>)
    requires Run(ops)
    requires After(ops).users == map[2 := User([], Some(1), 8)] && After(ops).lobby == {7, 8}
    requires After(ops).nextUid == 3
    ensures again == ops + [Connect(7)] && Run(again) && !ListToAll(After(again), []).Fault?
  {
    again := ops + [Connect(7)];
    assert 7 !in Occupied(After(ops));
    Extend(ops, Connect(7));
    var w := After(again);
    assert w.users[2].at == 8 && w.users[3].at == 7;
    assert 8 in Occupied(w) && 7 in Occupied(w);
  }

  /** A removed user's own room list request, still in the job queue, does put a package for
      its deleted session into the send queue. */
  lemma {:induction false} RemovedHearsItsList() returns (ops: seq<Op>)
    ensures ops == [Connect(7), Disconnect(1, []), RoomList(1)]
    ensures Run(ops) && NoCrossEnter(ops) && Run(ops[..2]) && 1 !in After(ops[..2]).users
    ensures |ToSession(Log(ops), 1)| == |ToSession(Log(ops[..2]), 1)| + 1
  {
    var two := DisconnectOne();
    ListForGone(two);
    ops := two + [RoomList(1)];
    assert ops[..2] == two;
  }

  lemma {:induction false} ListForGone(ops: seq<Op>)
    requires Run(ops) && NoCrossEnter(ops) && After(ops).nextUid == 2
    ensures Run(ops + [RoomList(1)]) && NoCrossEnter(ops + [RoomList(1)])
    ensures |ToSession(Log(ops + [RoomList(1)]), 1)| == |ToSession(Log(ops), 1)| + 1
  {
    var list := To(1, RoomInfo(After(ops).rooms));
    GrowPlainly(ops, RoomList(1));
    OneToSession(1, RoomInfo(After(ops).rooms), 1);
    ToSessionConcat(Log(ops), [list], 1);
  }

  /** One more request that is not a `CrossEnter`. */
  lemma {:induction false} GrowPlainly(ops: seq<Op>, op: Op)
    requires Run(ops) && NoCrossEnter(ops) && Legal(After(ops), op) && Apply(After(ops), op).Done?
    requires !CrossEnter(After(ops), op)
    ensures Run(ops + [op]) && NoCrossEnter(ops + [op])
    ensures After(ops + [op]) == Apply(After(ops), op).world
    ensures Log(ops + [op]) == Log(ops) + Apply(After(ops), op).out
  {
    assert (ops + [op])[..|ops|] == ops;
  }

  lemma {:induction false} ConnectOne() returns (ops: seq<Op>)
    ensures ops == [Connect(7)] && Run(ops) && NoCrossEnter(ops)
    ensures After(ops) == World(map[1 := User([], None, 7)], map[], {7}, 2, 1)
  {
    ops := [];
    GrowPlainly(ops, Connect(7));
    ops := ops + [Connect(7)];
  }

  lemma {:induction false} DisconnectOne() returns (ops: seq<Op>)
    ensures ops == [Connect(7), Disconnect(1, [])]
    ensures Run(ops) && NoCrossEnter(ops) && 1 !in After(ops).users && After(ops).nextUid == 2
  {
    var one := ConnectOne();
    DisconnectFirst(After(one));
    GrowPlainly(one, Disconnect(1, []));
    ops := one + [Disconnect(1, [])];
  }

  lemma {:induction false} DisconnectFirst(w: World)
    requires w == World(map[1 := User([], None, 7)], map[], {7}, 2, 1)
    ensures Legal(w, Disconnect(1, [])) && Apply(w, Disconnect(1, [])).Done?
    ensures 1 !in Apply(w, Disconnect(1, [])).world.users && Apply(w, Disconnect(1, [])).world.nextUid == 2
  {
  }

  /** Requests do fault: the sender is gone, the room is unknown, or there is no room to leave. */
  lemma {:induction false} RequestsFault(n: Str) returns (ops: seq<Op>)
    ensures Disciplined(ops)
    ensures Legal(After(ops), RoomEnter(1, 9, [])) && Apply(After(ops), RoomEnter(1, 9, [])).Fault?
    ensures Legal(After(ops), RoomExit(1, [])) && Apply(After(ops), RoomExit(1, [])).Fault?
    ensures var gone := ops + [Disconnect(1, [])];
            Run(gone) && Legal(After(gone), RoomCreate(1, n)) && Apply(After(gone), RoomCreate(1, n)).Fault?
  {
    ops := TwoLogIn(n, 7, 8);
    Extend(ops, Disconnect(1, []));
  }
}
