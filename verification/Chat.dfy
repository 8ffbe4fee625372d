/** The server's membership state and what each request does to it: LogicProcessFunc.cpp,
    UserManager.cpp, RoomManager.cpp and Room.cpp, on values. Users, their sessions and rooms
    are named by their ids, which are never used again; the lobby set holds addresses of users,
    which are. */
module Chat {
  import opened Options
  import opened Bytes
  import opened Packets
  import opened Packages
  import opened Sequences

  type Uid = U32
  type Rid = U16
  /** Where an object lies in memory. */
  type Address = nat
  type SendPackage = Package<Packet>

  datatype User = User(nickname: Str, room: Option<Rid>, at: Address)
  datatype Room = Room(name: Str, members: set<Uid>)

  /** `users` is `userList_`, `rooms` is `roomList_`, `lobby` is `userInLobby_`. Ids in `members`
      without an entry in `users` are pointers to deleted users, as are addresses in `lobby` at
      which no user of `users` lies. */
  datatype World = World(
    users: map<Uid, User>,
    rooms: map<Rid, Room>,
    lobby: set<Address>,
    nextUid: Uid,
    nextRid: Rid)

  function Initial(): World {
    World(map[], map[], {}, 1, 1)
  }

  /** A request, with the id found through its session pointer. `at` is the address `new`
      returns; `order` is the order in which the address-ordered set of users that the request
      walks over happens to be visited; `target` is what `FindByNickname` finds. */
  datatype Op =
    | Connect(at: Address)
    | ServerEnter(uid: Uid, nickname: Str)
    | ServerExit(uid: Uid, order: seq<Uid>)
    | Disconnect(uid: Uid, order: seq<Uid>)
    | RoomList(uid: Uid)
    | RoomCreate(uid: Uid, name: Str)
    | RoomEnter(uid: Uid, rid: Rid, order: seq<Uid>)
    | RoomExit(uid: Uid, order: seq<Uid>)
    | Whisper(uid: Uid, recver: Str, text: Str, target: Option<Uid>)
    | Multicast(uid: Uid, text: Str, order: seq<Uid>)
    | Broadcast(uid: Uid, text: Str, orders: map<Rid, seq<Uid>>)

  /** A request either completes, with the packages it pushed, or dereferences a null or
      dangling pointer. */
  datatype Outcome = Done(world: World, out: seq<SendPackage>) | Fault

  // ---- Fan-out ----

  function To(uid: Uid, p: Packet): SendPackage {
    Package(Some(uid), Some(p))
  }

  /** `Room::RoomCast` over members visited in `order`. */
  function Cast(order: seq<Uid>, p: Packet): (r: seq<SendPackage>)
    ensures |r| == |order|
  {
    seq(|order|, i requires 0 <= i < |order| => To(order[i], p))
  }

  function Without(order: seq<Uid>, uid: Uid): seq<Uid> {
    if order == [] then []
    else if order[0] == uid then Without(order[1..], uid)
    else [order[0]] + Without(order[1..], uid)
  }

  /** The packages of `Room::EnterRoom`. */
  function EnterOut(order: seq<Uid>, uid: Uid, nickname: Str, roomName: Str): seq<SendPackage> {
    Cast(order, SRoomEnter(uid, nickname)) + [To(uid, SRoomName(roomName))]
  }

  /** The packages of `Room::ExitRoom`. */
  function ExitOut(order: seq<Uid>, uid: Uid, senderExclusive: bool): seq<SendPackage> {
    Cast(if senderExclusive then Without(order, uid) else order, SRoomExit(uid))
  }

  /** The ids below `k` in `rooms`, ascending: the iteration order of `roomList_`. */
  function IdsBelow(rooms: map<Rid, Room>, k: nat): (ids: seq<Rid>)
    requires k <= 0x1_0000
    ensures forall r :: r in ids <==> r in rooms && r < k
  {
    if k == 0 then []
    else IdsBelow(rooms, k - 1) + if k - 1 in rooms then [k - 1] else []
  }

  function RidCount(): (n: nat)
    ensures n == 0x1_0000
  {
    0x1_0000
  }

  function RoomIds(rooms: map<Rid, Room>): (ids: seq<Rid>)
    ensures forall r :: r in ids <==> r in rooms
  {
    IdsBelow(rooms, RidCount())
  }

  function Names(rooms: map<Rid, Room>, ids: seq<Rid>): (names: seq<Str>)
    requires forall r :: r in ids ==> r in rooms
    ensures |names| == |ids| && forall k :: 0 <= k < |ids| ==> names[k] == rooms[ids[k]].name
  {
    if ids == [] then [] else Names(rooms, ids[..|ids| - 1]) + [rooms[ids[|ids| - 1]].name]
  }

  /** The packet `SendRoomListToOne` builds. */
  function RoomInfo(rooms: map<Rid, Room>): Packet {
    var ids := RoomIds(rooms);
    SLobbyRoomInfo(|ids| % 0x1_0000, ids, Names(rooms, ids))
  }

  predicate Ascending(ids: seq<Rid>) {
    forall i, j :: 0 <= i < j < |ids| ==> ids[i] < ids[j]
  }

  lemma {:induction false} AscendOneMore(ids: seq<Rid>, r: Rid)
    requires Ascending(ids) && forall x :: x in ids ==> x < r
    ensures Ascending(ids + [r])
  {
    forall i, j | 0 <= i < j < |ids + [r]|
      ensures (ids + [r])[i] < (ids + [r])[j]
    {
      assert ids[i] in ids;
    }
  }

  lemma {:induction false} IdsBelowAscend(rooms: map<Rid, Room>, k: nat)
    requires k <= 0x1_0000
    ensures Ascending(IdsBelow(rooms, k))
  {
    if k > 0 {
      IdsBelowAscend(rooms, k - 1);
      if k - 1 in rooms {
        AscendOneMore(IdsBelow(rooms, k - 1), k - 1);
      }
    }
  }

  function KeysBelow(rooms: map<Rid, Room>, k: nat): set<Rid> {
    set r | r in rooms && r < k
  }

  lemma {:induction false} OneKeyMore(rooms: map<Rid, Room>, k: nat)
    requires k < 0x1_0000
    ensures |KeysBelow(rooms, k + 1)| == |KeysBelow(rooms, k)| + if k in rooms then 1 else 0
  {
    assert KeysBelow(rooms, k + 1) == KeysBelow(rooms, k) + if k in rooms then {k} else {};
  }

  lemma {:induction false} IdsBelowCount(rooms: map<Rid, Room>, k: nat)
    requires k <= 0x1_0000
    ensures |IdsBelow(rooms, k)| == |KeysBelow(rooms, k)|
  {
    if k == 0 {
      assert KeysBelow(rooms, 0) == {};
    } else {
      IdsBelowCount(rooms, k - 1);
      OneKeyMore(rooms, k - 1);
    }
  }

  /** The room list names every room once, in ascending order of the ids, and beside each id the
      name of that room; the count is that of the rooms, as far as 16 bits hold it. */
  lemma {:induction false} RoomListExactly(rooms: map<Rid, Room>)
    ensures var p := RoomInfo(rooms);
            && Ascending(p.roomIds) && (forall r :: r in p.roomIds <==> r in rooms)
            && |p.roomNames| == |p.roomIds| == |rooms|
            && (forall k :: 0 <= k < |p.roomIds| ==> p.roomNames[k] == rooms[p.roomIds[k]].name)
            && p.roomCount == |rooms| % 0x1_0000
  {
    IdsBelowAscend(rooms, RidCount());
    IdsBelowCount(rooms, RidCount());
    assert KeysBelow(rooms, RidCount()) == rooms.Keys;
    assert |rooms.Keys| == |rooms|;
  }

  /** The packages of a broadcast to the rooms below `k`, in the order of their ids, the members
      of room `r` being visited in the order `orders[r]`. */
  function BroadcastOut(orders: map<Rid, seq<Uid>>, k: nat, p: Packet): seq<SendPackage>
    requires k <= 0x1_0000
  {
    if k == 0 then []
    else BroadcastOut(orders, k - 1, p) + if k - 1 in orders then Cast(orders[k - 1], p) else []
  }

  // ---- Requests ----

  ghost predicate Enumerates(order: seq<Uid>, s: set<Uid>) {
    Distinct(order) && (forall x :: x in order <==> x in s)
  }

  predicate InRoomOf(w: World, uid: Uid) {
    uid in w.users && w.users[uid].room.Some? && w.users[uid].room.value in w.rooms
  }

  function MembersAround(w: World, uid: Uid): set<Uid>
    requires InRoomOf(w, uid)
  {
    w.rooms[w.users[uid].room.value].members
  }

  /** A user that is in no room, or whose room still lists a deleted user. */
  predicate Stranded(w: World, uid: Uid) {
    !InRoomOf(w, uid) || !(MembersAround(w, uid) <= w.users.Keys)
  }

  predicate AnyRoomStale(w: World) {
    exists r :: r in w.rooms && !(w.rooms[r].members <= w.users.Keys)
  }

  /** The addresses at which users lie. */
  function Occupied(w: World): set<Address> {
    set u | u in w.users :: w.users[u].at
  }

  /** The labels of a request that describe something the program could really do. A request
      comes through a session that was made at some time; memory in use is not handed out. */
  ghost predicate Legal(w: World, op: Op) {
    && (!op.Connect? && !op.Disconnect? ==> 0 < op.uid < w.nextUid)
    && LabelsOk(w, op)
  }

  ghost predicate LabelsOk(w: World, op: Op) {
    match op
    case Connect(at) => w.nextUid < 0xFFFF_FFFF && at !in Occupied(w)
    case ServerExit(uid, order) => InRoomOf(w, uid) ==> Enumerates(order, MembersAround(w, uid))
    case Disconnect(uid, order) => InRoomOf(w, uid) ==> Enumerates(order, MembersAround(w, uid))
    case RoomEnter(uid, rid, order) => rid in w.rooms ==> Enumerates(order, w.rooms[rid].members + {uid})
    case RoomExit(uid, order) => InRoomOf(w, uid) ==> Enumerates(order, MembersAround(w, uid))
    case Whisper(_, recver, _, target) => FoundFirst(w.users, recver, target)
    case Multicast(uid, _, order) => InRoomOf(w, uid) ==> Enumerates(order, MembersAround(w, uid))
    case Broadcast(_, _, orders) =>
      orders.Keys == w.rooms.Keys && forall r :: r in orders ==> Enumerates(orders[r], w.rooms[r].members)
    case _ => true
  }

  /** `FindByNickname`: the user with the smallest id among those with the name. */
  ghost predicate FoundFirst(users: map<Uid, User>, name: Str, target: Option<Uid>) {
    match target
    case None => forall v :: v in users ==> users[v].nickname != name
    case Some(u) => u in users && users[u].nickname == name
                    && forall v :: v in users && v < u ==> users[v].nickname != name
  }

  /** `Room::ExitRoom` for a user known to be in a room. */
  function LeaveRoom(w: World, uid: Uid): World
    requires InRoomOf(w, uid)
  {
    var r := w.users[uid].room.value;
    w.(users := w.users[uid := w.users[uid].(room := None)],
       rooms := w.rooms[r := w.rooms[r].(members := w.rooms[r].members - {uid})])
  }

  /** `UserManager::RemoveUser(User*)`. */
  function Remove(w: World, uid: Uid, order: seq<Uid>): Outcome
    requires uid in w.users
  {
    if w.users[uid].room.None? then
      Done(w.(users := w.users - {uid}, lobby := w.lobby - {w.users[uid].at}), [])
    else if Stranded(w, uid) then Fault
    else
      var w' := LeaveRoom(w, uid);
      Done(w'.(users := w'.users - {uid}), ExitOut(order, uid, true))
  }

  function Apply(w: World, op: Op): Outcome {
    match op
    case Connect(at) =>
      if w.nextUid == 0xFFFF_FFFF then Fault
      else Done(w.(users := w.users[w.nextUid := User([], None, at)],
                   lobby := w.lobby + {at},
                   nextUid := w.nextUid + 1), [])
    case ServerEnter(uid, nickname) =>
      if uid !in w.users then Fault
      else Done(w.(users := w.users[uid := w.users[uid].(nickname := nickname)]),
                [To(uid, SServerEnterOk(uid)), To(uid, RoomInfo(w.rooms))])
    case ServerExit(uid, order) =>
      if uid !in w.users then Fault else Remove(w, uid, order)
    case Disconnect(uid, order) =>
      if uid !in w.users then Done(w, []) else Remove(w, uid, order)
    case RoomList(uid) =>
      Done(w, [To(uid, RoomInfo(w.rooms))])
    case RoomCreate(uid, name) =>
      if uid !in w.users then Fault
      else
        var rooms := if w.nextRid in w.rooms then w.rooms else w.rooms[w.nextRid := Room(name, {})];
        Done(w.(rooms := rooms, nextRid := (w.nextRid + 1) % 0x1_0000), [To(uid, RoomInfo(rooms))])
    case RoomEnter(uid, rid, order) =>
      if rid !in w.rooms || uid !in w.users || !(w.rooms[rid].members <= w.users.Keys) then Fault
      else
        var room := w.rooms[rid];
        Done(w.(users := w.users[uid := w.users[uid].(room := Some(rid))],
                rooms := w.rooms[rid := room.(members := room.members + {uid})]),
             EnterOut(order, uid, w.users[uid].nickname, room.name))
    case RoomExit(uid, order) =>
      if Stranded(w, uid) then Fault
      else
        var w' := LeaveRoom(w, uid);
        Done(w'.(lobby := w'.lobby + {w.users[uid].at}), ExitOut(order, uid, false))
    case Whisper(uid, _, text, target) =>
      if uid !in w.users then Fault
      else if target.None? then Done(w, [To(uid, SUnicastNo)])
      else
        var p := SUnicastOk(w.users[uid].nickname, text);
        Done(w, [To(uid, p), To(target.value, p)])
    case Multicast(uid, text, order) =>
      if Stranded(w, uid) then Fault
      else Done(w, Cast(order, SMulticast(w.users[uid].nickname, text)))
    case Broadcast(uid, text, orders) =>
      if uid !in w.users || AnyRoomStale(w) then Fault
      else Done(w, BroadcastOut(orders, RidCount(), SBroadcast(w.users[uid].nickname, text)))
  }

  // ---- Membership agreement ----

  /** A room's member set and its members' `currRoom_` say the same. */
  ghost predicate Agreement(w: World) {
    && (forall u :: u in w.users && w.users[u].room.Some? ==>
          w.users[u].room.value in w.rooms && u in w.rooms[w.users[u].room.value].members)
    && (forall r, u :: r in w.rooms && u in w.rooms[r].members ==>
          u in w.users && w.users[u].room == Some(r))
  }

  /** Ids are handed out in ascending order. */
  ghost predicate IdsKnown(w: World) {
    0 < w.nextUid && forall u :: u in w.users ==> 0 < u < w.nextUid
  }

  /** Entering a room from inside another one: what the empty guard at ChatUser.h:32 lets by. */
  predicate CrossEnter(w: World, op: Op) {
    op.RoomEnter? && op.uid in w.users
    && w.users[op.uid].room.Some? && w.users[op.uid].room != Some(op.rid)
  }

  lemma {:induction false} CrossEnterBreaks(w: World, op: Op)
    requires Agreement(w) && CrossEnter(w, op) && Apply(w, op).Done?
    ensures !Agreement(Apply(w, op).world)
  {
    var w' := Apply(w, op).world;
    var was := w.users[op.uid].room.value;
    assert w'.rooms[was] == w.rooms[was] && op.uid in w'.rooms[was].members;
    assert w'.users[op.uid].room == Some(op.rid) != Some(was);
  }

  lemma {:induction false} EnterKeepsAgreement(w: World, op: Op)
    requires Agreement(w) && op.RoomEnter? && Apply(w, op).Done? && !CrossEnter(w, op)
    ensures Agreement(Apply(w, op).world)
  {
  }

  lemma {:induction false} LeaveRoomKeepsAgreement(w: World, uid: Uid)
    requires Agreement(w) && InRoomOf(w, uid)
    ensures Agreement(LeaveRoom(w, uid))
  {
    var w' := LeaveRoom(w, uid);
    forall r, u | r in w'.rooms && u in w'.rooms[r].members
      ensures u in w'.users && w'.users[u].room == Some(r)
    {
      assert u in w.rooms[r].members;
    }
  }

  lemma {:induction false} ForgetKeepsAgreement(w: World, uid: Uid)
    requires Agreement(w) && uid in w.users && w.users[uid].room.None?
    ensures Agreement(w.(users := w.users - {uid}))
    ensures Agreement(w.(users := w.users - {uid}, lobby := w.lobby - {w.users[uid].at}))
  {
    var users := w.users - {uid};
    forall r, u | r in w.rooms && u in w.rooms[r].members
      ensures u in users && users[u].room == Some(r)
    {
      assert u in w.users && w.users[u].room == Some(r);
    }
  }

  lemma {:induction false} LeavingKeepsAgreement(w: World, op: Op)
    requires Agreement(w) && Apply(w, op).Done?
    requires op.ServerExit? || op.Disconnect? || op.RoomExit?
    ensures Agreement(Apply(w, op).world)
  {
    if InRoomOf(w, op.uid) {
      LeaveRoomKeepsAgreement(w, op.uid);
      if !op.RoomExit? {
        ForgetKeepsAgreement(LeaveRoom(w, op.uid), op.uid);
      }
    } else if op.uid in w.users {
      ForgetKeepsAgreement(w, op.uid);
    }
  }

  lemma {:induction false} OthersKeepAgreement(w: World, op: Op)
    requires Agreement(w) && IdsKnown(w) && Apply(w, op).Done?
    requires !op.RoomEnter? && !op.ServerExit? && !op.Disconnect? && !op.RoomExit?
    ensures Agreement(Apply(w, op).world)
  {
    var w' := Apply(w, op).world;
    forall r, u | r in w'.rooms && u in w'.rooms[r].members
      ensures u in w'.users && w'.users[u].room == Some(r)
    {
      assert r in w.rooms && u in w.rooms[r].members;
      assert u in w.users && w.users[u].room == Some(r);
    }
  }

  /** Agreement survives a request exactly when the request is not a `CrossEnter`. */
  lemma {:induction false} AgreementIsKeptExactly(w: World, op: Op)
    requires Agreement(w) && IdsKnown(w) && Apply(w, op).Done?
    ensures Agreement(Apply(w, op).world) <==> !CrossEnter(w, op)
    ensures IdsKnown(Apply(w, op).world)
  {
    if CrossEnter(w, op) {
      CrossEnterBreaks(w, op);
    } else if op.RoomEnter? {
      EnterKeepsAgreement(w, op);
    } else if op.ServerExit? || op.Disconnect? || op.RoomExit? {
      LeavingKeepsAgreement(w, op);
    } else {
      OthersKeepAgreement(w, op);
    }
  }

  // ---- Runs ----

  ghost predicate Run(ops: seq<Op>)
    decreases |ops|, 0
  {
    ops == [] ||
    var n := |ops| - 1;
    Run(ops[..n]) && Legal(After(ops[..n]), ops[n]) && Apply(After(ops[..n]), ops[n]).Done?
  }

  /** The world after a run. */
  ghost function After(ops: seq<Op>): World
    requires Run(ops)
    decreases |ops|, 1
  {
    if ops == [] then Initial() else Apply(After(ops[..|ops| - 1]), ops[|ops| - 1]).world
  }

  /** All packages pushed during a run, in order. */
  ghost function Log(ops: seq<Op>): seq<SendPackage>
    requires Run(ops)
  {
    if ops == [] then []
    else Log(ops[..|ops| - 1]) + Apply(After(ops[..|ops| - 1]), ops[|ops| - 1]).out
  }

  /** A run in which no user enters a room from inside another one. */
  ghost predicate NoCrossEnter(ops: seq<Op>)
    requires Run(ops)
    decreases |ops|
  {
    ops == [] ||
    var n := |ops| - 1;
    NoCrossEnter(ops[..n]) && !CrossEnter(After(ops[..n]), ops[n])
  }

  lemma {:induction false} RunGrows(ops: seq<Op>, op: Op)
    requires Run(ops) && Legal(After(ops), op) && Apply(After(ops), op).Done?
    ensures Run(ops + [op]) && After(ops + [op]) == Apply(After(ops), op).world
    ensures Log(ops + [op]) == Log(ops) + Apply(After(ops), op).out
  {
    assert (ops + [op])[..|ops|] == ops;
  }

  /** What comes before any moment of a run is a run. */
  lemma {:induction false} PrefixRuns(ops: seq<Op>, k: nat)
    requires Run(ops) && k <= |ops|
    ensures Run(ops[..k]) && Log(ops[..k]) <= Log(ops)
    ensures NoCrossEnter(ops) ==> NoCrossEnter(ops[..k])
    decreases |ops|
  {
    if k < |ops| {
      var past := ops[..|ops| - 1];
      PrefixRuns(past, k);
      LastRequest(ops);
      assert past[..k] == ops[..k];
    } else {
      assert ops[..k] == ops;
    }
  }

  lemma {:induction false} LastRequest(ops: seq<Op>)
    requires Run(ops) && ops != []
    ensures Run(ops[..|ops| - 1]) && Log(ops[..|ops| - 1]) <= Log(ops)
    ensures NoCrossEnter(ops) ==> NoCrossEnter(ops[..|ops| - 1])
  {
  }

  lemma {:induction false} RunsKnowIds(ops: seq<Op>)
    requires Run(ops)
    ensures IdsKnown(After(ops))
  {
    if ops != [] {
      var n := |ops| - 1;
      RunsKnowIds(ops[..n]);
      IdsStayKnown(After(ops[..n]), ops[n]);
    }
  }

  lemma {:induction false} IdsStayKnown(w: World, op: Op)
    requires IdsKnown(w) && Apply(w, op).Done?
    ensures IdsKnown(Apply(w, op).world)
  {
  }

  /** The two views of membership agree all through the run. */
  ghost predicate AlwaysAgrees(ops: seq<Op>)
    requires Run(ops)
    decreases |ops|
  {
    Agreement(After(ops)) && (ops == [] || AlwaysAgrees(ops[..|ops| - 1]))
  }

  /** They do so in exactly the runs without a `CrossEnter`. */
  lemma {:induction false} MembershipAgreesExactly(ops: seq<Op>)
    requires Run(ops)
    ensures AlwaysAgrees(ops) <==> NoCrossEnter(ops)
    decreases |ops|
  {
    if ops != [] {
      var n := |ops| - 1;
      MembershipAgreesExactly(ops[..n]);
      RunsKnowIds(ops[..n]);
      if AlwaysAgrees(ops[..n]) {
        AgreementIsKeptExactly(After(ops[..n]), ops[n]);
      }
    }
  }

  /** Agreement puts a user into at most one room. */
  lemma {:induction false} AtMostOneRoom(w: World, u: Uid, r: Rid, s: Rid)
    requires Agreement(w) && r in w.rooms && s in w.rooms
    requires u in w.rooms[r].members && u in w.rooms[s].members
    ensures r == s
  {
    assert w.users[u].room == Some(r);
    assert w.users[u].room == Some(s);
  }

  /** In a run without a `CrossEnter` a request goes through a null or dangling pointer exactly
      when it needs more of its session than the pointer and the session is gone, or it enters
      an unknown room, or it needs a room its sender does not have. */
  lemma {:induction false} FaultsExactly(ops: seq<Op>, op: Op)
    requires Run(ops) && NoCrossEnter(ops) && Legal(After(ops), op)
    ensures var w := After(ops);
            Apply(w, op).Fault? <==>
            || (!op.Connect? && !op.Disconnect? && !op.RoomList? && op.uid !in w.users)
            || (op.RoomEnter? && op.rid !in w.rooms)
            || ((op.RoomExit? || op.Multicast?) && op.uid in w.users && w.users[op.uid].room.None?)
  {
    MembershipAgreesExactly(ops);
    FaultsUnderAgreement(After(ops), op);
  }

  lemma {:induction false} FaultsUnderAgreement(w: World, op: Op)
    requires Agreement(w) && Legal(w, op)
    ensures Apply(w, op).Fault? <==>
            || (!op.Connect? && !op.Disconnect? && !op.RoomList? && op.uid !in w.users)
            || (op.RoomEnter? && op.rid !in w.rooms)
            || ((op.RoomExit? || op.Multicast?) && op.uid in w.users && w.users[op.uid].room.None?)
  {
  }

  // ---- The lobby set ----

  /** The address a request leaves behind in the lobby set: that of a user deleted in a room. */
  function LeftBehind(w: World, op: Op): set<Address> {
    if (op.ServerExit? || op.Disconnect?) && op.uid in w.users && w.users[op.uid].room.Some?
    then {w.users[op.uid].at} else {}
  }

  /** The addresses of users deleted while they were in a room at which no user was made since. */
  ghost function Abandoned(ops: seq<Op>): set<Address>
    requires Run(ops)
  {
    if ops == [] then {}
    else
      var past, op := ops[..|ops| - 1], ops[|ops| - 1];
      Abandoned(past) + LeftBehind(After(past), op) - if op.Connect? then {op.at} else {}
  }

  ghost predicate AddressesDiffer(w: World) {
    forall u, v :: u in w.users && v in w.users && w.users[u].at == w.users[v].at ==> u == v
  }

  /** What the lobby set is when the addresses `gone` are abandoned. */
  ghost predicate LobbyIs(w: World, gone: set<Address>) {
    w.lobby == Occupied(w) + gone && Occupied(w) !! gone && AddressesDiffer(w)
  }

  /** Nothing takes a user out of the lobby set when it enters a room, so in every run the set
      holds the addresses of all connected users, in a room or not, and those abandoned. */
  lemma {:induction false} LobbyIsExactly(ops: seq<Op>)
    requires Run(ops)
    ensures LobbyIs(After(ops), Abandoned(ops))
  {
    if ops == [] {
      assert Occupied(Initial()) == {};
    } else {
      var n := |ops| - 1;
      LobbyIsExactly(ops[..n]);
      RunsKnowIds(ops[..n]);
      LobbyStep(After(ops[..n]), ops[n], Abandoned(ops[..n]));
    }
  }

  lemma {:induction false} LobbyStep(w: World, op: Op, gone: set<Address>)
    requires Legal(w, op) && Apply(w, op).Done? && IdsKnown(w) && LobbyIs(w, gone)
    ensures LobbyIs(Apply(w, op).world, gone + LeftBehind(w, op) - if op.Connect? then {op.at} else {})
  {
    var w' := Apply(w, op).world;
    if op.Connect? {
      OneUserMore(w, w', w.nextUid);
    } else if (op.ServerExit? || op.Disconnect?) && op.uid in w.users {
      OneUserLess(w, w', op.uid);
    } else {
      SameUsers(w, w');
      if op.RoomExit? {
        assert w.users[op.uid].at in Occupied(w);
      }
    }
  }

  /** What a request does to the lobby set: it is entered by who connects or leaves a room, and
      left only by who is removed while in no room; entering a room changes nothing. */
  lemma {:induction false} LobbyChangesExactly(w: World, op: Op)
    requires Apply(w, op).Done?
    ensures var w' := Apply(w, op).world;
            w'.lobby ==
            if op.Connect? then w.lobby + {op.at}
            else if op.RoomExit? then w.lobby + {w.users[op.uid].at}
            else if (op.ServerExit? || op.Disconnect?) && op.uid in w.users && w.users[op.uid].room.None?
            then w.lobby - {w.users[op.uid].at}
            else w.lobby
  {
  }

  lemma {:induction false} SameUsers(w: World, w': World)
    requires w'.users.Keys == w.users.Keys
    requires forall u :: u in w.users ==> w'.users[u].at == w.users[u].at
    ensures Occupied(w') == Occupied(w)
    ensures AddressesDiffer(w) ==> AddressesDiffer(w')
  {
    assert forall u :: u in w'.users ==> u in w.users && w.users[u].at in Occupied(w);
    assert forall u :: u in w.users ==> u in w'.users && w'.users[u].at in Occupied(w');
  }

  lemma {:induction false} OneUserMore(w: World, w': World, uid: Uid)
    requires uid !in w.users && w'.users.Keys == w.users.Keys + {uid}
    requires forall u :: u in w.users ==> w'.users[u].at == w.users[u].at
    requires w'.users[uid].at !in Occupied(w) && AddressesDiffer(w)
    ensures Occupied(w') == Occupied(w) + {w'.users[uid].at} && AddressesDiffer(w')
  {
    assert forall u :: u in w.users ==> w.users[u].at in Occupied(w);
    assert forall u :: u in w.users ==> u in w'.users && w'.users[u].at in Occupied(w');
  }

  lemma {:induction false} OneUserLess(w: World, w': World, uid: Uid)
    requires uid in w.users && w'.users.Keys == w.users.Keys - {uid}
    requires forall u :: u in w'.users ==> w'.users[u].at == w.users[u].at
    requires AddressesDiffer(w)
    ensures Occupied(w') == Occupied(w) - {w.users[uid].at} && AddressesDiffer(w')
    ensures w.users[uid].at in Occupied(w)
  {
    assert forall u :: u in w'.users ==> w.users[u].at in Occupied(w);
    assert forall u :: u in w.users && u != uid ==> u in w'.users && w'.users[u].at in Occupied(w');
  }

  /** An address is abandoned exactly when some request left it behind and no user was made
      there afterwards. */
  lemma {:induction false} AbandonedExactly(ops: seq<Op>, a: Address)
    requires Run(ops)
    ensures a in Abandoned(ops) <==> exists i :: LastLeft(ops, i, a)
    decreases |ops|
  {
    if ops != [] {
      var n := |ops| - 1;
      var past := ops[..n];
      AbandonedExactly(past, a);
      forall i: nat | i <= n
        ensures LastLeft(ops, i, a) <==>
                if i == n then a in LeftBehind(After(past), ops[n])
                else LastLeft(past, i, a) && ops[n] != Connect(a)
      {
        LastLeftOneMore(ops, i, a);
      }
      if i :| LastLeft(past, i, a) {
        assert LastLeft(ops, i, a) <==> ops[n] != Connect(a);
      }
      assert LastLeft(ops, n, a) <==> a in LeftBehind(After(past), ops[n]);
    }
  }

  lemma {:induction false} LastLeftOneMore(ops: seq<Op>, i: nat, a: Address)
    requires Run(ops) && i < |ops|
    ensures var n := |ops| - 1;
            LastLeft(ops, i, a) <==>
            if i == n then a in LeftBehind(After(ops[..n]), ops[n])
            else LastLeft(ops[..n], i, a) && ops[n] != Connect(a)
  {
    var n := |ops| - 1;
    UnusedOneMore(ops, i, a);
    if i < n {
      var past := ops[..n];
      assert past[..i] == ops[..i] && past[i] == ops[i];
    }
  }

  /** No user is made at `a` after the request at `i`. */
  predicate Unused(ops: seq<Op>, i: nat, a: Address) {
    forall j :: i < j < |ops| ==> ops[j] != Connect(a)
  }

  lemma {:induction false} UnusedOneMore(ops: seq<Op>, i: nat, a: Address)
    requires i < |ops|
    ensures var n := |ops| - 1; Unused(ops, i, a) <==> Unused(ops[..n], i, a) && (i < n ==> ops[n] != Connect(a))
  {
    var n := |ops| - 1;
    assert forall j :: 0 <= j < n ==> ops[..n][j] == ops[j];
  }

  ghost predicate LastLeft(ops: seq<Op>, i: nat, a: Address) {
    i < |ops| && Run(ops[..i]) && a in LeftBehind(After(ops[..i]), ops[i]) && Unused(ops, i, a)
  }

  /** `RoomManager::SendRoomListToAll` over the lobby set, its users visited in `order`. */
  function ListToAll(w: World, order: seq<Uid>): Outcome {
    if !(w.lobby <= Occupied(w)) then Fault else Done(w, Cast(order, RoomInfo(w.rooms)))
  }

  /** So telling the lobby about the rooms meets a deleted user exactly when there is an
      abandoned address, and otherwise it would tell every connected user, in a room or not. */
  lemma {:induction false} ListToAllFaultsExactly(ops: seq<Op>, order: seq<Uid>)
    requires Run(ops)
    ensures ListToAll(After(ops), order).Fault? <==> Abandoned(ops) != {}
    ensures Abandoned(ops) == {} ==> After(ops).lobby == Occupied(After(ops))
  {
    LobbyIsExactly(ops);
  }

  /** `order` names users lying at these addresses, at each of them one. */
  ghost predicate OneAtEach(users: map<Uid, User>, order: seq<Uid>, addresses: set<Address>) {
    && |order| == |addresses|
    && (forall i :: 0 <= i < |order| ==> order[i] in users && users[order[i]].at in addresses)
    && (forall i, j :: 0 <= i < j < |order| ==> users[order[i]].at != users[order[j]].at)
  }

  /** As many different addresses among them as there are: all of them. */
  lemma {:induction false} EveryAddressNamed(users: map<Uid, User>, order: seq<Uid>, addresses: set<Address>, a: Address)
    requires OneAtEach(users, order, addresses) && a in addresses
    ensures exists i :: 0 <= i < |order| && users[order[i]].at == a
    decreases |order|
  {
    var n := |order| - 1;
    var last := users[order[n]].at;
    if last != a {
      assert |addresses - {last}| == n;
      EveryAddressNamed(users, order[..n], addresses - {last}, a);
      var i :| 0 <= i < n && users[order[..n][i]].at == a;
      assert users[order[i]].at == a;
    }
  }

  /** Each user whose address is in the lobby set is told once, and nobody else; without an
      abandoned address these are all users. */
  lemma {:induction false} ListToAllTellsEachOnce(ops: seq<Op>, order: seq<Uid>)
    requires Run(ops) && OneAtEach(After(ops).users, order, After(ops).lobby)
    ensures var w := After(ops);
            Enumerates(order, set u | u in w.users && w.users[u].at in w.lobby)
    ensures Abandoned(ops) == {} ==> Enumerates(order, After(ops).users.Keys)
  {
    var w := After(ops);
    LobbyIsExactly(ops);
    forall u | u in w.users && w.users[u].at in w.lobby
      ensures u in order
    {
      NamedOnce(w, order, u);
    }
    if Abandoned(ops) == {} {
      assert forall u :: u in w.users ==> w.users[u].at in Occupied(w);
    }
  }

  lemma {:induction false} NamedOnce(w: World, order: seq<Uid>, u: Uid)
    requires OneAtEach(w.users, order, w.lobby) && AddressesDiffer(w)
    requires u in w.users && w.users[u].at in w.lobby
    ensures u in order
  {
    EveryAddressNamed(w.users, order, w.lobby, w.users[u].at);
    var i :| 0 <= i < |order| && w.users[order[i]].at == w.users[u].at;
    assert order[i] == u;
  }

  lemma {:induction false} RemovalStep(w: World, op: Op)
    requires Agreement(w) && (op.ServerExit? || op.Disconnect?) && op.uid in w.users
    ensures Apply(w, op).Done?
    ensures var w' := Apply(w, op).world;
            && op.uid !in w'.users
            && w'.lobby == (if w.users[op.uid].room.None? then w.lobby - {w.users[op.uid].at} else w.lobby)
            && forall r :: r in w'.rooms ==> op.uid !in w'.rooms[r].members
  {
    forall r | r in w.rooms && op.uid in w.rooms[r].members
      ensures w.users[op.uid].room == Some(r)
    {
    }
  }

  /** `RemoveUser` takes the user out of the user list and, in runs without a `CrossEnter`, out
      of every room; its address it takes out of the lobby set exactly when it was in no room. */
  lemma {:induction false} RemovalPurgesExactly(ops: seq<Op>, op: Op)
    requires Run(ops) && NoCrossEnter(ops)
    requires (op.ServerExit? || op.Disconnect?) && op.uid in After(ops).users
    requires Legal(After(ops), op)
    ensures Apply(After(ops), op).Done?
    ensures var w, w' := After(ops), Apply(After(ops), op).world;
            && op.uid !in w'.users
            && (forall r :: r in w'.rooms ==> op.uid !in w'.rooms[r].members)
            && (w.users[op.uid].at !in w'.lobby <==> w.users[op.uid].room.None?)
  {
    MembershipAgreesExactly(ops);
    LobbyIsExactly(ops);
    RemovalStep(After(ops), op);
  }
}
