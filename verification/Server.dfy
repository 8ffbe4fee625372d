/** The objects of ChatUser.h, Room.h, RoomManager.h, UserManager.h and LogicProcess.h, linked
    by pointers, updated in place and deleted, and what they make of the world of module Chat. */
module Servers {
  import opened Options
  import opened Bytes
  import opened Packets
  import opened SendServers
  import opened Chat

  // ---- Pointers ----

  /** How a function ends: it returns, or it has used a null or dangling pointer. */
  datatype Status = Fine | Crash {
    predicate IsFailure() {
      Crash?
    }

    function PropagateFailure(): Status {
      Crash
    }
  }

  /** What using a pointer gives. */
  datatype Used<+T> = Alive(target: T) | Dead {
    predicate IsFailure() {
      Dead?
    }

    function PropagateFailure(): Status {
      Crash
    }

    function Extract(): T
      requires Alive?
    {
      target
    }
  }

  /** Dereferencing a pointer to a user or, since a session is a member of its user, to a
      session. Calling a member function counts, even one that only computes an address. */
  function Use(p: UserObject?): (r: Used<UserObject>)
    reads if p == null then {} else {p}
    ensures r.Alive? <==> p != null && !p.deleted
    ensures r.Alive? ==> r.target == p
  {
    if p == null || p.deleted then Dead else Alive(p)
  }

  /** Dereferencing a pointer to a room; rooms are never deleted. */
  function UseRoom(p: RoomObject?): (r: Used<RoomObject>)
    ensures r.Alive? <==> p != null
    ensures r.Alive? ==> r.target == p
  {
    if p == null then Dead else Alive(p)
  }

  /** `id` also names the object in this model: a package made with a session's pointer is
      `To(session.id, _)`. The program reads the number through `GetId`, and like every other
      member only of an object that has not been deleted. */
  class UserObject {
    const id: Uid
    const address: Address
    var nickname: Str
    var currRoom: RoomObject?
    /** Whether `delete` was called. */
    var deleted: bool

    constructor (uid: Uid, at: Address)
      ensures id == uid && address == at && nickname == [] && currRoom == null && !deleted
    {
      id, address, nickname, currRoom, deleted := uid, at, [], null, false;
    }

    function GetId(): Uid
      requires !deleted
      reads this
    {
      id
    }

    function GetNickname(): Str
      requires !deleted
      reads this
    {
      nickname
    }

    function GetRoom(): RoomObject?
      requires !deleted
      reads this
    {
      currRoom
    }

    method SetNickname(name: Str)
      requires !deleted
      modifies this`nickname
      ensures nickname == name
    {
      nickname := name;
    }

    /** The guard for users outside the lobby is empty in the original. */
    method EnterRoom(room: RoomObject)
      requires !deleted
      modifies this`currRoom
      ensures currRoom == room
    {
      currRoom := room;
    }

    method ExitRoom()
      requires !deleted
      modifies this`currRoom
      ensures currRoom == null
    {
      currRoom := null;
    }

    method Delete()
      requires !deleted
      modifies this`deleted
      ensures deleted
    {
      deleted := true;
    }

    ghost function Value(): User
      reads this
    {
      User(nickname, if currRoom == null then None else Some(currRoom.id), address)
    }
  }

  /** The ids of a set of users. */
  ghost function Ids(users: set<UserObject>): set<Uid> {
    set u | u in users :: u.id
  }

  ghost predicate IdsDiffer(users: set<UserObject>) {
    forall u, v :: u in users && v in users && u.id == v.id ==> u == v
  }

  ghost predicate AllAlive(users: set<UserObject>)
    reads users
  {
    forall u :: u in users ==> !u.deleted
  }

  lemma EnumeratesOneMore(order: seq<Uid>, done: set<UserObject>, user: UserObject)
    requires Enumerates(order, Ids(done)) && IdsDiffer(done + {user}) && user !in done
    ensures Enumerates(order + [user.id], Ids(done + {user}))
  {
    assert user.id !in order;
  }

  lemma CastOneMore(order: seq<Uid>, uid: Uid, p: Packet)
    ensures Cast(order + [uid], p) == Cast(order, p) + [To(uid, p)]
  {
  }

  lemma {:induction false} WithoutConcat(a: seq<Uid>, b: seq<Uid>, uid: Uid)
    ensures Without(a + b, uid) == Without(a, uid) + Without(b, uid)
  {
    if a == [] {
      assert a + b == b;
    } else {
      assert (a + b)[1..] == a[1..] + b;
      WithoutConcat(a[1..], b, uid);
    }
  }

  lemma CastToOneMore(order: seq<Uid>, recver: Uid, uid: Uid, p: Packet)
    ensures Cast(Without(order + [recver], uid), p) ==
            Cast(Without(order, uid), p) + if recver == uid then [] else [To(recver, p)]
  {
    WithoutConcat(order, [recver], uid);
    CastOneMore(Without(order, uid), recver, p);
  }

  class RoomObject {
    const id: Rid
    const name: Str
    const sendServer: SendServer
    var users: set<UserObject>

    constructor (rid: Rid, roomName: Str, server: SendServer)
      ensures id == rid && name == roomName && sendServer == server && users == {}
    {
      id, name, sendServer, users := rid, roomName, server, {};
    }

    /** `RoomCast`; `order` is the order in which the set happened to be walked. */
    method RoomCast(packet: Packet) returns (status: Status, ghost order: seq<Uid>)
      requires IdsDiffer(users)
      modifies sendServer`packages
      ensures status.Fine? <==> AllAlive(users)
      ensures status.Fine? ==> Enumerates(order, Ids(users))
      ensures status.Fine? ==> sendServer.packages == old(sendServer.packages) + Cast(order, packet)
    {
      var todo := users;
      order := [];
      while todo != {}
        invariant todo <= users && Enumerates(order, Ids(users - todo)) && AllAlive(users - todo)
        invariant sendServer.packages == old(sendServer.packages) + Cast(order, packet)
        decreases todo
      {
        var member :| member in todo;
        var user :- Use(member);
        sendServer.PushPackage(To(user.id, packet));
        CastOneMore(order, user.id, packet);
        EnumeratesOneMore(order, users - todo, user);
        assert users - (todo - {user}) == (users - todo) + {user};
        todo := todo - {user};
        order := order + [user.id];
      }
      assert users - todo == users;
      status := Fine;
    }

    /** The loop of `ExitRoom` that skips the leaver. */
    method CastToOthers(packet: Packet, uid: Uid) returns (status: Status, ghost order: seq<Uid>)
      requires IdsDiffer(users)
      modifies sendServer`packages
      ensures status.Fine? <==> AllAlive(users)
      ensures status.Fine? ==> Enumerates(order, Ids(users))
      ensures status.Fine? ==> sendServer.packages == old(sendServer.packages) + Cast(Without(order, uid), packet)
    {
      var todo := users;
      order := [];
      while todo != {}
        invariant todo <= users && Enumerates(order, Ids(users - todo)) && AllAlive(users - todo)
        invariant sendServer.packages == old(sendServer.packages) + Cast(Without(order, uid), packet)
        decreases todo
      {
        var member :| member in todo;
        var recver :- Use(member);
        if recver.GetId() != uid {
          sendServer.PushPackage(To(recver.id, packet));
        }
        CastToOneMore(order, recver.id, uid, packet);
        EnumeratesOneMore(order, users - todo, recver);
        assert users - (todo - {recver}) == (users - todo) + {recver};
        todo := todo - {recver};
        order := order + [recver.id];
      }
      assert users - todo == users;
      status := Fine;
    }

    method EnterRoom(user: UserObject) returns (status: Status, ghost order: seq<Uid>)
      requires IdsDiffer(users + {user}) && !user.deleted
      modifies user`currRoom, this`users, sendServer`packages
      ensures status.Fine? <==> AllAlive(old(users))
      ensures status.Fine? ==> user.currRoom == this && users == old(users) + {user}
      ensures status.Fine? ==> Enumerates(order, Ids(users))
      ensures status.Fine? ==>
                sendServer.packages == old(sendServer.packages) + EnterOut(order, user.id, user.nickname, name)
    {
      user.EnterRoom(this);
      users := users + {user};
      order :- RoomCast(SRoomEnter(user.GetId(), user.GetNickname()));
      sendServer.PushPackage(To(user.id, SRoomName(name)));
      status := Fine;
    }

    method ExitRoom(user: UserObject, senderExclusive: bool) returns (status: Status, ghost order: seq<Uid>)
      requires IdsDiffer(users) && !user.deleted
      modifies user`currRoom, this`users, sendServer`packages
      ensures status.Fine? <==> AllAlive(old(users))
      ensures status.Fine? ==> user.currRoom == null && users == old(users) - {user}
      ensures status.Fine? ==> Enumerates(order, Ids(old(users)))
      ensures status.Fine? ==>
                sendServer.packages == old(sendServer.packages) + ExitOut(order, user.id, senderExclusive)
    {
      if senderExclusive {
        order :- CastToOthers(SRoomExit(user.GetId()), user.GetId());
      } else {
        order :- RoomCast(SRoomExit(user.GetId()));
      }
      user.ExitRoom();
      users := users - {user};
      status := Fine;
    }

    ghost function Value(): Room
      reads this
    {
      Room(name, Ids(users))
    }
  }

  // ---- The managers and the request handlers ----

  class UserManager {
    var userList: map<Uid, UserObject>
    var userId: Uid
    /** History: every user object ever made. */
    ghost var known: set<UserObject>

    constructor ()
      ensures userList == map[] && userId == 1 && known == {}
    {
      userList, userId, known := map[], 1, {};
    }

    function GetUser(id: Uid): UserObject?
      reads this
    {
      if id in userList then userList[id] else null
    }

    /** The session of a user, as a pointer to the user it is a member of. */
    function GetSession(id: Uid): UserObject?
      reads this
    {
      if id in userList then userList[id] else null
    }
  }

  class RoomManager {
    var roomList: map<Rid, RoomObject>
    var roomId: Rid
    /** Pointers, by the address they hold. */
    var userInLobby: set<Address>

    constructor ()
      ensures roomList == map[] && roomId == 1 && userInLobby == {}
    {
      roomList, roomId, userInLobby := map[], 1, {};
    }

    function GetRoom(rid: Rid): RoomObject?
      reads this
    {
      if rid in roomList then roomList[rid] else null
    }

    method PushIntoLobby(user: UserObject)
      modifies this`userInLobby
      ensures userInLobby == old(userInLobby) + {user.address}
    {
      userInLobby := userInLobby + {user.address};
    }

    method RemoveFromLobby(user: UserObject)
      modifies this`userInLobby
      ensures userInLobby == old(userInLobby) - {user.address}
    {
      userInLobby := userInLobby - {user.address};
    }

    ghost function Rooms(): map<Rid, Room>
      reads this, roomList.Values
    {
      map r | r in roomList :: roomList[r].Value()
    }

    /** All rooms push to one send server. */
    ghost predicate Serves(server: SendServer)
      reads this, roomList.Values
    {
      forall r :: r in roomList ==> roomList[r].sendServer == server && IdsDiffer(roomList[r].users)
    }

    /** Whether walking over a room meets no deleted user. */
    ghost function Alive(): map<Rid, bool>
      reads this, roomList.Values, set r, u | r in roomList && u in roomList[r].users :: u
    {
      map r | r in roomList :: AllAlive(roomList[r].users)
    }

    /** One turn of the loop of `BroadCast`; the rooms below have been told, each in its order. */
    method CastToRoom(k: Rid, p: Packet, server: SendServer,
                      ghost told: map<Rid, seq<Uid>>, ghost queue: seq<SendPackage>)
      returns (status: Status, ghost orders: map<Rid, seq<Uid>>)
      requires Serves(server) && Told(Rooms(), k, told, p, queue, server.packages)
      modifies server`packages
      ensures Serves(server) && Rooms() == old(Rooms()) && Alive() == old(Alive())
      ensures status.Fine? <==> k in roomList ==> old(Alive())[k]
      ensures status.Fine? ==> Told(old(Rooms()), k + 1, orders, p, queue, server.packages)
    {
      ghost var rooms, alive := Rooms(), Alive();
      orders := told;
      if k in roomList {
        ghost var order;
        order :- roomList[k].RoomCast(p);
        assert Rooms() == rooms && Alive() == alive;
        CastOneRoomMore(rooms, k, told, order, p);
        orders := told[k := order];
      }
      status := Fine;
    }

    method BroadCast(p: Packet, server: SendServer) returns (status: Status, ghost orders: map<Rid, seq<Uid>>)
      requires Serves(server)
      modifies server`packages
      ensures status.Fine? <==> forall r :: r in old(Alive()) ==> old(Alive())[r]
      ensures status.Fine? ==> Told(old(Rooms()), RidCount(), orders, p, old(server.packages), server.packages)
    {
      ghost var rooms, alive, queue := Rooms(), Alive(), server.packages;
      orders := map[];
      var k: nat := 0;
      while k < RidCount()
        invariant 0 <= k <= RidCount() && Serves(server) && Rooms() == rooms && Alive() == alive
        invariant Told(rooms, k, orders, p, queue, server.packages)
        invariant forall r :: r in alive && r < k ==> alive[r]
      {
        orders :- CastToRoom(k, p, server, orders, queue);
        k := k + 1;
      }
      status := Fine;
    }
  }

  class LogicProcess {
    const uMgr: UserManager
    const rMgr: RoomManager
    const sendServer: SendServer

    /** A user is deleted exactly when it is off the user list. */
    ghost predicate Valid()
      reads this, uMgr, rMgr, uMgr.known, rMgr.roomList.Values
    {
      && IdsDiffer(uMgr.known) && 0 < uMgr.userId
      && (forall u :: u in uMgr.known ==>
            0 < u.id < uMgr.userId && (u.deleted <==> u.id !in uMgr.userList))
      && (forall k :: k in uMgr.userList ==> uMgr.userList[k] in uMgr.known && uMgr.userList[k].id == k)
      && (forall r :: r in rMgr.roomList ==>
            && rMgr.roomList[r].id == r && rMgr.roomList[r].sendServer == sendServer
            && rMgr.roomList[r].users <= uMgr.known)
      && (forall u :: u in uMgr.known && u.currRoom != null ==>
            u.currRoom.id in rMgr.roomList && rMgr.roomList[u.currRoom.id] == u.currRoom)
    }

    ghost function UserValues(): map<Uid, User>
      reads this, uMgr, uMgr.userList.Values
    {
      map k | k in uMgr.userList :: uMgr.userList[k].Value()
    }

    ghost function RoomValues(): map<Rid, Room>
      reads this, rMgr, rMgr.roomList.Values
    {
      rMgr.Rooms()
    }

    /** The world that the linked objects stand for. */
    ghost function Abstract(): World
      reads this, uMgr, rMgr, uMgr.userList.Values, rMgr.roomList.Values
    {
      World(UserValues(), RoomValues(), rMgr.userInLobby, uMgr.userId, rMgr.roomId)
    }

    constructor (server: SendServer)
      ensures sendServer == server && Valid() && Abstract() == Initial()
      ensures fresh(uMgr) && fresh(rMgr) && uMgr.known == {} && rMgr.roomList == map[]
    {
      sendServer := server;
      uMgr := new UserManager();
      rMgr := new RoomManager();
    }

    /** How a request handler must answer: for some order of walking the sets it has done
        exactly what `Apply` says, and it uses a bad pointer exactly when `Apply` says so. */
    ghost predicate Answers(w: World, queue: seq<SendPackage>, op: Op, status: Status)
      reads this, uMgr, rMgr, uMgr.known, uMgr.userList.Values, rMgr.roomList.Values, sendServer
    {
      && Legal(w, op)
      && (status.Crash? <==> Apply(w, op).Fault?)
      && (status.Fine? ==> Valid() && Abstract() == Apply(w, op).world
                           && sendServer.packages == queue + Apply(w, op).out)
    }

    /** Walking over users meets no deleted one exactly when all of them are on the list. */
    lemma AliveExactly(users: set<UserObject>)
      requires Valid() && users <= uMgr.known
      ensures AllAlive(users) <==> Ids(users) <= uMgr.userList.Keys
    {
      if AllAlive(users) {
        assert forall m :: m in users ==> m.id in uMgr.userList;
      } else {
        var m :| m in users && m.deleted;
        assert m.id in Ids(users);
      }
    }

    /** `uMgr_->GetUser(package.session_->GetId())`, and what using the result gives. */
    function UserOf(session: UserObject): (r: Used<UserObject>)
      requires Valid() && session in uMgr.known
      reads this, uMgr, rMgr, uMgr.known, rMgr.roomList.Values
      ensures r.Alive? <==> session.id in uMgr.userList
      ensures r.Alive? ==> r.target == session
    {
      var sender := Use(session);
      if sender.Dead? then Dead else Use(uMgr.GetUser(sender.target.GetId()))
    }

    /** A successful `CreateUser`; `at` is the memory that `new` finds free. */
    method CreateUser(at: Address) returns (user: UserObject, ghost op: Op)
      requires Valid() && uMgr.userId < 0xFFFF_FFFF && at !in Occupied(Abstract())
      modifies uMgr, rMgr`userInLobby
      ensures op == Connect(at) && Answers(old(Abstract()), old(sendServer.packages), op, Fine)
      ensures fresh(user) && user.id == old(uMgr.userId) && uMgr.known == old(uMgr.known) + {user}
    {
      op := Connect(at);
      user := AddUser(at);
      BackToLobby(user);
    }

    method AddUser(at: Address) returns (user: UserObject)
      requires Valid() && uMgr.userId < 0xFFFF_FFFF
      modifies uMgr
      ensures Valid() && fresh(user) && uMgr.known == old(uMgr.known) + {user}
      ensures user.id == old(uMgr.userId) && user.address == at
      ensures uMgr.userId == old(uMgr.userId) + 1
      ensures UserValues() == old(UserValues())[user.id := User([], None, at)] && RoomValues() == old(RoomValues())
    {
      user := new UserObject(uMgr.userId, at);
      Register(user);
    }

    method Register(user: UserObject)
      requires Valid() && 0 < user.id == uMgr.userId < 0xFFFF_FFFF && user.currRoom == null && !user.deleted
      requires user !in uMgr.known
      modifies uMgr
      ensures Valid() && uMgr.known == old(uMgr.known) + {user} && uMgr.userId == user.id + 1
      ensures UserValues() == old(UserValues())[user.id := user.Value()] && RoomValues() == old(RoomValues())
    {
      uMgr.known := uMgr.known + {user};
      uMgr.userList := uMgr.userList[uMgr.userId := user];
      uMgr.userId := uMgr.userId + 1;
    }

    method BackToLobby(user: UserObject)
      requires Valid() && user in uMgr.known
      modifies rMgr`userInLobby
      ensures Valid() && UserValues() == old(UserValues()) && RoomValues() == old(RoomValues())
      ensures rMgr.userInLobby == old(rMgr.userInLobby) + {user.address}
    {
      rMgr.PushIntoLobby(user);
    }

    // ---- Rooms ----

    /** `Room::EnterRoom` seen from the managers. */
    method MoveIn(user: UserObject, room: RoomObject) returns (status: Status, ghost order: seq<Uid>)
      requires Valid() && user in uMgr.userList.Values && room in rMgr.roomList.Values
      modifies user`currRoom, room`users, sendServer`packages
      ensures status.Fine? <==> old(AllAlive(room.users))
      ensures status.Fine? ==> Valid() && Enumerates(order, Ids(old(room.users)) + {user.id})
      ensures status.Fine? ==>
                UserValues() == old(UserValues())[user.id := User(user.nickname, Some(room.id), user.address)]
      ensures status.Fine? ==>
                RoomValues() == old(RoomValues())[room.id := Room(room.name, Ids(old(room.users)) + {user.id})]
      ensures status.Fine? ==>
                sendServer.packages == old(sendServer.packages) + EnterOut(order, user.id, user.nickname, room.name)
    {
      assert room.id in rMgr.roomList && rMgr.roomList[room.id] == room && uMgr.userList[user.id] == user;
      ghost var users, rooms := UserValues(), RoomValues();
      order :- EnterValid(user, room);
      assert UserValues() == users[user.id := User(user.nickname, Some(room.id), user.address)];
      assert RoomValues() == rooms[room.id := Room(room.name, Ids(room.users))];
      status := Fine;
    }

    method EnterValid(user: UserObject, room: RoomObject) returns (status: Status, ghost order: seq<Uid>)
      requires Valid() && user in uMgr.userList.Values && room in rMgr.roomList.Values
      modifies user`currRoom, room`users, sendServer`packages
      ensures status.Fine? <==> old(AllAlive(room.users))
      ensures status.Fine? ==> Valid() && user.currRoom == room && Ids(room.users) == Ids(old(room.users)) + {user.id}
      ensures status.Fine? ==> Enumerates(order, Ids(room.users))
      ensures status.Fine? ==>
                sendServer.packages == old(sendServer.packages) + EnterOut(order, user.id, user.nickname, room.name)
    {
      order :- room.EnterRoom(user);
      assert Ids(room.users) == Ids(old(room.users)) + {user.id};
      status := Fine;
    }

    /** `Room::ExitRoom` seen from the managers. */
    method MoveOut(user: UserObject, room: RoomObject, senderExclusive: bool)
      returns (status: Status, ghost order: seq<Uid>)
      requires Valid() && user in uMgr.userList.Values && user.currRoom == room
      modifies user`currRoom, room`users, sendServer`packages
      ensures status.Fine? <==> old(AllAlive(room.users))
      ensures status.Fine? ==> Valid() && Enumerates(order, Ids(old(room.users)))
      ensures status.Fine? ==>
                UserValues() == old(UserValues())[user.id := User(user.nickname, None, user.address)]
      ensures status.Fine? ==>
                RoomValues() == old(RoomValues())[room.id := Room(room.name, Ids(old(room.users)) - {user.id})]
      ensures status.Fine? ==>
                sendServer.packages == old(sendServer.packages) + ExitOut(order, user.id, senderExclusive)
    {
      order :- room.ExitRoom(user, senderExclusive);
      assert Ids(old(room.users) - {user}) == Ids(old(room.users)) - {user.id};
      status := Fine;
    }

    /** A user in a room is stranded exactly when walking over the room meets a deleted user. */
    lemma StrandedExactly(user: UserObject, room: RoomObject)
      requires Valid() && user in uMgr.userList.Values && user.currRoom == room
      ensures InRoomOf(Abstract(), user.id) && MembersAround(Abstract(), user.id) == Ids(room.users)
      ensures Stranded(Abstract(), user.id) <==> !AllAlive(room.users)
    {
      AliveExactly(room.users);
    }

    /** Some order of the members around `uid`, for the requests that fail before walking. */
    ghost function OrderAround(uid: Uid): (order: seq<Uid>)
      reads this, uMgr, rMgr, uMgr.userList.Values, rMgr.roomList.Values
      ensures InRoomOf(Abstract(), uid) ==> Enumerates(order, MembersAround(Abstract(), uid))
    {
      if InRoomOf(Abstract(), uid) then SomeOrder(MembersAround(Abstract(), uid)) else []
    }

    /** `C_ROOM_ENTER`. */
    method RoomEnter(session: UserObject, rid: Rid) returns (status: Status, ghost op: Op)
      requires Valid() && session in uMgr.known
      modifies uMgr.known, rMgr.roomList.Values, sendServer`packages
      ensures op.RoomEnter? && op.uid == session.id && op.rid == rid
      ensures Answers(old(Abstract()), old(sendServer.packages), op, status)
    {
      op := Op.RoomEnter(session.id, rid, OrderIn(rid, session.id));
      EntryFault(Abstract(), op);
      var user :- UserOf(session);
      var room :- UseRoom(rMgr.GetRoom(rid));
      status, op := EnterBy(user, room);
    }

    /** Some order of the members of a room and one more, for the requests that fail. */
    ghost function OrderIn(rid: Rid, uid: Uid): (order: seq<Uid>)
      reads this, rMgr, rMgr.roomList.Values
      ensures rid in RoomValues() ==> Enumerates(order, RoomValues()[rid].members + {uid})
    {
      if rid in RoomValues() then SomeOrder(RoomValues()[rid].members + {uid}) else []
    }

    /** The rest of `C_ROOM_ENTER` after its look-ups. */
    method EnterBy(user: UserObject, room: RoomObject) returns (status: Status, ghost op: Op)
      requires Valid() && user in uMgr.userList.Values && room in rMgr.roomList.Values
      modifies user`currRoom, room`users, sendServer`packages
      ensures op.RoomEnter? && op.uid == user.id && op.rid == room.id
      ensures Answers(old(Abstract()), old(sendServer.packages), op, status)
    {
      op := Op.RoomEnter(user.id, room.id, OrderIn(room.id, user.id));
      AliveExactly(room.users);
      EntryFault(Abstract(), op);
      ghost var order;
      order :- MoveIn(user, room);
      return Fine, Op.RoomEnter(user.id, room.id, order);
    }

    /** `ExitRoom` and `PushIntoLobby` as `C_ROOM_EXIT` calls them. */
    method LeaveForLobby(user: UserObject, room: RoomObject) returns (status: Status, ghost order: seq<Uid>)
      requires Valid() && user in uMgr.userList.Values && user.currRoom == room
      modifies user`currRoom, room`users, rMgr`userInLobby, sendServer`packages
      ensures status.Fine? <==> old(AllAlive(room.users))
      ensures status.Fine? ==>
                var w := LeaveRoom(old(Abstract()), user.id);
                && Valid() && Abstract() == w.(lobby := w.lobby + {user.address})
                && Enumerates(order, Ids(old(room.users)))
                && sendServer.packages == old(sendServer.packages) + ExitOut(order, user.id, false)
    {
      StrandedExactly(user, room);
      order :- MoveOut(user, room, false);
      assert Abstract() == LeaveRoom(old(Abstract()), user.id);
      BackToLobby(user);
      status := Fine;
    }

    /** `C_ROOM_EXIT`. */
    method RoomExit(session: UserObject) returns (status: Status, ghost op: Op)
      requires Valid() && session in uMgr.known
      modifies uMgr.known, rMgr`userInLobby, rMgr.roomList.Values, sendServer`packages
      ensures op.RoomExit? && op.uid == session.id
      ensures Answers(old(Abstract()), old(sendServer.packages), op, status)
    {
      op := Op.RoomExit(session.id, OrderAround(session.id));
      StrandedFault(Abstract(), op);
      var user :- UserOf(session);
      var room :- UseRoom(user.GetRoom());
      status, op := ExitBy(user, room);
    }

    /** The rest of `C_ROOM_EXIT` after its look-ups. */
    method ExitBy(user: UserObject, room: RoomObject) returns (status: Status, ghost op: Op)
      requires Valid() && user in uMgr.userList.Values && user.currRoom == room
      modifies user`currRoom, room`users, rMgr`userInLobby, sendServer`packages
      ensures op.RoomExit? && op.uid == user.id
      ensures Answers(old(Abstract()), old(sendServer.packages), op, status)
    {
      StrandedExactly(user, room);
      op := Op.RoomExit(user.id, OrderAround(user.id));
      StrandedFault(Abstract(), op);
      ghost var order;
      order :- LeaveForLobby(user, room);
      return Fine, Op.RoomExit(user.id, order);
    }

    // ---- Removal ----

    /** `userList_.erase(uid)` and `delete user`. */
    method Forget(user: UserObject)
      requires Valid() && user in uMgr.userList.Values
      modifies uMgr`userList, user`deleted
      ensures Valid() && uMgr.userList == old(uMgr.userList) - {user.id}
      ensures UserValues() == old(UserValues()) - {user.id} && RoomValues() == old(RoomValues())
    {
      uMgr.userList := uMgr.userList - {user.GetId()};
      user.Delete();
    }

    method RemoveFromLobby(user: UserObject)
      requires Valid() && user in uMgr.userList.Values && user.currRoom == null
      modifies uMgr`userList, rMgr`userInLobby, user`deleted
      ensures Valid() && var w := old(Abstract());
              Abstract() == w.(users := w.users - {user.id}, lobby := w.lobby - {user.address})
    {
      ghost var w := Abstract();
      rMgr.RemoveFromLobby(user);
      assert Valid() && UserValues() == w.users && RoomValues() == w.rooms;
      Forget(user);
    }

    method RemoveFromRoom(user: UserObject, room: RoomObject) returns (status: Status, ghost order: seq<Uid>)
      requires Valid() && user in uMgr.userList.Values && user.currRoom == room
      modifies user`currRoom, user`deleted, room`users, uMgr`userList, sendServer`packages
      ensures status.Fine? <==> old(AllAlive(room.users))
      ensures status.Fine? ==>
                var w := LeaveRoom(old(Abstract()), user.id);
                && Valid() && Abstract() == w.(users := w.users - {user.id})
                && Enumerates(order, Ids(old(room.users)))
                && sendServer.packages == old(sendServer.packages) + ExitOut(order, user.id, true)
    {
      StrandedExactly(user, room);
      order :- MoveOut(user, room, true);
      assert Abstract() == LeaveRoom(old(Abstract()), user.id);
      Forget(user);
      status := Fine;
    }

    /** `UserManager::RemoveUser(User*)`. */
    method RemoveUser(pointer: UserObject?) returns (status: Status, ghost order: seq<Uid>)
      requires Valid() && (pointer != null ==> pointer in uMgr.userList.Values)
      modifies uMgr`userList, rMgr`userInLobby, uMgr.known, rMgr.roomList.Values, sendServer`packages
      ensures pointer == null ==> status.Crash?
      ensures pointer != null ==>
                var r := Remove(old(Abstract()), pointer.id, order);
                && (InRoomOf(old(Abstract()), pointer.id) ==>
                      Enumerates(order, MembersAround(old(Abstract()), pointer.id)))
                && (status.Crash? <==> r.Fault?)
                && (status.Fine? ==>
                      Valid() && Abstract() == r.world && sendServer.packages == old(sendServer.packages) + r.out)
    {
      order := if pointer == null then [] else OrderAround(pointer.id);
      var user :- Use(pointer);
      if user.GetRoom() == null {
        RemoveFromLobby(user);
        return Fine, order;
      }
      var room :- UseRoom(user.GetRoom());
      StrandedExactly(user, room);
      ghost var walked;
      walked :- RemoveFromRoom(user, room);
      return Fine, walked;
    }

    /** `C_SERVER_EXIT`. */
    method ServerExit(session: UserObject) returns (status: Status, ghost op: Op)
      requires Valid() && session in uMgr.known
      modifies uMgr`userList, rMgr`userInLobby, uMgr.known, rMgr.roomList.Values, sendServer`packages
      ensures op.ServerExit? && op.uid == session.id
      ensures Answers(old(Abstract()), old(sendServer.packages), op, status)
    {
      op := Op.ServerExit(session.id, OrderAround(session.id));
      var sender :- Use(session);
      ghost var order;
      status, order := RemoveUser(uMgr.GetUser(sender.GetId()));
      op := Op.ServerExit(session.id, order);
    }

    /** `UserManager::RemoveUser(int)`, for a connection that broke. */
    method Disconnect(uid: Uid) returns (status: Status, ghost op: Op)
      requires Valid()
      modifies uMgr`userList, rMgr`userInLobby, uMgr.known, rMgr.roomList.Values, sendServer`packages
      ensures op.Disconnect? && op.uid == uid
      ensures Answers(old(Abstract()), old(sendServer.packages), op, status)
    {
      if uid !in uMgr.userList {
        return Fine, Op.Disconnect(uid, []);
      }
      ghost var order;
      status, order := RemoveUser(uMgr.userList[uid]);
      op := Op.Disconnect(uid, order);
    }

    // ---- Room lists ----

    /** `SendRoomListToOne`: ids and names in the order of `roomList_`. It passes the session's
        pointer on and does not use it. */
    method SendRoomListToOne(session: UserObject)
      requires Valid()
      modifies sendServer`packages
      ensures sendServer.packages == old(sendServer.packages) + [To(session.id, RoomInfo(RoomValues()))]
    {
      var packet := RoomPacket();
      sendServer.PushPackage(To(session.id, packet));
    }

    /** `C_LOBBY_ROOM_INFO`. */
    method RoomList(session: UserObject) returns (status: Status, ghost op: Op)
      requires Valid() && session in uMgr.known
      modifies sendServer`packages
      ensures op == Op.RoomList(session.id)
      ensures Answers(old(Abstract()), old(sendServer.packages), op, status)
    {
      SendRoomListToOne(session);
      return Fine, Op.RoomList(session.id);
    }

    /** `SendAcceptPacket`. */
    method SendAcceptPacket(pointer: UserObject) returns (status: Status)
      modifies sendServer`packages
      ensures status.Fine? <==> !pointer.deleted
      ensures status.Fine? ==>
                sendServer.packages == old(sendServer.packages) + [To(pointer.id, SServerEnterOk(pointer.id))]
    {
      var session :- Use(pointer);
      sendServer.PushPackage(To(session.id, SServerEnterOk(session.GetId())));
      status := Fine;
    }

    method Rename(user: UserObject, nickname: Str)
      requires Valid() && user in uMgr.userList.Values
      modifies user`nickname
      ensures Valid() && RoomValues() == old(RoomValues())
      ensures UserValues() == old(UserValues())[user.id := old(UserValues())[user.id].(nickname := nickname)]
    {
      user.SetNickname(nickname);
    }

    /** `C_SERVER_ENTER` after its look-ups. */
    method Welcome(session: UserObject, user: UserObject, nickname: Str) returns (status: Status)
      requires Valid() && user in uMgr.userList.Values && session == user
      modifies user`nickname, sendServer`packages
      ensures status.Fine? && Valid()
      ensures var w := old(Abstract());
              && Abstract() == w.(users := w.users[user.id := w.users[user.id].(nickname := nickname)])
              && sendServer.packages ==
                 old(sendServer.packages) + [To(user.id, SServerEnterOk(user.id)), To(user.id, RoomInfo(w.rooms))]
    {
      ghost var w := Abstract();
      Rename(user, nickname);
      assert Abstract() == w.(users := w.users[user.id := w.users[user.id].(nickname := nickname)]);
      assert RoomValues() == w.rooms;
      status := SendWelcome(session);
    }

    method SendWelcome(session: UserObject) returns (status: Status)
      requires Valid()
      modifies sendServer`packages
      ensures status.Fine? <==> !session.deleted
      ensures status.Fine? ==>
                sendServer.packages ==
                old(sendServer.packages)
                + [To(session.id, SServerEnterOk(session.id)), To(session.id, RoomInfo(RoomValues()))]
    {
      status := SendAcceptPacket(session);
      if status.Fine? {
        SendRoomListToOne(session);
      }
    }

    /** `C_SERVER_ENTER`. */
    method ServerEnter(session: UserObject, nickname: Str) returns (status: Status, ghost op: Op)
      requires Valid() && session in uMgr.known
      modifies uMgr.known, sendServer`packages
      ensures op == Op.ServerEnter(session.id, nickname)
      ensures Answers(old(Abstract()), old(sendServer.packages), op, status)
    {
      op := Op.ServerEnter(session.id, nickname);
      var user :- UserOf(session);
      status := Welcome(session, user, nickname);
    }

    /** `C_ROOM_CREATE`: the 16-bit id wraps around, and an id still in use is left alone. */
    method RoomCreate(session: UserObject, name: Str) returns (status: Status, ghost op: Op)
      requires Valid() && session in uMgr.known
      modifies rMgr`roomList, rMgr`roomId, sendServer`packages
      ensures fresh(rMgr.roomList.Values - old(rMgr.roomList.Values))
      ensures op == Op.RoomCreate(session.id, name)
      ensures Answers(old(Abstract()), old(sendServer.packages), op, status)
    {
      op := Op.RoomCreate(session.id, name);
      CreationApplies(Abstract(), session.id, name);
      var sender :- Use(session);
      CreateRoom(sender.GetId(), name);
      status := Fine;
    }

    /** `RoomManager::CreateRoom`. The session it answers to is found again by its id. */
    method CreateRoom(uid: Uid, name: Str)
      requires Valid() && uid in uMgr.userList
      modifies rMgr`roomList, rMgr`roomId, sendServer`packages
      ensures fresh(rMgr.roomList.Values - old(rMgr.roomList.Values))
      ensures Valid()
      ensures Abstract() == WithRoom(old(Abstract()), name)
      ensures sendServer.packages == old(sendServer.packages) + [To(uid, RoomInfo(RoomValues()))]
    {
      AddRoom(name);
      SendRoomListToOne(uMgr.GetSession(uid));
    }

    method AddRoom(name: Str)
      requires Valid()
      modifies rMgr`roomList, rMgr`roomId
      ensures fresh(rMgr.roomList.Values - old(rMgr.roomList.Values))
      ensures Valid() && Abstract() == WithRoom(old(Abstract()), name)
    {
      var room := new RoomObject(rMgr.roomId, name, sendServer);
      InsertRoom(room);
      NextRoomId();
    }

    method NextRoomId()
      requires Valid()
      modifies rMgr`roomId
      ensures Valid() && var w := old(Abstract()); Abstract() == w.(nextRid := (w.nextRid + 1) % 0x1_0000)
    {
      rMgr.roomId := (rMgr.roomId + 1) % 0x1_0000;
    }

    /** `insert` leaves an entry that is there alone. */
    method InsertRoom(room: RoomObject)
      requires Valid() && room.id == rMgr.roomId && room.users == {} && room.sendServer == sendServer
      modifies rMgr`roomList
      ensures Valid() && rMgr.roomList.Values <= old(rMgr.roomList.Values) + {room}
      ensures var w := old(Abstract()); Abstract() == WithRoom(w, room.name).(nextRid := w.nextRid)
    {
      assert Ids(room.users) == {};
      if room.id !in rMgr.roomList {
        rMgr.roomList := rMgr.roomList[room.id := room];
      }
    }

    // ---- Talk ----

    /** `FindByNickname`: the user list is walked in ascending order of ids. */
    method FindByNickname(name: Str) returns (found: UserObject?, ghost target: Option<Uid>)
      requires Valid()
      ensures FoundFirst(UserValues(), name, target)
      ensures found == if target.None? then null else uMgr.GetUser(target.value)
    {
      var k := 0;
      while k < uMgr.userId
        invariant 0 <= k <= uMgr.userId
        invariant forall v :: v in uMgr.userList && v < k ==> uMgr.userList[v].nickname != name
      {
        if k in uMgr.userList && uMgr.userList[k].nickname == name {
          return uMgr.userList[k], Some(k);
        }
        k := k + 1;
      }
      target := None;
      found := null;
      assert forall v :: v in uMgr.userList ==> v < uMgr.userId;
    }

    method SendToBoth(uid: Uid, recver: Uid, p: Packet)
      modifies sendServer`packages
      ensures sendServer.packages == old(sendServer.packages) + [To(uid, p), To(recver, p)]
    {
      sendServer.PushPackage(To(uid, p));
      sendServer.PushPackage(To(recver, p));
    }

    /** `C_UNICAST`. */
    method Whisper(session: UserObject, recver: Str, text: Str) returns (status: Status, ghost op: Op)
      requires Valid() && session in uMgr.known
      modifies sendServer`packages
      ensures op.Whisper? && op.uid == session.id && op.recver == recver && op.text == text
      ensures Answers(old(Abstract()), old(sendServer.packages), op, status)
    {
      var found;
      ghost var target;
      found, target := FindByNickname(recver);
      op := Op.Whisper(session.id, recver, text, target);
      WhisperIsLegal(Abstract(), session.id, recver, text, target);
      var user :- UserOf(session);
      status := Tell(user, found, text, op);
    }

    /** The rest of `C_UNICAST` after its look-ups. */
    method Tell(user: UserObject, found: UserObject?, text: Str, ghost op: Op) returns (status: Status)
      requires Valid() && user in uMgr.userList.Values
      requires op.Whisper? && op.uid == user.id && op.text == text && Legal(Abstract(), op)
      requires found == if op.target.None? then null else uMgr.GetUser(op.target.value)
      modifies sendServer`packages
      ensures Answers(old(Abstract()), old(sendServer.packages), op, status)
    {
      if found == null {
        sendServer.PushPackage(To(user.id, SUnicastNo));
        return Fine;
      }
      var other :- Use(found);
      SendToBoth(user.id, other.id, SUnicastOk(user.GetNickname(), text));
      status := Fine;
    }

    /** `C_MULTICAST`. */
    method Multicast(session: UserObject, text: Str) returns (status: Status, ghost op: Op)
      requires Valid() && session in uMgr.known
      modifies sendServer`packages
      ensures op.Multicast? && op.uid == session.id && op.text == text
      ensures Answers(old(Abstract()), old(sendServer.packages), op, status)
    {
      op := Op.Multicast(session.id, text, OrderAround(session.id));
      StrandedFault(Abstract(), op);
      var user :- UserOf(session);
      var room :- UseRoom(user.GetRoom());
      status, op := CastBy(user, room, text);
    }

    /** The rest of `C_MULTICAST` after its look-ups. */
    method CastBy(user: UserObject, room: RoomObject, text: Str) returns (status: Status, ghost op: Op)
      requires Valid() && user in uMgr.userList.Values && user.currRoom == room
      modifies sendServer`packages
      ensures op.Multicast? && op.uid == user.id && op.text == text
      ensures Answers(old(Abstract()), old(sendServer.packages), op, status)
    {
      StrandedExactly(user, room);
      op := Op.Multicast(user.id, text, OrderAround(user.id));
      StrandedFault(Abstract(), op);
      ghost var order;
      order :- room.RoomCast(SMulticast(user.GetNickname(), text));
      return Fine, Op.Multicast(user.id, text, order);
    }

    /** `C_BROADCAST`. */
    method Broadcast(session: UserObject, text: Str) returns (status: Status, ghost op: Op)
      requires Valid() && session in uMgr.known
      modifies sendServer`packages
      ensures op.Broadcast? && op.uid == session.id && op.text == text
      ensures Answers(old(Abstract()), old(sendServer.packages), op, status)
    {
      ghost var orders := SomeOrders(RoomValues());
      op := Op.Broadcast(session.id, text, orders);
      BroadcastIsLegal(Abstract(), session.id, text, orders);
      var user :- UserOf(session);
      status, op := BroadcastBy(user, text);
    }

    /** The rest of `C_BROADCAST` after its look-up. */
    method BroadcastBy(user: UserObject, text: Str) returns (status: Status, ghost op: Op)
      requires Valid() && user in uMgr.userList.Values
      modifies sendServer`packages
      ensures op.Broadcast? && op.uid == user.id && op.text == text
      ensures Answers(old(Abstract()), old(sendServer.packages), op, status)
    {
      ghost var orders := SomeOrders(RoomValues());
      op := Op.Broadcast(user.id, text, orders);
      BroadcastIsLegal(Abstract(), user.id, text, orders);
      orders :- CastEverywhere(SBroadcast(user.GetNickname(), text));
      BroadcastIsLegal(Abstract(), user.id, text, orders);
      return Fine, Op.Broadcast(user.id, text, orders);
    }

    /** `RoomManager::BroadCast` seen from the managers. */
    method CastEverywhere(p: Packet) returns (status: Status, ghost orders: map<Rid, seq<Uid>>)
      requires Valid()
      modifies sendServer`packages
      ensures Valid() && Abstract() == old(Abstract())
      ensures status.Fine? <==> !old(AnyRoomStale(Abstract()))
      ensures status.Fine? ==>
                && orders.Keys == old(RoomValues()).Keys
                && (forall r :: r in orders ==> Enumerates(orders[r], old(RoomValues())[r].members))
                && sendServer.packages == old(sendServer.packages) + BroadcastOut(orders, RidCount(), p)
    {
      AllRoomsAlive();
      orders :- rMgr.BroadCast(p, sendServer);
      status := Fine;
    }

    lemma AllRoomsAlive()
      requires Valid()
      ensures (forall r :: r in rMgr.Alive() ==> rMgr.Alive()[r]) <==> !AnyRoomStale(Abstract())
    {
      forall r | r in rMgr.roomList
        ensures rMgr.Alive()[r] <==> RoomValues()[r].members <= UserValues().Keys
      {
        AliveExactly(rMgr.roomList[r].users);
      }
    }

    // ---- Dispatch ----

    /** `Process`: the handler that the packet's type selects, or nothing. */
    method Process(session: UserObject, packet: Packet) returns (status: Status, ghost op: Option<Op>)
      requires Valid() && session in uMgr.known
      modifies uMgr`userList, rMgr, uMgr.known, rMgr.roomList.Values, sendServer`packages
      ensures fresh(rMgr.roomList.Values - old(rMgr.roomList.Values))
      ensures op.Some? <==> Handled(packet)
      ensures op.Some? ==>
                Asks(session.id, packet, op.value)
                && Answers(old(Abstract()), old(sendServer.packages), op.value, status)
      ensures op.None? ==>
                status.Fine? && Valid() && Abstract() == old(Abstract())
                && sendServer.packages == old(sendServer.packages)
    {
      ghost var served;
      match packet {
        case CServerEnter(nickname) => status, served := ServerEnter(session, nickname);
        case CServerExit => status, served := ServerExit(session);
        case CLobbyRoomInfo => status, served := RoomList(session);
        case CRoomCreate(name) => status, served := RoomCreate(session, name);
        case CRoomEnter(rid) => status, served := RoomEnter(session, rid);
        case CRoomExit => status, served := RoomExit(session);
        case CUnicast(recver, text) => status, served := Whisper(session, recver, text);
        case CMulticast(text) => status, served := Multicast(session, text);
        case CBroadcast(text) => status, served := Broadcast(session, text);
        case _ => return Fine, None;
      }
      op := Some(served);
    }

    /** The objects are what the requests `ops` make of the initial ones, and the packages pushed
        since the queue was `queue` are those of these requests. */
    ghost predicate Stands(ops: seq<Op>, queue: seq<SendPackage>)
      reads this, uMgr, rMgr, uMgr.known, uMgr.userList.Values, rMgr.roomList.Values, sendServer
    {
      Run(ops) && Valid() && Abstract() == After(ops) && sendServer.packages == queue + Log(ops)
    }

    /** How an event must be taken after the requests `before`: `ops` are the requests then. */
    ghost predicate Takes(e: Event, before: seq<Op>, queue: seq<SendPackage>, status: Status, ops: seq<Op>)
      reads this, uMgr, rMgr, uMgr.known, uMgr.userList.Values, rMgr.roomList.Values, sendServer
    {
      && (status.Fine? ==> Stands(ops, queue) && GoesOn(e, before, ops))
      && (status.Crash? ==> ops == before && Run(ops) && MayFault(After(ops), e))
    }

    lemma AnswerTakes(e: Event, before: seq<Op>, queue: seq<SendPackage>, status: Status, op: Op)
      requires Run(before) && Causes(e, op)
      requires Answers(After(before), queue + Log(before), op, status)
      ensures Takes(e, before, queue, status, if status.Fine? then before + [op] else before)
    {
      if status.Fine? {
        OneRequestOn(e, before, queue, op);
      } else {
        Faulting(After(before), e, op);
      }
    }

    /** A connection; `sessions` are the pointers to the sessions in the hands of the input side. */
    method Accept(at: Address, sessions: seq<UserObject>, ghost before: seq<Op>, ghost queue: seq<SendPackage>)
      returns (more: seq<UserObject>, ghost ops: seq<Op>)
      requires Stands(before, queue) && AllSessions(sessions, uMgr.known, uMgr.userId)
      requires CanHappen(After(before), Accepted(at))
      modifies uMgr, rMgr`userInLobby
      ensures fresh(uMgr.known - old(uMgr.known))
      ensures Takes(Accepted(at), before, queue, Fine, ops) && AllSessions(more, uMgr.known, uMgr.userId)
    {
      var user;
      ghost var op;
      user, op := CreateUser(at);
      AnswerTakes(Accepted(at), before, queue, Fine, op);
      more, ops := sessions + [user], before + [op];
    }

    method Break(uid: Uid, ghost before: seq<Op>, ghost queue: seq<SendPackage>)
      returns (status: Status, ghost ops: seq<Op>)
      requires Stands(before, queue)
      modifies uMgr`userList, rMgr`userInLobby, uMgr.known, rMgr.roomList.Values, sendServer`packages
      ensures Takes(Broken(uid), before, queue, status, ops)
    {
      ghost var op;
      status, op := Disconnect(uid);
      AnswerTakes(Broken(uid), before, queue, status, op);
      ops := if status.Fine? then before + [op] else before;
    }

    method Receive(session: UserObject, packet: Packet, ghost before: seq<Op>, ghost queue: seq<SendPackage>)
      returns (status: Status, ghost ops: seq<Op>)
      requires Stands(before, queue) && session in uMgr.known
      modifies uMgr`userList, rMgr, uMgr.known, rMgr.roomList.Values, sendServer`packages
      ensures fresh(rMgr.roomList.Values - old(rMgr.roomList.Values))
      ensures Takes(Received(session.id, packet), before, queue, status, ops)
    {
      ghost var op;
      status, op := Process(session, packet);
      ops := before;
      if op.Some? {
        AnswerTakes(Received(session.id, packet), before, queue, status, op.value);
        ops := if status.Fine? then before + [op.value] else before;
      }
    }

    /** A connection, if the memory is free and an id is left. */
    method TryAccept(at: Address, sessions: seq<UserObject>, ghost before: seq<Op>, ghost queue: seq<SendPackage>)
      returns (taken: bool, more: seq<UserObject>, ghost ops: seq<Op>)
      requires Stands(before, queue) && AllSessions(sessions, uMgr.known, uMgr.userId)
      modifies uMgr, rMgr`userInLobby
      ensures fresh(uMgr.known - old(uMgr.known))
      ensures taken <==> CanHappen(After(before), Accepted(at))
      ensures taken ==> Takes(Accepted(at), before, queue, Fine, ops)
      ensures !taken ==> ops == before && Stands(ops, queue)
      ensures AllSessions(more, uMgr.known, uMgr.userId)
    {
      more, ops := sessions, before;
      var resident := Resident(at);
      taken := resident == null && uMgr.userId < 0xFFFF_FFFF;
      if taken {
        more, ops := Accept(at, sessions, before, queue);
      }
    }

    /** A packet, if there is such a session. */
    method TryReceive(uid: Uid, packet: Packet, sessions: seq<UserObject>,
                      ghost before: seq<Op>, ghost queue: seq<SendPackage>)
      returns (status: Status, taken: bool, ghost ops: seq<Op>)
      requires Stands(before, queue) && AllSessions(sessions, uMgr.known, uMgr.userId)
      modifies uMgr`userList, rMgr, uMgr.known, rMgr.roomList.Values, sendServer`packages
      ensures fresh(rMgr.roomList.Values - old(rMgr.roomList.Values))
      ensures taken <==> CanHappen(After(before), Received(uid, packet))
      ensures taken ==> Takes(Received(uid, packet), before, queue, status, ops)
      ensures !taken ==> status.Fine? && ops == before && Stands(ops, queue)
    {
      status, taken, ops := Fine, 0 < uid < uMgr.userId, before;
      if taken {
        status, ops := Receive(sessions[uid - 1], packet, before, queue);
      }
    }

    /** One event. */
    method Take(e: Event, sessions: seq<UserObject>, ghost before: seq<Op>, ghost queue: seq<SendPackage>)
      returns (status: Status, taken: bool, more: seq<UserObject>, ghost ops: seq<Op>)
      requires Stands(before, queue) && AllSessions(sessions, uMgr.known, uMgr.userId)
      modifies uMgr, rMgr, uMgr.known, rMgr.roomList.Values, sendServer`packages
      ensures fresh(uMgr.known - old(uMgr.known))
      ensures fresh(rMgr.roomList.Values - old(rMgr.roomList.Values))
      ensures taken <==> CanHappen(After(before), e)
      ensures taken ==> Takes(e, before, queue, status, ops)
      ensures !taken ==> status.Fine? && ops == before && Stands(ops, queue)
      ensures status.Fine? ==> AllSessions(more, uMgr.known, uMgr.userId)
    {
      more, taken, status, ops := sessions, true, Fine, before;
      match e {
        case Accepted(at) => taken, more, ops := TryAccept(at, sessions, before, queue);
        case Broken(uid) => status, ops := Break(uid, before, queue);
        case Received(uid, packet) => status, taken, ops := TryReceive(uid, packet, sessions, before, queue);
      }
    }

    /** `n` events of a script are taken, and these are the requests they caused. */
    ghost predicate Lives(script: seq<Event>, n: nat, sessions: seq<UserObject>, ops: seq<Op>, queue: seq<SendPackage>)
      reads this, uMgr, rMgr, uMgr.known, uMgr.userList.Values, rMgr.roomList.Values, sendServer
    {
      && n <= |script| && Tells(script[..n], ops) && Stands(ops, queue)
      && AllSessions(sessions, uMgr.known, uMgr.userId)
    }

    lemma LivesAtFirst(script: seq<Event>, queue: seq<SendPackage>)
      requires Valid() && Abstract() == Initial() && uMgr.userId == 1 && sendServer.packages == queue
      ensures Lives(script, 0, [], [], queue)
    {
      assert queue + [] == queue;
    }

    /** The same as the next event of a script. */
    method TakeNext(script: seq<Event>, n: nat, sessions: seq<UserObject>,
                    ghost before: seq<Op>, ghost queue: seq<SendPackage>)
      returns (status: Status, taken: bool, more: seq<UserObject>, ghost ops: seq<Op>)
      requires n < |script| && Lives(script, n, sessions, before, queue)
      modifies uMgr, rMgr, uMgr.known, rMgr.roomList.Values, sendServer`packages
      ensures fresh(uMgr.known - old(uMgr.known))
      ensures fresh(rMgr.roomList.Values - old(rMgr.roomList.Values))
      ensures status.Fine? ==> Lives(script, if taken then n + 1 else n, more, ops, queue)
      ensures status.Fine? && !taken ==> !CanHappen(After(ops), script[n])
      ensures status.Crash? ==> ops == before && MayFault(After(before), script[n])
    {
      var e := script[n];
      status, taken, more, ops := Take(e, sessions, before, queue);
      if taken && status.Fine? {
        TellsOneMore(script, n, before, ops);
      }
    }

    // ---- The list to the lobby ----

    /** The user lying at an address, if one does: what a pointer with that address leads to. */
    method Resident(at: Address) returns (p: UserObject?)
      requires Valid()
      ensures p != null ==> p in uMgr.userList.Values && p.address == at
      ensures p == null <==> at !in Occupied(Abstract())
    {
      if k :| k in uMgr.userList && uMgr.userList[k].address == at {
        p := uMgr.userList[k];
        assert k in UserValues() && UserValues()[k].at == at;
      } else {
        p := null;
        assert forall k :: k in UserValues() ==> UserValues()[k].at == uMgr.userList[k].address;
      }
    }

    /** `SendRoomListToAll`, which no request calls: whether it meets a deleted user, and whom
        it tells otherwise. */
    method SendRoomListToAll() returns (status: Status, ghost order: seq<Uid>)
      requires Valid()
      modifies sendServer`packages
      ensures status.Crash? <==> ListToAll(old(Abstract()), order).Fault?
      ensures status.Fine? ==> OneAtEach(old(UserValues()), order, rMgr.userInLobby)
      ensures status.Fine? ==>
                sendServer.packages == old(sendServer.packages) + ListToAll(old(Abstract()), order).out
    {
      var packet := RoomPacket();
      status, order := WalkLobby(packet);
    }

    method WalkLobby(packet: Packet) returns (status: Status, ghost order: seq<Uid>)
      requires Valid()
      modifies sendServer`packages
      ensures status.Fine? <==> rMgr.userInLobby <= old(Occupied(Abstract()))
      ensures status.Fine? ==> OneAtEach(old(UserValues()), order, rMgr.userInLobby)
      ensures status.Fine? ==> sendServer.packages == old(sendServer.packages) + Cast(order, packet)
    {
      ghost var w, queue := Abstract(), sendServer.packages;
      var lobby := rMgr.userInLobby;
      var todo := lobby;
      order := [];
      assert lobby - todo == {};
      while todo != {}
        invariant Valid() && Abstract() == w && WalkedSoFar(w, lobby, todo, order)
        invariant sendServer.packages == queue + Cast(order, packet)
        decreases todo
      {
        var at :| at in todo;
        order :- TellOne(at, packet, lobby, todo, queue, order);
        todo := todo - {at};
      }
      assert lobby - todo == lobby;
      status := Fine;
    }

    /** One turn of that loop. */
    method TellOne(at: Address, packet: Packet, lobby: set<Address>, todo: set<Address>,
                   ghost queue: seq<SendPackage>, ghost before: seq<Uid>)
      returns (status: Status, ghost order: seq<Uid>)
      requires Valid() && at in todo && WalkedSoFar(Abstract(), lobby, todo, before)
      requires sendServer.packages == queue + Cast(before, packet)
      modifies sendServer`packages
      ensures Valid() && Abstract() == old(Abstract())
      ensures status.Crash? ==> !(lobby <= old(Occupied(Abstract())))
      ensures status.Fine? ==>
                && WalkedSoFar(old(Abstract()), lobby, todo - {at}, order)
                && sendServer.packages == queue + Cast(order, packet)
    {
      ghost var w := Abstract();
      order := before;
      ghost var uid;
      uid :- TellResident(at, packet);
      CastOneMore(before, uid, packet);
      OneAtOneMore(w.users, before, uid, lobby - todo);
      assert lobby - (todo - {at}) == lobby - todo + {at};
      order := before + [uid];
      status := Fine;
    }

    method TellResident(at: Address, packet: Packet) returns (status: Status, ghost uid: Uid)
      requires Valid()
      modifies sendServer`packages
      ensures Valid() && Abstract() == old(Abstract())
      ensures status.Fine? <==> at in Occupied(old(Abstract()))
      ensures status.Fine? ==>
                && uid in old(UserValues()) && old(UserValues())[uid].at == at
                && sendServer.packages == old(sendServer.packages) + [To(uid, packet)]
    {
      uid := 0;
      var resident := Resident(at);
      var user :- Use(resident);
      sendServer.PushPackage(To(user.id, packet));
      return Fine, user.id;
    }

    /** The packet both list functions build. */
    method RoomPacket() returns (p: Packet)
      requires Valid()
      ensures p == RoomInfo(RoomValues())
    {
      var ids, names, k: nat := [], [], 0;
      while k < 0x1_0000
        invariant 0 <= k <= 0x1_0000 && ids == IdsBelow(RoomValues(), k)
        invariant names == Names(RoomValues(), ids)
      {
        if k in rMgr.roomList {
          assert (ids + [k])[..|ids|] == ids;
          ids := ids + [k];
          names := names + [rMgr.roomList[k].name];
        }
        k := k + 1;
      }
      p := SLobbyRoomInfo(|ids| % 0x1_0000, ids, names);
    }
  }

  // ---- Whole lives of the server ----

  /** What reaches the managers: a connection accepted, one that broke, a packet received. */
  datatype Event = Accepted(at: Address) | Broken(uid: Uid) | Received(uid: Uid, packet: Packet)

  /** The kinds in `processFunc_`. */
  predicate Handled(p: Packet) {
    || p.CServerEnter? || p.CServerExit? || p.CLobbyRoomInfo? || p.CRoomCreate? || p.CRoomEnter?
    || p.CRoomExit? || p.CUnicast? || p.CMulticast? || p.CBroadcast?
  }

  /** `op` is the request that the packet makes, whatever its labels are. */
  predicate Asks(uid: Uid, p: Packet, op: Op) {
    match p
    case CServerEnter(nickname) => op == ServerEnter(uid, nickname)
    case CServerExit => op.ServerExit? && op.uid == uid
    case CLobbyRoomInfo => op == RoomList(uid)
    case CRoomCreate(name) => op == RoomCreate(uid, name)
    case CRoomEnter(rid) => op.RoomEnter? && op.uid == uid && op.rid == rid
    case CRoomExit => op.RoomExit? && op.uid == uid
    case CUnicast(recver, text) => op.Whisper? && op.uid == uid && op.recver == recver && op.text == text
    case CMulticast(text) => op.Multicast? && op.uid == uid && op.text == text
    case CBroadcast(text) => op.Broadcast? && op.uid == uid && op.text == text
    case _ => false
  }

  /** The packet a client sends to make a request. */
  function PacketFor(op: Op): Packet
    requires !op.Connect? && !op.Disconnect?
  {
    match op
    case ServerEnter(_, nickname) => CServerEnter(nickname)
    case ServerExit(_, _) => CServerExit
    case RoomList(_) => CLobbyRoomInfo
    case RoomCreate(_, name) => CRoomCreate(name)
    case RoomEnter(_, rid, _) => CRoomEnter(rid)
    case RoomExit(_, _) => CRoomExit
    case Whisper(_, recver, text, _) => CUnicast(recver, text)
    case Multicast(_, text, _) => CMulticast(text)
    case Broadcast(_, text, _) => CBroadcast(text)
  }

  /** A packet asks for exactly the requests that are made by sending it. */
  lemma AsksExactly(uid: Uid, p: Packet, op: Op)
    ensures Asks(uid, p, op) <==> !op.Connect? && !op.Disconnect? && op.uid == uid && PacketFor(op) == p
    ensures Asks(uid, p, op) ==> Handled(p)
  {
  }

  predicate Causes(e: Event, op: Op) {
    match e
    case Accepted(at) => op == Connect(at)
    case Broken(uid) => op.Disconnect? && op.uid == uid
    case Received(uid, packet) => Asks(uid, packet, op)
  }

  predicate Silent(e: Event) {
    e.Received? && !Handled(e.packet)
  }

  /** What cannot happen: a user at memory in use, or beyond the last id; a packet from a session
      that was never made. */
  predicate CanHappen(w: World, e: Event) {
    match e
    case Accepted(at) => w.nextUid < 0xFFFF_FFFF && at !in Occupied(w)
    case Broken(_) => true
    case Received(uid, _) => 0 < uid < w.nextUid
  }

  /** An event that does meet a bad pointer, for some order of walking the sets. */
  ghost predicate MayFault(w: World, e: Event) {
    exists op :: Causes(e, op) && Legal(w, op) && Apply(w, op).Fault?
  }

  /** `ops` are the requests that the events cause, one for each that is not silent, in order. */
  predicate Tells(script: seq<Event>, ops: seq<Op>)
    decreases |script|
  {
    if script == [] then ops == []
    else
      var n, last := |script| - 1, script[|script| - 1];
      if Silent(last) then Tells(script[..n], ops)
      else ops != [] && Causes(last, ops[|ops| - 1]) && Tells(script[..n], ops[..|ops| - 1])
  }

  /** `ops` is `before` with what the event causes. */
  ghost predicate GoesOn(e: Event, before: seq<Op>, ops: seq<Op>) {
    if Silent(e) then ops == before
    else ops != [] && ops[..|ops| - 1] == before && Causes(e, ops[|ops| - 1])
  }

  lemma {:induction false} OneRequestOn(e: Event, before: seq<Op>, queue: seq<SendPackage>, op: Op)
    requires Run(before) && Causes(e, op) && Legal(After(before), op) && Apply(After(before), op).Done?
    ensures GoesOn(e, before, before + [op])
    ensures Run(before + [op]) && After(before + [op]) == Apply(After(before), op).world
    ensures queue + Log(before + [op]) == queue + Log(before) + Apply(After(before), op).out
  {
    CausersSpeak(e, op);
    RunGrows(before, op);
  }

  lemma {:induction false} Faulting(w: World, e: Event, op: Op)
    requires Causes(e, op) && Legal(w, op) && Apply(w, op).Fault?
    ensures MayFault(w, e)
  {
  }

  lemma {:induction false} CausersSpeak(e: Event, op: Op)
    requires Causes(e, op)
    ensures !Silent(e)
  {
  }

  lemma {:induction false} TellsOneMore(script: seq<Event>, n: nat, before: seq<Op>, ops: seq<Op>)
    requires n < |script| && Tells(script[..n], before) && GoesOn(script[n], before, ops)
    ensures Tells(script[..n + 1], ops)
  {
    assert script[..n + 1][..n] == script[..n];
  }

  /** One session for each id handed out. */
  ghost predicate AllSessions(sessions: seq<UserObject>, known: set<UserObject>, userId: Uid) {
    |sessions| + 1 == userId && forall k :: 0 <= k < |sessions| ==> sessions[k] in known && sessions[k].id == k + 1
  }

  /** A life of the server, from its construction on: the events of a script take effect one
      after the other, up to one that cannot happen or the first use of a bad pointer. Until then
      the objects stand for the world after a run of the requests told, and the packages pushed
      are its log. */
  method Serve(script: seq<Event>, sendServer: SendServer)
    returns (server: LogicProcess, served: nat, status: Status, ghost ops: seq<Op>)
    modifies sendServer`packages
    ensures served <= |script| && Tells(script[..served], ops) && Run(ops)
    ensures server.sendServer == sendServer && (status.Fine? ==> server.Stands(ops, old(sendServer.packages)))
    ensures status.Fine? && served < |script| ==> !CanHappen(After(ops), script[served])
    ensures status.Crash? ==> served < |script| && MayFault(After(ops), script[served])
  {
    server := new LogicProcess(sendServer);
    ghost var queue := sendServer.packages;
    var sessions, taken := [], true;
    served, status, ops := 0, Fine, [];
    server.LivesAtFirst(script, queue);
    while served < |script|
      invariant 0 <= served <= |script| && status.Fine? && server.sendServer == sendServer
      invariant server.Lives(script, served, sessions, ops, queue)
      invariant fresh(server.uMgr) && fresh(server.rMgr) && fresh(server.uMgr.known)
      invariant fresh(server.rMgr.roomList.Values)
    {
      status, taken, sessions, ops := server.TakeNext(script, served, sessions, ops, queue);
      if !taken || status.Crash? {
        return;
      }
      served := served + 1;
    }
  }

  /** The walk over the lobby set has still `todo` before it and told `order`. */
  ghost predicate WalkedSoFar(w: World, lobby: set<Address>, todo: set<Address>, order: seq<Uid>) {
    todo <= lobby && lobby - todo <= Occupied(w) && OneAtEach(w.users, order, lobby - todo)
  }

  lemma OneAtOneMore(users: map<Uid, User>, order: seq<Uid>, uid: Uid, addresses: set<Address>)
    requires OneAtEach(users, order, addresses) && uid in users && users[uid].at !in addresses
    ensures OneAtEach(users, order + [uid], addresses + {users[uid].at})
  {
  }

  /** The world with one room more, unless the id is in use. */
  ghost function WithRoom(w: World, name: Str): World {
    w.(rooms := if w.nextRid in w.rooms then w.rooms else w.rooms[w.nextRid := Room(name, {})],
       nextRid := (w.nextRid + 1) % 0x1_0000)
  }

  lemma CreationApplies(w: World, uid: Uid, name: Str)
    requires 0 < uid < w.nextUid
    ensures Legal(w, Op.RoomCreate(uid, name))
    ensures Apply(w, Op.RoomCreate(uid, name)) ==
            if uid !in w.users then Fault
            else Done(WithRoom(w, name), [To(uid, RoomInfo(WithRoom(w, name).rooms))])
  {
  }

  ghost predicate CastDone(rooms: map<Rid, Room>, k: nat, orders: map<Rid, seq<Uid>>) {
    && (forall r :: r in orders <==> r in rooms && r < k)
    && (forall r :: r in orders ==> Enumerates(orders[r], rooms[r].members))
  }

  lemma BroadcastIsLegal(w: World, uid: Uid, text: Str, orders: map<Rid, seq<Uid>>)
    requires 0 < uid < w.nextUid && orders.Keys == w.rooms.Keys
    requires forall r :: r in orders ==> Enumerates(orders[r], w.rooms[r].members)
    ensures Legal(w, Op.Broadcast(uid, text, orders))
    ensures Apply(w, Op.Broadcast(uid, text, orders)).Fault? <==> uid !in w.users || AnyRoomStale(w)
  {
  }

  lemma EntryFault(w: World, op: Op)
    requires op.RoomEnter? && 0 < op.uid < w.nextUid
    requires op.rid in w.rooms ==> Enumerates(op.order, w.rooms[op.rid].members + {op.uid})
    ensures Legal(w, op)
    ensures Apply(w, op).Fault? <==>
            op.rid !in w.rooms || op.uid !in w.users || !(w.rooms[op.rid].members <= w.users.Keys)
  {
  }

  /** Leaving a room or casting to it fails for a stranded user. */
  lemma StrandedFault(w: World, op: Op)
    requires op.RoomExit? || op.Multicast?
    requires 0 < op.uid < w.nextUid && (InRoomOf(w, op.uid) ==> Enumerates(op.order, MembersAround(w, op.uid)))
    ensures Legal(w, op) && (Apply(w, op).Fault? <==> Stranded(w, op.uid))
  {
  }

  lemma WhisperIsLegal(w: World, uid: Uid, recver: Str, text: Str, target: Option<Uid>)
    requires 0 < uid < w.nextUid && FoundFirst(w.users, recver, target)
    ensures Legal(w, Op.Whisper(uid, recver, text, target))
  {
  }

  lemma CastToAll(rooms: map<Rid, Room>, orders: map<Rid, seq<Uid>>)
    requires CastDone(rooms, RidCount(), orders)
    ensures orders.Keys == rooms.Keys
  {
  }

  /** The rooms below `k` have been told `p`, each in its order, since the queue was `queue`. */
  ghost predicate Told(rooms: map<Rid, Room>, k: nat, orders: map<Rid, seq<Uid>>, p: Packet,
                       queue: seq<SendPackage>, now: seq<SendPackage>)
    requires k <= RidCount()
  {
    CastDone(rooms, k, orders) && now == queue + BroadcastOut(orders, k, p)
  }

  lemma CastOneRoomMore(rooms: map<Rid, Room>, k: Rid, orders: map<Rid, seq<Uid>>, order: seq<Uid>, p: Packet)
    requires CastDone(rooms, k, orders) && k in rooms && Enumerates(order, rooms[k].members)
    ensures CastDone(rooms, k + 1, orders[k := order])
    ensures BroadcastOut(orders[k := order], k + 1, p) == BroadcastOut(orders, k, p) + Cast(order, p)
  {
    BroadcastBelow(orders, k, k, order, p);
  }

  lemma {:induction false} BroadcastBelow(orders: map<Rid, seq<Uid>>, k: Rid, j: nat, order: seq<Uid>, p: Packet)
    requires j <= k
    ensures BroadcastOut(orders[k := order], j, p) == BroadcastOut(orders, j, p)
  {
    if j > 0 {
      BroadcastBelow(orders, k, j - 1, order, p);
    }
  }

  lemma {:induction false} OrderExists(s: set<Uid>)
    ensures exists order :: Enumerates(order, s)
  {
    if s == {} {
      assert Enumerates([], s);
    } else {
      var x :| x in s;
      OrderExists(s - {x});
      var order :| Enumerates(order, s - {x});
      assert Enumerates(order + [x], s);
    }
  }

  ghost function SomeOrders(rooms: map<Rid, Room>): (orders: map<Rid, seq<Uid>>)
    ensures orders.Keys == rooms.Keys
    ensures forall r :: r in orders ==> Enumerates(orders[r], rooms[r].members)
  {
    map r | r in rooms :: SomeOrder(rooms[r].members)
  }

  ghost function SomeOrder(s: set<Uid>): (order: seq<Uid>)
    ensures Enumerates(order, s)
  {
    OrderExists(s);
    var order :| Enumerates(order, s);
    order
  }
}
