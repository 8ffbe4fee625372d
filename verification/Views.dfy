/** What a client makes of the packets pushed to its session (ClientFunc.cpp, RoomDisplay.h),
    and how that view relates to the server's membership state. */
module Views {
  import opened Options
  import opened Sequences
  import opened Bytes
  import opened Packets
  import opened Chat

  // ---- The packets of one session ----

  /** The packets addressed to `u`'s session, in order. */
  function ToSession(ps: seq<SendPackage>, u: Uid): seq<Packet> {
    if ps == [] then []
    else
      var last := ps[|ps| - 1];
      ToSession(ps[..|ps| - 1], u)
      + if last.session == Some(u) && last.packet.Some? then [last.packet.value] else []
  }

  lemma {:induction false} ToSessionConcat(a: seq<SendPackage>, b: seq<SendPackage>, u: Uid)
    ensures ToSession(a + b, u) == ToSession(a, u) + ToSession(b, u)
  {
    if b == [] {
      assert a + b == a;
    } else {
      var n := |b| - 1;
      assert (a + b)[..|a + b| - 1] == a + b[..n];
      ToSessionConcat(a, b[..n], u);
    }
  }

  lemma {:induction false} TailGrows(log: seq<SendPackage>, out: seq<SendPackage>, at: nat, u: Uid)
    requires at <= |log|
    ensures ToSession((log + out)[at..], u) == ToSession(log[at..], u) + ToSession(out, u)
  {
    assert (log + out)[at..] == log[at..] + out;
    ToSessionConcat(log[at..], out, u);
  }

  /** A cast reaches each member's session once and no other session. */
  lemma {:induction false} CastToSession(order: seq<Uid>, p: Packet, u: Uid)
    requires Distinct(order)
    ensures ToSession(Cast(order, p), u) == if u in order then [p] else []
  {
    if order != [] {
      var n := |order| - 1;
      assert Cast(order, p)[..n] == Cast(order[..n], p);
      CastToSession(order[..n], p, u);
      InLast(order, u);
    }
  }

  lemma {:induction false} InLast(order: seq<Uid>, u: Uid)
    requires Distinct(order) && order != []
    ensures u in order <==> u in order[..|order| - 1] || u == order[|order| - 1]
    ensures order[|order| - 1] !in order[..|order| - 1]
  {
    SplitEnd(order);
  }

  lemma {:induction false} WithoutOne(order: seq<Uid>, uid: Uid)
    requires Distinct(order)
    ensures Distinct(Without(order, uid))
    ensures forall x :: x in Without(order, uid) <==> x in order && x != uid
  {
    if order != [] {
      SplitStart(order);
      WithoutOne(order[1..], uid);
      DistinctCons(order[0], Without(order[1..], uid));
    }
  }

  lemma {:induction false} SplitStart(order: seq<Uid>)
    requires Distinct(order) && order != []
    ensures Distinct(order[1..]) && order[0] !in order[1..]
    ensures forall x :: x in order <==> x == order[0] || x in order[1..]
  {
    var first, rest := order[0], order[1..];
    assert order == [first] + rest;
    assert forall i :: 0 <= i < |rest| ==> rest[i] == order[i + 1];
  }

  lemma {:induction false} DistinctCons(x: Uid, rest: seq<Uid>)
    requires Distinct(rest) && x !in rest
    ensures Distinct([x] + rest)
  {
    var all := [x] + rest;
    assert forall i :: 0 < i < |all| ==> all[i] == rest[i - 1];
  }

  lemma {:induction false} TwoToSession(p: SendPackage, q: SendPackage, u: Uid)
    ensures ToSession([p, q], u) == ToSession([p], u) + ToSession([q], u)
  {
    assert [p, q] == [p] + [q];
    ToSessionConcat([p], [q], u);
  }

  /** Entering a room tells every member, the newcomer included, and then names the room to
      the newcomer alone. */
  lemma {:induction false} EnterFanOut(order: seq<Uid>, members: set<Uid>, uid: Uid, nickname: Str, roomName: Str, u: Uid)
    requires Enumerates(order, members + {uid})
    ensures ToSession(EnterOut(order, uid, nickname, roomName), u) ==
            if u == uid then [SRoomEnter(uid, nickname), SRoomName(roomName)]
            else if u in members then [SRoomEnter(uid, nickname)] else []
  {
    var enter := SRoomEnter(uid, nickname);
    CastToMembers(order, members + {uid}, enter, u);
    OneMoreToSession(Cast(order, enter), uid, SRoomName(roomName), u);
    assert EnterOut(order, uid, nickname, roomName) == Cast(order, enter) + [To(uid, SRoomName(roomName))];
  }

  lemma {:induction false} CastToMembers(order: seq<Uid>, members: set<Uid>, p: Packet, u: Uid)
    requires Enumerates(order, members)
    ensures ToSession(Cast(order, p), u) == if u in members then [p] else []
  {
    CastToSession(order, p, u);
  }

  lemma {:induction false} OneMoreToSession(ps: seq<SendPackage>, uid: Uid, p: Packet, u: Uid)
    ensures ToSession(ps + [To(uid, p)], u) == ToSession(ps, u) + if u == uid then [p] else []
  {
    ToSessionConcat(ps, [To(uid, p)], u);
    OneToSession(uid, p, u);
  }

  lemma {:induction false} OneToSession(uid: Uid, p: Packet, u: Uid)
    ensures ToSession([To(uid, p)], u) == if u == uid then [p] else []
  {
    assert [To(uid, p)][..0] == [];
  }

  /** Leaving a room tells every member, the leaver only when it is not excluded. */
  lemma {:induction false} ExitFanOut(order: seq<Uid>, members: set<Uid>, uid: Uid, senderExclusive: bool, u: Uid)
    requires Enumerates(order, members)
    ensures ToSession(ExitOut(order, uid, senderExclusive), u) ==
            if u in members && !(senderExclusive && u == uid) then [SRoomExit(uid)] else []
  {
    WithoutOne(order, uid);
    CastToSession(if senderExclusive then Without(order, uid) else order, SRoomExit(uid), u);
  }

  /** The same for a request. */
  lemma {:induction false} EntryNews(w: World, op: Op, u: Uid)
    requires op.RoomEnter? && Legal(w, op) && Apply(w, op).Done?
    ensures var enter := SRoomEnter(op.uid, w.users[op.uid].nickname);
            ToSession(Apply(w, op).out, u) ==
            if u == op.uid then [enter, SRoomName(w.rooms[op.rid].name)]
            else if u in w.rooms[op.rid].members then [enter] else []
  {
    EnterFanOut(op.order, w.rooms[op.rid].members, op.uid, w.users[op.uid].nickname, w.rooms[op.rid].name, u);
  }

  lemma {:induction false} ExitNews(w: World, op: Op, u: Uid)
    requires op.RoomExit? || op.ServerExit? || op.Disconnect?
    requires InRoomOf(w, op.uid) && Legal(w, op) && Apply(w, op).Done?
    ensures ToSession(Apply(w, op).out, u) ==
            if u in MembersAround(w, op.uid) && (op.RoomExit? || u != op.uid) then [SRoomExit(op.uid)] else []
  {
    ExitPushes(w, op);
    ExitFanOut(op.order, MembersAround(w, op.uid), op.uid, !op.RoomExit?, u);
  }

  lemma {:induction false} ExitPushes(w: World, op: Op)
    requires op.RoomExit? || op.ServerExit? || op.Disconnect?
    requires InRoomOf(w, op.uid) && Legal(w, op) && Apply(w, op).Done?
    ensures Enumerates(op.order, MembersAround(w, op.uid))
    ensures Apply(w, op).out == ExitOut(op.order, op.uid, !op.RoomExit?)
  {
  }

  // ---- The client ----

  datatype ClientState = Login | Lobby | InRoom(players: map<Uid, Str>)

  /** One received packet: `F_SERVER_ENTER_OK`, `F_ROOM_ENTER` and `F_ROOM_EXIT`; no other
      packet changes the client's state or its list of players. */
  function Receive(me: Uid, c: ClientState, p: Packet): ClientState {
    match p
    case SServerEnterOk(_) => Lobby
    case SRoomEnter(uid, name) =>
      (match c
       case Login => Login
       case Lobby => InRoom(map[uid := name])
       case InRoom(players) => InRoom(players[uid := name]))
    case SRoomExit(uid) =>
      if uid == me then Lobby
      else if c.InRoom? then InRoom(c.players - {uid})
      else c
    case _ => c
  }

  function ReceiveAll(me: Uid, c: ClientState, ps: seq<Packet>): ClientState {
    if ps == [] then c else Receive(me, ReceiveAll(me, c, ps[..|ps| - 1]), ps[|ps| - 1])
  }

  function View(me: Uid, ps: seq<Packet>): ClientState {
    ReceiveAll(me, Login, ps)
  }

  lemma {:induction false} ReceiveConcat(me: Uid, c: ClientState, a: seq<Packet>, b: seq<Packet>)
    ensures ReceiveAll(me, c, a + b) == ReceiveAll(me, ReceiveAll(me, c, a), b)
  {
    if b == [] {
      assert a + b == a;
    } else {
      var n := |b| - 1;
      assert (a + b)[..|a + b| - 1] == a + b[..n];
      ReceiveConcat(me, c, a, b[..n]);
    }
  }

  predicate Neutral(p: Packet) {
    !p.SServerEnterOk? && !p.SRoomEnter? && !p.SRoomExit?
  }

  predicate AllNeutral(ps: seq<Packet>) {
    forall i :: 0 <= i < |ps| ==> Neutral(ps[i])
  }

  lemma {:induction false} NeutralChangesNothing(me: Uid, c: ClientState, ps: seq<Packet>)
    requires AllNeutral(ps)
    ensures ReceiveAll(me, c, ps) == c
  {
    if ps != [] {
      NeutralChangesNothing(me, c, ps[..|ps| - 1]);
    }
  }

  // ---- The view a client ought to have ----

  /** Whether the run contains a `ServerEnter` of `u`. */
  ghost predicate Greeted(ops: seq<Op>, u: Uid) {
    exists i :: 0 <= i < |ops| && ops[i].ServerEnter? && ops[i].uid == u
  }

  /** The position of `u`'s latest `RoomEnter`, -1 if there is none. */
  function LastEntry(ops: seq<Op>, u: Uid): (i: int)
    ensures -1 <= i < |ops|
  {
    if ops == [] then -1
    else
      var op := ops[|ops| - 1];
      if op.RoomEnter? && op.uid == u then |ops| - 1 else LastEntry(ops[..|ops| - 1], u)
  }

  /** The nickname under which `u` was announced at its latest `RoomEnter`. */
  ghost function EntryName(ops: seq<Op>, u: Uid): Str
    requires Run(ops)
  {
    if ops == [] then []
    else
      var n := |ops| - 1;
      if ops[n].RoomEnter? && ops[n].uid == u then After(ops[..n]).users[u].nickname
      else EntryName(ops[..n], u)
  }

  /** The members of `u`'s room that entered with or after `u`, under their entry names. */
  ghost function Companions(ops: seq<Op>, u: Uid, members: set<Uid>): map<Uid, Str>
    requires Run(ops)
  {
    map v | v in members && LastEntry(ops, v) >= LastEntry(ops, u) :: EntryName(ops, v)
  }

  ghost function Expected(ops: seq<Op>, u: Uid): ClientState
    requires Run(ops) && u in After(ops).users
  {
    var w := After(ops);
    if !Greeted(ops, u) then Login
    else match w.users[u].room
      case None => Lobby
      case Some(r) => if r in w.rooms then InRoom(Companions(ops, u, w.rooms[r].members)) else Lobby
  }

  /** What a client does that waits for the answer to each request: it logs in only from outside
      rooms and enters a room only from the lobby. The server checks neither, and the client
      program sends a second request if the key is pressed before the answer is there. */
  ghost predicate Polite(ops: seq<Op>, op: Op)
    requires Run(ops)
  {
    var w := After(ops);
    && (op.RoomEnter? && op.uid in w.users ==> Greeted(ops, op.uid) && w.users[op.uid].room.None?)
    && (op.ServerEnter? && op.uid in w.users ==> w.users[op.uid].room.None?)
  }

  ghost predicate Disciplined(ops: seq<Op>)
    decreases |ops|
  {
    Run(ops) &&
    (ops == [] || (Disciplined(ops[..|ops| - 1]) && Polite(ops[..|ops| - 1], ops[|ops| - 1])))
  }

  lemma {:induction false} DisciplinedAgrees(ops: seq<Op>)
    requires Disciplined(ops)
    ensures NoCrossEnter(ops) && Agreement(After(ops)) && IdsKnown(After(ops))
    ensures forall u :: u in After(ops).users && After(ops).users[u].room.Some? ==> Greeted(ops, u)
    decreases |ops|
  {
    if ops != [] {
      var n := |ops| - 1;
      DisciplinedAgrees(ops[..n]);
      AgreementIsKeptExactly(After(ops[..n]), ops[n]);
      RoomsAreEnteredByGreeted(ops[..n], ops[n]);
      assert ops == ops[..n] + [ops[n]];
    }
  }

  lemma {:induction false} GreetedGrows(ops: seq<Op>, op: Op, u: Uid)
    ensures Greeted(ops + [op], u) <==> Greeted(ops, u) || (op.ServerEnter? && op.uid == u)
  {
    var all := ops + [op];
    assert all[|ops|] == op;
    assert forall i :: 0 <= i < |ops| ==> all[i] == ops[i];
  }

  lemma {:induction false} RoomsAreEnteredByGreeted(ops: seq<Op>, op: Op)
    requires Run(ops) && Apply(After(ops), op).Done? && Polite(ops, op)
    requires forall u :: u in After(ops).users && After(ops).users[u].room.Some? ==> Greeted(ops, u)
    ensures var w' := Apply(After(ops), op).world;
            forall u :: u in w'.users && w'.users[u].room.Some? ==> Greeted(ops + [op], u)
  {
    var w' := Apply(After(ops), op).world;
    forall u | u in w'.users && w'.users[u].room.Some?
      ensures Greeted(ops + [op], u)
    {
      GreetedGrows(ops, op, u);
    }
  }

  /** Ids not handed out yet have no past. */
  lemma {:induction false} NewIdsAreClean(ops: seq<Op>, u: Uid)
    requires Run(ops) && u >= After(ops).nextUid
    ensures !Greeted(ops, u) && ToSession(Log(ops), u) == []
  {
    if ops != [] {
      var n := |ops| - 1;
      RunsKnowIds(ops[..n]);
      NextIdGrows(After(ops[..n]), ops[n]);
      NewIdsAreClean(ops[..n], u);
      assert ops == ops[..n] + [ops[n]];
      StillClean(ops[..n], ops[n], u);
    }
  }

  lemma {:induction false} NextIdGrows(w: World, op: Op)
    requires Apply(w, op).Done?
    ensures Apply(w, op).world.nextUid >= w.nextUid
  {
  }

  lemma {:induction false} StillClean(ops: seq<Op>, op: Op, u: Uid)
    requires Run(ops) && Legal(After(ops), op) && Apply(After(ops), op).Done?
    requires u !in After(ops).users && u >= After(ops).nextUid
    requires !Greeted(ops, u) && ToSession(Log(ops), u) == []
    ensures Run(ops + [op]) && !Greeted(ops + [op], u) && ToSession(Log(ops + [op]), u) == []
  {
    Extend(ops, op);
    GreetedGrows(ops, op, u);
    OnlyUsersAreAddressed(After(ops), op, u);
    ToSessionConcat(Log(ops), Apply(After(ops), op).out, u);
  }

  /** A request pushes packages to connected users only, unless it is the room list request of
      a session that is gone: that alone needs no more of a session than its pointer. */
  lemma {:induction false} OnlyUsersAreAddressed(w: World, op: Op, u: Uid)
    requires Legal(w, op) && Apply(w, op).Done? && u !in w.users
    ensures ToSession(Apply(w, op).out, u) ==
            if op.RoomList? && op.uid == u then [RoomInfo(w.rooms)] else []
  {
    match op {
      case RoomList(_) => ListNews(w, op, u);
      case RoomCreate(_, _) => ListNews(w, op, u);
      case ServerEnter(_, _) => GreetingNews(w, op, u);
      case ServerExit(uid, order) => RemovalOut(w, op, u);
      case Disconnect(uid, order) => RemovalOut(w, op, u);
      case RoomEnter(_, _, _) => EntryNews(w, op, u);
      case RoomExit(_, _) => ExitNews(w, op, u);
      case Whisper(_, _, _, _) => WhisperNews(w, op, u);
      case Multicast(_, _, _) => MulticastNews(w, op, u);
      case Broadcast(_, _, _) => BroadcastSparesTheGone(w, op, u);
      case _ =>
    }
  }

  /** The packages of a `RemoveUser`: one notice to each other member of the room, if any. */
  lemma {:induction false} RemovalOut(w: World, op: Op, u: Uid)
    requires Legal(w, op) && Apply(w, op).Done?
    requires op.ServerExit? || op.Disconnect?
    ensures ToSession(Apply(w, op).out, u) ==
            if InRoomOf(w, op.uid) && u in MembersAround(w, op.uid) && u != op.uid
            then [SRoomExit(op.uid)] else []
  {
    if InRoomOf(w, op.uid) {
      ExitNews(w, op, u);
    }
  }

  /** The rooms below `k` that have `u` among their members. */
  function RoomsWith(rooms: map<Rid, Room>, u: Uid, k: nat): set<Rid> {
    set r | r in rooms && r < k && u in rooms[r].members
  }

  function Copies(p: Packet, n: nat): (ps: seq<Packet>)
    ensures |ps| == n && forall i :: 0 <= i < n ==> ps[i] == p
  {
    seq(n, _ => p)
  }

  /** A broadcast reaches a session once for each room its user is in. */
  lemma {:induction false} BroadcastReaches(rooms: map<Rid, Room>, orders: map<Rid, seq<Uid>>, k: nat, p: Packet, u: Uid)
    requires k <= 0x1_0000
    requires orders.Keys == rooms.Keys && forall r :: r in orders ==> Enumerates(orders[r], rooms[r].members)
    ensures ToSession(BroadcastOut(orders, k, p), u) == Copies(p, |RoomsWith(rooms, u, k)|)
  {
    if k == 0 {
      assert RoomsWith(rooms, u, 0) == {};
    } else {
      BroadcastReaches(rooms, orders, k - 1, p, u);
      BroadcastStep(rooms, orders, k - 1, p, u);
      OneRoomMore(rooms, u, k - 1);
      CopiesOneMore(p, |RoomsWith(rooms, u, k - 1)|);
    }
  }

  lemma {:induction false} CopiesOneMore(p: Packet, n: nat)
    ensures Copies(p, n) + [p] == Copies(p, n + 1) && Copies(p, n) + [] == Copies(p, n)
  {
  }

  lemma {:induction false} BroadcastStep(rooms: map<Rid, Room>, orders: map<Rid, seq<Uid>>, k: nat, p: Packet, u: Uid)
    requires k < 0x1_0000
    requires orders.Keys == rooms.Keys && forall r :: r in orders ==> Enumerates(orders[r], rooms[r].members)
    ensures ToSession(BroadcastOut(orders, k + 1, p), u) ==
            ToSession(BroadcastOut(orders, k, p), u) + if k in rooms && u in rooms[k].members then [p] else []
  {
    var told := if k in orders then Cast(orders[k], p) else [];
    if k in orders {
      CastToMembers(orders[k], rooms[k].members, p, u);
    }
    ToSessionConcat(BroadcastOut(orders, k, p), told, u);
  }

  lemma {:induction false} OneRoomMore(rooms: map<Rid, Room>, u: Uid, k: nat)
    requires k < 0x1_0000
    ensures |RoomsWith(rooms, u, k + 1)| ==
            |RoomsWith(rooms, u, k)| + if k in rooms && u in rooms[k].members then 1 else 0
  {
    assert RoomsWith(rooms, u, k + 1) ==
           RoomsWith(rooms, u, k) + if k in rooms && u in rooms[k].members then {k} else {};
  }

  lemma {:induction false} BroadcastNews(w: World, op: Op, u: Uid)
    requires op.Broadcast? && Legal(w, op) && Apply(w, op).Done?
    ensures ToSession(Apply(w, op).out, u) ==
            Copies(SBroadcast(w.users[op.uid].nickname, op.text), |RoomsWith(w.rooms, u, RidCount())|)
  {
    BroadcastReaches(w.rooms, op.orders, RidCount(), SBroadcast(w.users[op.uid].nickname, op.text), u);
  }

  /** Under agreement that is once for a user in a room and never for the others. */
  lemma {:induction false} BroadcastNewsOnce(w: World, op: Op, u: Uid)
    requires Agreement(w) && op.Broadcast? && Legal(w, op) && Apply(w, op).Done?
    ensures ToSession(Apply(w, op).out, u) ==
            if InRoomOf(w, u) then [SBroadcast(w.users[op.uid].nickname, op.text)] else []
  {
    BroadcastNews(w, op, u);
    if InRoomOf(w, u) {
      assert RoomsWith(w.rooms, u, RidCount()) == {w.users[u].room.value};
    } else {
      assert RoomsWith(w.rooms, u, RidCount()) == {};
    }
  }

  /** Nobody who is gone is in a room that the broadcast could walk over. */
  lemma {:induction false} BroadcastSparesTheGone(w: World, op: Op, u: Uid)
    requires op.Broadcast? && Legal(w, op) && Apply(w, op).Done? && u !in w.users
    ensures ToSession(Apply(w, op).out, u) == []
  {
    BroadcastNews(w, op, u);
    assert RoomsWith(w.rooms, u, RidCount()) == {};
  }

  /** The rooms are told in the order of their ids. */
  lemma {:induction false} BroadcastSplits(orders: map<Rid, seq<Uid>>, r: Rid, k: nat, p: Packet)
    returns (rest: seq<SendPackage>)
    requires r < k <= 0x1_0000 && r in orders
    ensures BroadcastOut(orders, k, p) == BroadcastOut(orders, r, p) + Cast(orders[r], p) + rest
    decreases k
  {
    if r + 1 == k {
      rest := [];
    } else {
      rest := BroadcastSplits(orders, r, k - 1, p);
      rest := rest + if k - 1 in orders then Cast(orders[k - 1], p) else [];
    }
  }

  lemma {:induction false} BroadcastInRoomOrder(w: World, op: Op, r: Rid, s: Rid)
    returns (a: seq<SendPackage>, b: seq<SendPackage>, c: seq<SendPackage>)
    requires op.Broadcast? && Legal(w, op) && Apply(w, op).Done?
    requires r in w.rooms && s in w.rooms && r < s
    ensures var p := SBroadcast(w.users[op.uid].nickname, op.text);
            Apply(w, op).out == a + Cast(op.orders[r], p) + b + Cast(op.orders[s], p) + c
  {
    var p := SBroadcast(w.users[op.uid].nickname, op.text);
    c := BroadcastSplits(op.orders, s, RidCount(), p);
    b := BroadcastSplits(op.orders, r, s, p);
    a := BroadcastOut(op.orders, r, p);
  }

  /** A message to a room reaches every member once, whoever speaks included, and nobody else. */
  lemma {:induction false} MulticastNews(w: World, op: Op, u: Uid)
    requires op.Multicast? && Legal(w, op) && Apply(w, op).Done?
    ensures ToSession(Apply(w, op).out, u) ==
            if u in MembersAround(w, op.uid) then [SMulticast(w.users[op.uid].nickname, op.text)] else []
  {
    CastToMembers(op.order, MembersAround(w, op.uid), SMulticast(w.users[op.uid].nickname, op.text), u);
  }

  /** The room list goes to who asked for it or made a room, with the room made. */
  lemma {:induction false} ListNews(w: World, op: Op, u: Uid)
    requires (op.RoomList? || op.RoomCreate?) && Apply(w, op).Done?
    ensures ToSession(Apply(w, op).out, u) ==
            if u == op.uid then [RoomInfo(Apply(w, op).world.rooms)] else []
  {
    OneToSession(op.uid, RoomInfo(Apply(w, op).world.rooms), u);
  }

  // ---- Nothing else is pushed ----

  predicate Addressed(ps: seq<SendPackage>) {
    forall i :: 0 <= i < |ps| ==> ps[i].session.Some? && ps[i].packet.Some?
  }

  lemma {:induction false} BroadcastAddressed(orders: map<Rid, seq<Uid>>, k: nat, p: Packet)
    requires k <= 0x1_0000
    ensures Addressed(BroadcastOut(orders, k, p))
  {
    if k > 0 {
      BroadcastAddressed(orders, k - 1, p);
    }
  }

  /** Every package pushed has a session and a packet, so that what the sessions are sent is all
      there is. */
  lemma {:induction false} RequestsPushForSessions(w: World, op: Op)
    requires Apply(w, op).Done?
    ensures Addressed(Apply(w, op).out)
  {
    if op.Broadcast? {
      BroadcastAddressed(op.orders, RidCount(), SBroadcast(w.users[op.uid].nickname, op.text));
    }
  }

  // ---- View reconstruction ----

  /** What one more request adds to a run. */
  lemma {:induction false} Extend(ops: seq<Op>, op: Op)
    requires Run(ops) && Legal(After(ops), op) && Apply(After(ops), op).Done?
    ensures var all := ops + [op];
            && Run(all) && After(all) == Apply(After(ops), op).world
            && Log(all) == Log(ops) + Apply(After(ops), op).out
            && (forall v :: LastEntry(all, v) ==
                  if op.RoomEnter? && op.uid == v then |ops| else LastEntry(ops, v))
            && (forall v :: EntryName(all, v) ==
                  if op.RoomEnter? && op.uid == v then After(ops).users[v].nickname else EntryName(ops, v))
  {
    assert (ops + [op])[..|ops|] == ops;
  }

  /** `op` may follow the disciplined run `ops`. */
  ghost predicate Follows(ops: seq<Op>, op: Op) {
    Disciplined(ops) && Legal(After(ops), op) && Apply(After(ops), op).Done? && Polite(ops, op)
  }

  /** If `u`'s view was right before the request, the packets of the request make it right. */
  ghost predicate StepKeepsView(ops: seq<Op>, op: Op, u: Uid)
    requires Run(ops) && Run(ops + [op]) && Apply(After(ops), op).Done?
    requires u in After(ops).users && u in After(ops + [op]).users
  {
    ReceiveAll(u, Expected(ops, u), ToSession(Apply(After(ops), op).out, u)) == Expected(ops + [op], u)
  }

  /** The effect of an entry's packets on the client of `u`. */
  lemma {:induction false} EnterOutView(w: World, op: Op, u: Uid, c: ClientState)
    requires op.RoomEnter? && Legal(w, op) && Apply(w, op).Done?
    ensures ReceiveAll(u, c, ToSession(Apply(w, op).out, u)) ==
            if u == op.uid || u in w.rooms[op.rid].members
            then Receive(u, c, SRoomEnter(op.uid, w.users[op.uid].nickname)) else c
  {
    EntryNews(w, op, u);
    EnterReceived(u, c, op.uid, w.users[op.uid].nickname, w.rooms[op.rid].name);
  }

  lemma {:induction false} EnterReceived(me: Uid, c: ClientState, uid: Uid, name: Str, roomName: Str)
    ensures ReceiveAll(me, c, [SRoomEnter(uid, name), SRoomName(roomName)]) == Receive(me, c, SRoomEnter(uid, name))
    ensures ReceiveAll(me, c, [SRoomEnter(uid, name)]) == Receive(me, c, SRoomEnter(uid, name))
    ensures ReceiveAll(me, c, []) == c
  {
    ReceiveOne(me, c, SRoomEnter(uid, name));
    ReceiveTwo(me, c, SRoomEnter(uid, name), SRoomName(roomName));
  }

  /** The effect of a departure's packets on the client of `u`. */
  lemma {:induction false} LeaveOutView(w: World, op: Op, u: Uid, c: ClientState)
    requires op.RoomExit? || op.ServerExit? || op.Disconnect?
    requires InRoomOf(w, op.uid) && Legal(w, op) && Apply(w, op).Done?
    ensures ReceiveAll(u, c, ToSession(Apply(w, op).out, u)) ==
            if u in MembersAround(w, op.uid) && (op.RoomExit? || u != op.uid)
            then Receive(u, c, SRoomExit(op.uid)) else c
  {
    ExitNews(w, op, u);
    ReceiveOne(u, c, SRoomExit(op.uid));
  }

  lemma {:induction false} NewcomerCompanions(ops: seq<Op>, op: Op, members: set<Uid>)
    requires Run(ops) && Legal(After(ops), op) && Apply(After(ops), op).Done? && op.RoomEnter?
    requires Run(ops + [op])
    ensures Companions(ops + [op], op.uid, members + {op.uid}) ==
            map[op.uid := After(ops).users[op.uid].nickname]
  {
    Extend(ops, op);
  }

  lemma {:induction false} HostCompanions(ops: seq<Op>, op: Op, members: set<Uid>, u: Uid)
    requires Run(ops) && Legal(After(ops), op) && Apply(After(ops), op).Done? && op.RoomEnter?
    requires Run(ops + [op]) && u != op.uid
    ensures Companions(ops + [op], u, members + {op.uid}) ==
            Companions(ops, u, members)[op.uid := After(ops).users[op.uid].nickname]
  {
    Extend(ops, op);
  }

  lemma {:induction false} MateCompanions(ops: seq<Op>, op: Op, members: set<Uid>, u: Uid)
    requires Run(ops) && Legal(After(ops), op) && Apply(After(ops), op).Done? && !op.RoomEnter?
    requires Run(ops + [op]) && !op.Connect?
    ensures Companions(ops + [op], u, members - {op.uid}) == Companions(ops, u, members) - {op.uid}
  {
    Extend(ops, op);
  }

  /** `Expected` for a user in a room. */
  lemma {:induction false} ExpectedInRoom(ops: seq<Op>, u: Uid, r: Rid)
    requires Run(ops) && u in After(ops).users && After(ops).users[u].room == Some(r)
    requires r in After(ops).rooms && Greeted(ops, u)
    ensures Expected(ops, u) == InRoom(Companions(ops, u, After(ops).rooms[r].members))
  {
  }

  lemma {:induction false} NewcomerExpects(ops: seq<Op>, op: Op)
    requires Run(ops) && Legal(After(ops), op) && Apply(After(ops), op).Done? && op.RoomEnter?
    requires Run(ops + [op]) && Greeted(ops, op.uid)
    ensures op.uid in After(ops + [op]).users
    ensures Expected(ops + [op], op.uid) == InRoom(map[op.uid := After(ops).users[op.uid].nickname])
  {
    Extend(ops, op);
    GreetedGrows(ops, op, op.uid);
    ExpectedInRoom(ops + [op], op.uid, op.rid);
    NewcomerCompanions(ops, op, After(ops).rooms[op.rid].members);
  }

  lemma {:induction false} NewcomerKeepsView(ops: seq<Op>, op: Op)
    requires Follows(ops, op) && op.RoomEnter? && Run(ops + [op])
    requires op.uid in After(ops + [op]).users
    ensures StepKeepsView(ops, op, op.uid)
  {
    NewcomerExpects(ops, op);
    NewcomerSees(After(ops), op, Expected(ops, op.uid));
  }

  /** From the lobby a newcomer's screen shows itself alone. */
  lemma {:induction false} NewcomerSees(w: World, op: Op, c: ClientState)
    requires op.RoomEnter? && Legal(w, op) && Apply(w, op).Done? && c.Lobby?
    ensures ReceiveAll(op.uid, c, ToSession(Apply(w, op).out, op.uid)) ==
            InRoom(map[op.uid := w.users[op.uid].nickname])
  {
    EnterOutView(w, op, op.uid, c);
  }

  lemma {:induction false} HostExpects(ops: seq<Op>, op: Op, u: Uid)
    requires Follows(ops, op) && op.RoomEnter? && Run(ops + [op])
    requires u != op.uid && u in After(ops).rooms[op.rid].members
    requires u in After(ops).users && u in After(ops + [op]).users
    ensures Expected(ops, u).InRoom?
    ensures Expected(ops + [op], u) ==
            InRoom(Expected(ops, u).players[op.uid := After(ops).users[op.uid].nickname])
  {
    var w := After(ops);
    var members := w.rooms[op.rid].members;
    DisciplinedAgrees(ops);
    Extend(ops, op);
    GreetedGrows(ops, op, u);
    assert w.users[u].room == Some(op.rid) && op.uid !in members;
    ExpectedInRoom(ops, u, op.rid);
    ExpectedInRoom(ops + [op], u, op.rid);
    HostCompanions(ops, op, members, u);
  }

  lemma {:induction false} HostKeepsView(ops: seq<Op>, op: Op, u: Uid)
    requires Follows(ops, op) && op.RoomEnter? && Run(ops + [op])
    requires u != op.uid && u in After(ops).rooms[op.rid].members
    requires u in After(ops).users && u in After(ops + [op]).users
    ensures StepKeepsView(ops, op, u)
  {
    HostExpects(ops, op, u);
    EnterOutView(After(ops), op, u, Expected(ops, u));
  }

  lemma {:induction false} EnterKeepsView(ops: seq<Op>, op: Op, u: Uid)
    requires Follows(ops, op) && op.RoomEnter? && Run(ops + [op])
    requires u in After(ops).users && u in After(ops + [op]).users
    ensures StepKeepsView(ops, op, u)
  {
    var w := After(ops);
    var room := w.rooms[op.rid];
    if u == op.uid {
      NewcomerKeepsView(ops, op);
    } else if u in room.members {
      HostKeepsView(ops, op, u);
    } else {
      DisciplinedAgrees(ops);
      Extend(ops, op);
      EnterOutView(w, op, u, Expected(ops, u));
      SameCompanions(ops, op, u);
    }
  }

  lemma {:induction false} ReceiveOne(me: Uid, c: ClientState, p: Packet)
    ensures ReceiveAll(me, c, [p]) == Receive(me, c, p)
    ensures ReceiveAll(me, c, []) == c
  {
    assert [p][..0] == [];
  }

  lemma {:induction false} ReceiveTwo(me: Uid, c: ClientState, p: Packet, q: Packet)
    ensures ReceiveAll(me, c, [p, q]) == Receive(me, Receive(me, c, p), q)
  {
    assert [p, q][..1] == [p];
    ReceiveOne(me, c, p);
  }

  /** A user whose own room the request does not touch expects what it expected before. */
  lemma {:induction false} SameCompanions(ops: seq<Op>, op: Op, u: Uid)
    requires Follows(ops, op) && Run(ops + [op])
    requires u in After(ops).users && u in After(ops + [op]).users
    requires After(ops + [op]).users[u].room == After(ops).users[u].room
    requires InRoomOf(After(ops), u) ==>
               InRoomOf(After(ops + [op]), u) && MembersAround(After(ops + [op]), u) == MembersAround(After(ops), u)
    requires op.RoomEnter? ==> op.uid != u && !(InRoomOf(After(ops), u) && op.uid in MembersAround(After(ops), u))
    requires op.ServerEnter? ==> op.uid != u
    ensures Expected(ops + [op], u) == Expected(ops, u)
  {
    DisciplinedAgrees(ops);
    Extend(ops, op);
    GreetedGrows(ops, op, u);
    if InRoomOf(After(ops), u) {
      var members := MembersAround(After(ops), u);
      assert Companions(ops + [op], u, members) == Companions(ops, u, members);
    }
  }

  lemma {:induction false} LeaverExpects(ops: seq<Op>, op: Op)
    requires Follows(ops, op) && op.RoomExit? && Run(ops + [op])
    ensures op.uid in After(ops).users && op.uid in After(ops + [op]).users
    ensures Expected(ops + [op], op.uid) == Lobby
  {
    DisciplinedAgrees(ops);
    Extend(ops, op);
    GreetedGrows(ops, op, op.uid);
  }

  lemma {:induction false} LeaverKeepsView(ops: seq<Op>, op: Op)
    requires Follows(ops, op) && op.RoomExit? && Run(ops + [op])
    requires op.uid in After(ops).users && op.uid in After(ops + [op]).users
    requires op.uid in MembersAround(After(ops), op.uid)
    ensures StepKeepsView(ops, op, op.uid)
  {
    LeaverExpects(ops, op);
    LeaverSees(After(ops), op, Expected(ops, op.uid));
  }

  lemma {:induction false} LeaverSees(w: World, op: Op, c: ClientState)
    requires op.RoomExit? && InRoomOf(w, op.uid) && Legal(w, op) && Apply(w, op).Done?
    requires op.uid in MembersAround(w, op.uid)
    ensures ReceiveAll(op.uid, c, ToSession(Apply(w, op).out, op.uid)) == Lobby
  {
    ExitNews(w, op, op.uid);
    ReceiveOne(op.uid, c, SRoomExit(op.uid));
  }

  lemma {:induction false} MateExpects(ops: seq<Op>, op: Op, u: Uid)
    requires Follows(ops, op) && Run(ops + [op])
    requires op.RoomExit? || op.ServerExit? || op.Disconnect?
    requires u in After(ops).users && u in After(ops + [op]).users
    requires InRoomOf(After(ops), op.uid) && u != op.uid && u in MembersAround(After(ops), op.uid)
    ensures Expected(ops, u).InRoom?
    ensures Expected(ops + [op], u) == InRoom(Expected(ops, u).players - {op.uid})
  {
    var w := After(ops);
    var r := w.users[op.uid].room.value;
    DisciplinedAgrees(ops);
    Extend(ops, op);
    GreetedGrows(ops, op, u);
    assert w.users[u].room == Some(r);
    MateStays(w, op, u);
    ExpectedInRoom(ops, u, r);
    ExpectedInRoom(ops + [op], u, r);
    MateCompanions(ops, op, w.rooms[r].members, u);
  }

  lemma {:induction false} MateKeepsView(ops: seq<Op>, op: Op, u: Uid)
    requires Follows(ops, op) && Run(ops + [op])
    requires op.RoomExit? || op.ServerExit? || op.Disconnect?
    requires u in After(ops).users && u in After(ops + [op]).users
    requires InRoomOf(After(ops), op.uid) && u != op.uid && u in MembersAround(After(ops), op.uid)
    ensures StepKeepsView(ops, op, u)
  {
    MateExpects(ops, op, u);
    MateSeesLeaver(After(ops), op, u, Expected(ops, u));
  }

  lemma {:induction false} MateSeesLeaver(w: World, op: Op, u: Uid, c: ClientState)
    requires op.RoomExit? || op.ServerExit? || op.Disconnect?
    requires InRoomOf(w, op.uid) && Legal(w, op) && Apply(w, op).Done?
    requires u != op.uid && u in MembersAround(w, op.uid) && c.InRoom?
    ensures ReceiveAll(u, c, ToSession(Apply(w, op).out, u)) == InRoom(c.players - {op.uid})
  {
    ExitNews(w, op, u);
    ExitReceived(u, c, op.uid);
  }

  lemma {:induction false} ExitReceived(me: Uid, c: ClientState, uid: Uid)
    requires me != uid && c.InRoom?
    ensures ReceiveAll(me, c, [SRoomExit(uid)]) == InRoom(c.players - {uid})
  {
    ReceiveOne(me, c, SRoomExit(uid));
  }

  lemma {:induction false} MateStays(w: World, op: Op, u: Uid)
    requires op.RoomExit? || op.ServerExit? || op.Disconnect?
    requires InRoomOf(w, op.uid) && Apply(w, op).Done? && u in w.users && u != op.uid
    ensures var w' := Apply(w, op).world; var r := w.users[op.uid].room.value;
            && u in w'.users && w'.users[u] == w.users[u]
            && r in w'.rooms && w'.rooms[r].members == w.rooms[r].members - {op.uid}
  {
  }

  lemma {:induction false} StrangerKeepsView(ops: seq<Op>, op: Op, u: Uid)
    requires Follows(ops, op) && Run(ops + [op])
    requires op.RoomExit? || op.ServerExit? || op.Disconnect?
    requires u in After(ops).users && u in After(ops + [op]).users
    requires InRoomOf(After(ops), op.uid) && u != op.uid && u !in MembersAround(After(ops), op.uid)
    ensures StepKeepsView(ops, op, u)
  {
    DisciplinedAgrees(ops);
    Extend(ops, op);
    LeaveOutView(After(ops), op, u, Expected(ops, u));
    SameCompanions(ops, op, u);
  }

  /** Someone leaves the room it is in, with or without being told itself. */
  lemma {:induction false} LeaveKeepsView(ops: seq<Op>, op: Op, u: Uid)
    requires Follows(ops, op) && Run(ops + [op])
    requires op.RoomExit? || op.ServerExit? || op.Disconnect?
    requires u in After(ops).users && u in After(ops + [op]).users && InRoomOf(After(ops), op.uid)
    ensures StepKeepsView(ops, op, u)
  {
    if u == op.uid {
      if !op.RoomExit? {
        RemovedAreGone(ops, op);
      }
      DisciplinedAgrees(ops);
      LeaverKeepsView(ops, op);
    } else if u in MembersAround(After(ops), op.uid) {
      MateKeepsView(ops, op, u);
    } else {
      StrangerKeepsView(ops, op, u);
    }
  }

  lemma {:induction false} RemovedAreGone(ops: seq<Op>, op: Op)
    requires Follows(ops, op) && Run(ops + [op]) && (op.ServerExit? || op.Disconnect?)
    ensures op.uid !in After(ops + [op]).users
  {
    Extend(ops, op);
  }

  lemma {:induction false} GreetingKeepsView(ops: seq<Op>, op: Op, u: Uid)
    requires Follows(ops, op) && op.ServerEnter? && Run(ops + [op])
    requires u in After(ops).users && u in After(ops + [op]).users
    ensures StepKeepsView(ops, op, u)
  {
    GreetingOut(After(ops), op, u, Expected(ops, u));
    GreetingExpects(ops, op, u);
  }

  lemma {:induction false} GreetingExpects(ops: seq<Op>, op: Op, u: Uid)
    requires Follows(ops, op) && op.ServerEnter? && Run(ops + [op])
    requires u in After(ops).users && u in After(ops + [op]).users
    ensures Expected(ops + [op], u) == if u == op.uid then Lobby else Expected(ops, u)
  {
    Extend(ops, op);
    if u == op.uid {
      GreetedGrows(ops, op, u);
    } else {
      SameCompanions(ops, op, u);
    }
  }

  lemma {:induction false} GreetingOut(w: World, op: Op, u: Uid, c: ClientState)
    requires op.ServerEnter? && Apply(w, op).Done?
    ensures ReceiveAll(u, c, ToSession(Apply(w, op).out, u)) == if u == op.uid then Lobby else c
  {
    GreetingNews(w, op, u);
    ReceiveTwo(u, c, SServerEnterOk(op.uid), RoomInfo(w.rooms));
  }

  lemma {:induction false} GreetingNews(w: World, op: Op, u: Uid)
    requires op.ServerEnter? && Apply(w, op).Done?
    ensures ToSession(Apply(w, op).out, u) ==
            if u == op.uid then [SServerEnterOk(op.uid), RoomInfo(w.rooms)] else []
  {
    var ok, info := SServerEnterOk(op.uid), RoomInfo(w.rooms);
    TwoToSession(To(op.uid, ok), To(op.uid, info), u);
    OneToSession(op.uid, ok, u);
    OneToSession(op.uid, info, u);
  }

  /** The other requests push only packets that leave the client's state alone. */
  lemma {:induction false} OtherOutIsNeutral(w: World, op: Op, u: Uid)
    requires Legal(w, op) && Apply(w, op).Done?
    requires !op.RoomEnter? && !op.ServerEnter? && !op.RoomExit?
    requires op.ServerExit? || op.Disconnect? ==> !InRoomOf(w, op.uid)
    ensures AllNeutral(ToSession(Apply(w, op).out, u))
  {
    if op.ServerExit? || op.Disconnect? {
      RemovalOut(w, op, u);
    } else if op.Whisper? {
      WhisperIsNeutral(w, op, u);
    } else if op.Multicast? {
      MulticastNews(w, op, u);
    } else if op.Broadcast? {
      BroadcastNews(w, op, u);
    } else if op.RoomList? || op.RoomCreate? {
      ListNews(w, op, u);
    }
  }

  lemma {:induction false} WhisperIsNeutral(w: World, op: Op, u: Uid)
    requires op.Whisper? && Apply(w, op).Done?
    ensures AllNeutral(ToSession(Apply(w, op).out, u))
  {
    WhisperNews(w, op, u);
  }

  /** A whisper tells its sender and the user found, twice if they are one. */
  lemma {:induction false} WhisperNews(w: World, op: Op, u: Uid)
    requires op.Whisper? && Apply(w, op).Done?
    ensures var p := if op.target.None? then SUnicastNo else SUnicastOk(w.users[op.uid].nickname, op.text);
            ToSession(Apply(w, op).out, u) ==
            (if u == op.uid then [p] else []) + (if op.target == Some(u) then [p] else [])
  {
    if op.target.None? {
      OneToSession(op.uid, SUnicastNo, u);
    } else {
      var p := SUnicastOk(w.users[op.uid].nickname, op.text);
      TwoToSession(To(op.uid, p), To(op.target.value, p), u);
      OneToSession(op.uid, p, u);
      OneToSession(op.target.value, p, u);
    }
  }

  lemma {:induction false} OthersKeepView(ops: seq<Op>, op: Op, u: Uid)
    requires Follows(ops, op) && Run(ops + [op])
    requires !op.RoomEnter? && !op.ServerEnter? && !op.RoomExit?
    requires op.ServerExit? || op.Disconnect? ==> !InRoomOf(After(ops), op.uid)
    requires u in After(ops).users && u in After(ops + [op]).users
    ensures StepKeepsView(ops, op, u)
  {
    var w := After(ops);
    DisciplinedAgrees(ops);
    OtherOutIsNeutral(w, op, u);
    NeutralChangesNothing(u, Expected(ops, u), ToSession(Apply(w, op).out, u));
    OthersExpectTheSame(ops, op, u);
  }

  lemma {:induction false} OthersExpectTheSame(ops: seq<Op>, op: Op, u: Uid)
    requires Follows(ops, op) && Run(ops + [op])
    requires !op.RoomEnter? && !op.ServerEnter? && !op.RoomExit?
    requires op.ServerExit? || op.Disconnect? ==> !InRoomOf(After(ops), op.uid)
    requires u in After(ops).users && u in After(ops + [op]).users
    ensures Expected(ops + [op], u) == Expected(ops, u)
  {
    DisciplinedAgrees(ops);
    Extend(ops, op);
    OthersMoveNobody(After(ops), op, u);
    SameCompanions(ops, op, u);
  }

  lemma {:induction false} OthersMoveNobody(w: World, op: Op, u: Uid)
    requires Agreement(w) && IdsKnown(w) && Apply(w, op).Done?
    requires !op.RoomEnter? && !op.ServerEnter? && !op.RoomExit?
    requires op.ServerExit? || op.Disconnect? ==> !InRoomOf(w, op.uid)
    requires u in w.users && u in Apply(w, op).world.users
    ensures var w' := Apply(w, op).world;
            && w'.users[u].room == w.users[u].room
            && (InRoomOf(w, u) ==> InRoomOf(w', u) && MembersAround(w', u) == MembersAround(w, u))
  {
  }

  lemma {:induction false} ViewStep(ops: seq<Op>, op: Op, u: Uid)
    requires Follows(ops, op) && Run(ops + [op])
    requires u in After(ops).users && u in After(ops + [op]).users
    ensures StepKeepsView(ops, op, u)
  {
    if op.RoomEnter? {
      EnterKeepsView(ops, op, u);
    } else if op.ServerEnter? {
      GreetingKeepsView(ops, op, u);
    } else if op.RoomExit? || ((op.ServerExit? || op.Disconnect?) && InRoomOf(After(ops), op.uid)) {
      LeaveKeepsView(ops, op, u);
    } else {
      OthersKeepView(ops, op, u);
    }
  }

  /** The only user that appears in a step is the next one to connect. */
  lemma {:induction false} NewcomersConnect(w: World, op: Op, u: Uid)
    requires Apply(w, op).Done? && u !in w.users && u in Apply(w, op).world.users
    ensures op.Connect? && u == w.nextUid && Apply(w, op).out == []
  {
  }

  /** The last request of a disciplined run follows the rest of it. */
  lemma {:induction false} LastFollows(ops: seq<Op>)
    requires Disciplined(ops) && ops != []
    ensures Follows(ops[..|ops| - 1], ops[|ops| - 1])
  {
  }

  lemma {:induction false} SplitRun(ops: seq<Op>)
    requires Disciplined(ops) && ops != []
    ensures var n := |ops| - 1; ops == ops[..n] + [ops[n]] && Follows(ops[..n], ops[n])
  {
    SplitEnd(ops);
    LastFollows(ops);
  }

  /** View reconstruction: in every disciplined run, what a connected client makes of all the
      packets pushed to its session is exactly its place in the server's state: not logged
      in, in the lobby, or in its room with the members that entered with or after it. */
  lemma {:induction false} ViewReconstruction(ops: seq<Op>, u: Uid)
    requires Disciplined(ops) && u in After(ops).users
    ensures View(u, ToSession(Log(ops), u)) == Expected(ops, u)
    decreases |ops|
  {
    if ops != [] {
      var n := |ops| - 1;
      var past, op := ops[..n], ops[n];
      SplitRun(ops);
      Extend(past, op);
      ToSessionConcat(Log(past), Apply(After(past), op).out, u);
      if u in After(past).users {
        ViewReconstruction(past, u);
        ViewStep(past, op, u);
        ViewGrows(past, op, u);
      } else {
        NewcomersConnect(After(past), op, u);
        NewIdsAreClean(past, u);
        GreetedGrows(past, op, u);
      }
    }
  }

  // ---- Without the client's manners ----

  /** One more request's packets act on the view so far. */
  lemma {:induction false} ViewGrows(ops: seq<Op>, op: Op, u: Uid)
    requires Run(ops) && Legal(After(ops), op) && Apply(After(ops), op).Done?
    ensures Run(ops + [op])
    ensures View(u, ToSession(Log(ops + [op]), u)) ==
            ReceiveAll(u, View(u, ToSession(Log(ops), u)), ToSession(Apply(After(ops), op).out, u))
  {
    var out := Apply(After(ops), op).out;
    Extend(ops, op);
    ToSessionConcat(Log(ops), out, u);
    ReceiveConcat(u, Login, ToSession(Log(ops), u), ToSession(out, u));
  }

  /** What a user in a room sees after entering a room, whichever. */
  lemma {:induction false} SeenAfterEntering(ops: seq<Op>, op: Op)
    requires Disciplined(ops) && Legal(After(ops), op) && Apply(After(ops), op).Done?
    requires op.RoomEnter? && InRoomOf(After(ops), op.uid)
    ensures Run(ops + [op])
    ensures var mates := Companions(ops, op.uid, MembersAround(After(ops), op.uid));
            View(op.uid, ToSession(Log(ops + [op]), op.uid)) ==
            InRoom(mates[op.uid := After(ops).users[op.uid].nickname])
  {
    ViewGrows(ops, op, op.uid);
    SeenFromRoom(ops, op.uid);
    GuestSees(After(ops), op, View(op.uid, ToSession(Log(ops), op.uid)));
  }

  lemma {:induction false} GuestSees(w: World, op: Op, c: ClientState)
    requires op.RoomEnter? && Legal(w, op) && Apply(w, op).Done? && c.InRoom?
    ensures ReceiveAll(op.uid, c, ToSession(Apply(w, op).out, op.uid)) ==
            InRoom(c.players[op.uid := w.users[op.uid].nickname])
  {
    EnterOutView(w, op, op.uid, c);
  }

  /** A user in a room that enters a room, whichever, is shown the right people exactly when
      nobody of the room it was in had entered after it: the others stay on its screen. */
  lemma {:induction false} EnterFromRoomViewExactly(ops: seq<Op>, op: Op)
    requires Disciplined(ops) && Legal(After(ops), op) && Apply(After(ops), op).Done?
    requires op.RoomEnter? && InRoomOf(After(ops), op.uid)
    ensures Run(ops + [op]) && op.uid in After(ops + [op]).users
    ensures View(op.uid, ToSession(Log(ops + [op]), op.uid)) == Expected(ops + [op], op.uid) <==>
            LatestIn(ops, op.uid, MembersAround(After(ops), op.uid))
  {
    SeenAfterEntering(ops, op);
    SeenFromRoom(ops, op.uid);
    NewcomerExpects(ops, op);
    OnlySelf(Companions(ops, op.uid, MembersAround(After(ops), op.uid)), op.uid, After(ops).users[op.uid].nickname);
    LaterMates(ops, op.uid, MembersAround(After(ops), op.uid));
  }

  /** All other members entered before `u` did. */
  ghost predicate LatestIn(ops: seq<Op>, u: Uid, members: set<Uid>) {
    forall v :: v in members && v != u ==> LastEntry(ops, v) < LastEntry(ops, u)
  }

  lemma {:induction false} LaterMates(ops: seq<Op>, u: Uid, members: set<Uid>)
    requires Run(ops)
    ensures (forall v :: v in Companions(ops, u, members) ==> v == u) <==> LatestIn(ops, u, members)
  {
    var mates := Companions(ops, u, members);
    assert forall v :: v in mates <==> v in members && LastEntry(ops, v) >= LastEntry(ops, u);
  }

  /** What a user in a room sees, and that it has logged in. */
  lemma {:induction false} SeenFromRoom(ops: seq<Op>, u: Uid)
    requires Disciplined(ops) && InRoomOf(After(ops), u)
    ensures View(u, ToSession(Log(ops), u)) == InRoom(Companions(ops, u, MembersAround(After(ops), u)))
    ensures Greeted(ops, u)
  {
    DisciplinedAgrees(ops);
    ViewReconstruction(ops, u);
    ExpectedInRoom(ops, u, After(ops).users[u].room.value);
  }

  lemma {:induction false} OnlySelf(players: map<Uid, Str>, u: Uid, name: Str)
    ensures players[u := name] == map[u := name] <==> forall v :: v in players ==> v == u
  {
    if players[u := name] == map[u := name] {
      assert forall v :: v in players ==> v in players[u := name];
    }
  }

  /** The users whose `currRoom_` is the room `r`. */
  function Present(w: World, r: Rid): set<Uid> {
    set v | v in w.users && w.users[v].room == Some(r)
  }

  /** A user that enters a room from inside another one stays on the screens of the old room's
      members, who are told nothing, exactly of those that it had not entered before. */
  lemma {:induction false} CrossEntryBreaksMatesExactly(ops: seq<Op>, op: Op, u: Uid)
    requires Disciplined(ops) && Legal(After(ops), op) && Apply(After(ops), op).Done?
    requires CrossEnter(After(ops), op) && InRoomOf(After(ops), op.uid)
    requires u != op.uid && u in MembersAround(After(ops), op.uid)
    ensures Run(ops + [op])
    ensures var r := After(ops).users[op.uid].room.value;
            View(u, ToSession(Log(ops + [op]), u)) ==
            InRoom(Companions(ops + [op], u, Present(After(ops + [op]), r)))
            <==> LastEntry(ops, op.uid) < LastEntry(ops, u)
  {
    var w, x := After(ops), op.uid;
    var r := w.users[x].room.value;
    var members := w.rooms[r].members;
    DisciplinedAgrees(ops);
    assert w.users[u].room == Some(r);
    CrossEntrySilent(w, op, u);
    ViewGrows(ops, op, u);
    SeenFromRoom(ops, u);
    Extend(ops, op);
    CrossEntryPresent(w, op);
    DepartedCompanions(ops, op, members, u);
    assert x in Companions(ops, u, members) <==> LastEntry(ops, x) >= LastEntry(ops, u);
    RemovalChanges(Companions(ops, u, members), x);
  }

  lemma {:induction false} CrossEntrySilent(w: World, op: Op, u: Uid)
    requires Agreement(w) && Legal(w, op) && Apply(w, op).Done? && CrossEnter(w, op)
    requires u != op.uid && u in w.users && w.users[u].room == w.users[op.uid].room
    ensures ToSession(Apply(w, op).out, u) == []
  {
    EntryNews(w, op, u);
  }

  lemma {:induction false} CrossEntryPresent(w: World, op: Op)
    requires Agreement(w) && Apply(w, op).Done? && CrossEnter(w, op) && InRoomOf(w, op.uid)
    ensures Present(Apply(w, op).world, w.users[op.uid].room.value) == MembersAround(w, op.uid) - {op.uid}
  {
  }

  lemma {:induction false} DepartedCompanions(ops: seq<Op>, op: Op, members: set<Uid>, u: Uid)
    requires Run(ops) && Legal(After(ops), op) && Apply(After(ops), op).Done? && op.RoomEnter?
    requires Run(ops + [op]) && u != op.uid
    ensures Companions(ops + [op], u, members - {op.uid}) == Companions(ops, u, members) - {op.uid}
  {
    Extend(ops, op);
  }

  lemma {:induction false} RemovalChanges(players: map<Uid, Str>, u: Uid)
    ensures players - {u} == players <==> u !in players
  {
    assert u !in (players - {u});
    assert u !in players ==> players - {u} == players;
  }

  /** A user that logs in again from inside a room is always shown the lobby. */
  lemma {:induction false} GreetingFromRoomBreaksView(ops: seq<Op>, op: Op)
    requires Disciplined(ops) && Legal(After(ops), op) && Apply(After(ops), op).Done?
    requires op.ServerEnter? && InRoomOf(After(ops), op.uid)
    ensures Run(ops + [op]) && op.uid in After(ops + [op]).users
    ensures View(op.uid, ToSession(Log(ops + [op]), op.uid)) == Lobby
    ensures Expected(ops + [op], op.uid).InRoom?
  {
    var u, w := op.uid, After(ops);
    ViewGrows(ops, op, u);
    GreetingOut(w, op, u, View(u, ToSession(Log(ops), u)));
    Extend(ops, op);
    GreetedGrows(ops, op, u);
  }
}
