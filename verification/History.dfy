/** The server's state read off the list of requests alone: each entry of the world is what the
    requests that concern it say, without going through the states in between. */
module Histories {
  import opened Options
  import opened Bytes
  import opened Chat
  import opened Views

  // ---- What the requests say about one user ----

  /** How many users were made. */
  function Connects(ops: seq<Op>): nat {
    if ops == [] then 0
    else Connects(ops[..|ops| - 1]) + if ops[|ops| - 1].Connect? then 1 else 0
  }

  predicate Removes(op: Op, u: int) {
    (op.ServerExit? || op.Disconnect?) && op.uid == u
  }

  /** `u` was made, as the `u`-th user, and was not removed since. */
  predicate Connected(ops: seq<Op>, u: int) {
    if ops == [] then false
    else
      var past, op := ops[..|ops| - 1], ops[|ops| - 1];
      if op.Connect? && u == Connects(ops) then true
      else Connected(past, u) && !Removes(op, u)
  }

  /** Where the `u`-th user was made. */
  function AddressOf(ops: seq<Op>, u: int): Address {
    if ops == [] then 0
    else
      var past, op := ops[..|ops| - 1], ops[|ops| - 1];
      if op.Connect? && u == Connects(ops) then op.at else AddressOf(past, u)
  }

  /** The name `u` last logged in with; empty before the first login. */
  function LatestNickname(ops: seq<Op>, u: int): Str {
    if ops == [] then []
    else
      var past, op := ops[..|ops| - 1], ops[|ops| - 1];
      if op.ServerEnter? && op.uid == u then op.nickname else LatestNickname(past, u)
  }

  /** The room `u` last entered, unless it has left a room since. */
  function PlaceOf(ops: seq<Op>, u: int): Option<Rid> {
    if ops == [] then None
    else
      var past, op := ops[..|ops| - 1], ops[|ops| - 1];
      if op.RoomEnter? && op.uid == u then Some(op.rid)
      else if op.RoomExit? && op.uid == u then None
      else PlaceOf(past, u)
  }

  // ---- What they say about one room ----

  /** The names of the rooms asked for, in order. */
  function Creations(ops: seq<Op>): seq<Str> {
    if ops == [] then []
    else
      Creations(ops[..|ops| - 1])
      + if ops[|ops| - 1].RoomCreate? then [ops[|ops| - 1].name] else []
  }

  /** Which of them got the id `r`: ids count from 1 and wrap around at 16 bits, so 0 is the last,
      and later ones find the id in use. */
  function IndexOf(r: Rid): nat {
    if r == 0 then 0xFFFF else r - 1
  }

  /** `op` takes `u` out of the room it is in. */
  predicate Leaves(past: seq<Op>, op: Op, u: int) {
    (op.RoomExit? && op.uid == u) || (Removes(op, u) && Connected(past, u))
  }

  /** `u` has entered `r` and has not left from there since. */
  predicate Inside(ops: seq<Op>, r: Rid, u: int) {
    if ops == [] then false
    else
      var past, op := ops[..|ops| - 1], ops[|ops| - 1];
      if op.RoomEnter? && op.uid == u && op.rid == r then true
      else Inside(past, r, u) && !(Leaves(past, op, u) && PlaceOf(past, u) == Some(r))
  }

  // ---- The world is what they say ----

  ghost predicate UsersRemembered(ops: seq<Op>, w: World) {
    && w.nextUid == Connects(ops) + 1
    && (forall u :: u in w.users <==> Connected(ops, u))
    && (forall u :: u in w.users ==>
          w.users[u] == User(LatestNickname(ops, u), PlaceOf(ops, u), AddressOf(ops, u)))
  }

  /** The rooms are those asked for with these names. */
  ghost predicate RoomsAre(names: seq<Str>, w: World) {
    w.nextRid == (|names| + 1) % 0x1_0000 && Named(names, w.rooms)
  }

  ghost predicate Named(names: seq<Str>, rooms: map<Rid, Room>) {
    && (forall r :: r in rooms <==> IndexOf(r) < |names|)
    && (forall r :: r in rooms ==> rooms[r].name == names[IndexOf(r)])
  }

  ghost predicate RoomsRemembered(ops: seq<Op>, w: World) {
    RoomsAre(Creations(ops), w)
  }

  ghost predicate MembersRemembered(ops: seq<Op>, w: World) {
    forall r, u :: r in w.rooms && u in w.rooms[r].members <==> Inside(ops, r, u)
  }

  /** One more request, as far as one user is concerned. */
  lemma {:induction false} UserOneMore(ops: seq<Op>, op: Op, u: int)
    ensures var all := ops + [op];
            && Connects(all) == Connects(ops) + (if op.Connect? then 1 else 0)
            && (Connected(all, u) <==>
                  (op.Connect? && u == Connects(ops) + 1) || (Connected(ops, u) && !Removes(op, u)))
            && AddressOf(all, u) == (if op.Connect? && u == Connects(ops) + 1 then op.at else AddressOf(ops, u))
            && LatestNickname(all, u) ==
               (if op.ServerEnter? && op.uid == u then op.nickname else LatestNickname(ops, u))
            && PlaceOf(all, u) ==
               (if op.RoomEnter? && op.uid == u then Some(op.rid)
                else if op.RoomExit? && op.uid == u then None
                else PlaceOf(ops, u))
  {
    assert (ops + [op])[..|ops|] == ops;
  }

  lemma {:induction false} RoomOneMore(ops: seq<Op>, op: Op, r: Rid, u: int)
    ensures var all := ops + [op];
            && Creations(all) == Creations(ops) + (if op.RoomCreate? then [op.name] else [])
            && (Inside(all, r, u) <==>
                  (op.RoomEnter? && op.uid == u && op.rid == r)
                  || (Inside(ops, r, u) && !(Leaves(ops, op, u) && PlaceOf(ops, u) == Some(r))))
  {
    assert (ops + [op])[..|ops|] == ops;
  }

  /** Before it is made, nothing is said about a user. */
  lemma {:induction false} NothingSaidBefore(ops: seq<Op>, u: int)
    requires Run(ops) && u >= After(ops).nextUid
    ensures LatestNickname(ops, u) == [] && PlaceOf(ops, u) == None
  {
    if ops != [] {
      var n := |ops| - 1;
      NextIdGrows(After(ops[..n]), ops[n]);
      NothingSaidBefore(ops[..n], u);
    }
  }

  lemma {:induction false} UsersStep(ops: seq<Op>, op: Op)
    requires Run(ops) && Legal(After(ops), op) && Apply(After(ops), op).Done?
    requires IdsKnown(After(ops)) && UsersRemembered(ops, After(ops))
    ensures UsersRemembered(ops + [op], Apply(After(ops), op).world)
  {
    var w, w' := After(ops), Apply(After(ops), op).world;
    UserOneMore(ops, op, 0);
    forall u: int
      ensures u in w'.users <==> Connected(ops + [op], u)
      ensures u in w'.users ==>
                w'.users[u] == User(LatestNickname(ops + [op], u), PlaceOf(ops + [op], u), AddressOf(ops + [op], u))
    {
      UserOneMore(ops, op, u);
      if u >= w.nextUid {
        NothingSaidBefore(ops, u);
      }
    }
  }

  lemma {:induction false} RoomsStep(ops: seq<Op>, op: Op)
    requires Run(ops) && Legal(After(ops), op) && Apply(After(ops), op).Done?
    requires RoomsRemembered(ops, After(ops))
    ensures RoomsRemembered(ops + [op], Apply(After(ops), op).world)
  {
    RoomOneMore(ops, op, 0, 0);
    if op.RoomCreate? {
      CreationStep(Creations(ops), After(ops), op);
    } else {
      assert Creations(ops + [op]) == Creations(ops);
      RoomsKeepNames(After(ops), op);
    }
  }

  lemma {:induction false} CreationStep(names: seq<Str>, w: World, op: Op)
    requires RoomsAre(names, w) && op.RoomCreate? && Apply(w, op).Done?
    ensures RoomsAre(names + [op.name], Apply(w, op).world)
  {
    var more := names + [op.name];
    NextRid(|names|);
    assert |more| == |names| + 1;
    if |names| < 0x1_0000 {
      RoomAdded(names, w.rooms, w.nextRid, op.name);
      assert Named(more, Apply(w, op).world.rooms);
    } else {
      RoomRefused(names, w.rooms, op.name);
      assert Named(more, Apply(w, op).world.rooms);
    }
  }

  lemma {:induction false} NextRid(n: nat)
    ensures ((n + 1) % 0x1_0000 + 1) % 0x1_0000 == (n + 1 + 1) % 0x1_0000
  {
  }

  lemma {:induction false} RoomAdded(names: seq<Str>, rooms: map<Rid, Room>, next: Rid, name: Str)
    requires Named(names, rooms) && next == (|names| + 1) % 0x1_0000 && |names| < 0x1_0000
    ensures next !in rooms && Named(names + [name], rooms[next := Room(name, {})])
  {
    NextIndex(|names|);
    forall r: Rid | r != next
      ensures IndexOf(r) != |names|
    {
      IndicesDiffer(r, next, |names|);
    }
  }

  /** With all ids in use the name is of no consequence. */
  lemma {:induction false} RoomRefused(names: seq<Str>, rooms: map<Rid, Room>, name: Str)
    requires Named(names, rooms) && |names| >= 0x1_0000
    ensures Named(names + [name], rooms) && forall r: Rid :: r in rooms
  {
    assert forall r: Rid :: IndexOf(r) < |names|;
  }

  lemma {:induction false} NextIndex(n: nat)
    ensures IndexOf((n + 1) % 0x1_0000) == n % 0x1_0000
  {
  }

  lemma {:induction false} IndicesDiffer(r: Rid, next: Rid, n: nat)
    requires r != next && next == (n + 1) % 0x1_0000
    ensures IndexOf(r) != n
  {
  }

  lemma {:induction false} RoomsKeepNames(w: World, op: Op)
    requires Apply(w, op).Done? && !op.RoomCreate?
    ensures var w' := Apply(w, op).world;
            && w'.nextRid == w.nextRid && w'.rooms.Keys == w.rooms.Keys
            && forall r :: r in w.rooms ==> w'.rooms[r].name == w.rooms[r].name
  {
  }

  lemma {:induction false} MembersStep(ops: seq<Op>, op: Op)
    requires Run(ops) && Legal(After(ops), op) && Apply(After(ops), op).Done?
    requires UsersRemembered(ops, After(ops)) && MembersRemembered(ops, After(ops))
    ensures MembersRemembered(ops + [op], Apply(After(ops), op).world)
  {
    var w, w' := After(ops), Apply(After(ops), op).world;
    forall r: Rid, u: int
      ensures r in w'.rooms && u in w'.rooms[r].members <==> Inside(ops + [op], r, u)
    {
      RoomOneMore(ops, op, r, u);
      MemberStep(w, op, r, u, Leaves(ops, op, u), PlaceOf(ops, u));
    }
  }

  /** What one request does to one member of one room. */
  lemma {:induction false} MemberStep(w: World, op: Op, r: Rid, u: int, leaves: bool, place: Option<Rid>)
    requires Apply(w, op).Done?
    requires leaves <==>
             (op.RoomExit? && op.uid == u) || ((op.ServerExit? || op.Disconnect?) && op.uid == u && u in w.users)
    requires u in w.users ==> w.users[u].room == place
    ensures var w' := Apply(w, op).world;
            r in w'.rooms && u in w'.rooms[r].members <==>
            (op.RoomEnter? && op.uid == u && op.rid == r)
            || (r in w.rooms && u in w.rooms[r].members && !(leaves && place == Some(r)))
  {
  }

  /** The world after a run is what its requests say: who is connected, under which name and in
      which room, which rooms there are, how they are called and who is in them. */
  lemma {:induction false} WorldIsItsHistory(ops: seq<Op>)
    requires Run(ops)
    ensures UsersRemembered(ops, After(ops))
    ensures RoomsRemembered(ops, After(ops))
    ensures MembersRemembered(ops, After(ops))
  {
    if ops != [] {
      var n := |ops| - 1;
      WorldIsItsHistory(ops[..n]);
      RunsKnowIds(ops[..n]);
      UsersStep(ops[..n], ops[n]);
      RoomsStep(ops[..n], ops[n]);
      MembersStep(ops[..n], ops[n]);
      assert ops == ops[..n] + [ops[n]];
    }
  }

  // ---- Names on the screens ----

  /** `LastEntry` is the last request by which `u` enters a room, -1 if there is none. */
  lemma {:induction false} LastEntryExactly(ops: seq<Op>, u: Uid)
    ensures var i := LastEntry(ops, u);
            && (i >= 0 ==> ops[i].RoomEnter? && ops[i].uid == u)
            && forall j :: i < j < |ops| ==> !(ops[j].RoomEnter? && ops[j].uid == u)
  {
    if ops != [] {
      LastEntryExactly(ops[..|ops| - 1], u);
    }
  }

  /** A user is announced under the name it had last logged in with when it entered. */
  lemma {:induction false} EntryNameExactly(ops: seq<Op>, u: Uid)
    requires Run(ops)
    ensures var i := LastEntry(ops, u);
            EntryName(ops, u) == if i < 0 then [] else LatestNickname(ops[..i], u)
  {
    if ops != [] {
      var n := |ops| - 1;
      if ops[n].RoomEnter? && ops[n].uid == u {
        WorldIsItsHistory(ops[..n]);
      } else {
        EntryNameExactly(ops[..n], u);
        var i := LastEntry(ops, u);
        if i >= 0 {
          assert ops[..n][..i] == ops[..i];
        }
      }
    }
  }
}
