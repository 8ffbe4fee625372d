/** The member list that Room.cpp keeps at each session, whatever the clients do: no login, no
    client state, only the ROOM_ENTER and ROOM_EXIT packages since the user's own last entry. */
module Rosters {
  import opened Options
  import opened Sequences
  import opened Bytes
  import opened Packets
  import opened Chat
  import opened Views

  type Roster = map<Uid, Str>

  function Note(m: Roster, p: Packet): Roster {
    match p
    case SRoomEnter(uid, name) => m[uid := name]
    case SRoomExit(uid) => m - {uid}
    case _ => m
  }

  function Noted(m: Roster, ps: seq<Packet>): Roster {
    if ps == [] then m else Note(Noted(m, ps[..|ps| - 1]), ps[|ps| - 1])
  }

  lemma {:induction false} NotedConcat(m: Roster, a: seq<Packet>, b: seq<Packet>)
    ensures Noted(m, a + b) == Noted(Noted(m, a), b)
  {
    if b == [] {
      assert a + b == a;
    } else {
      var n := |b| - 1;
      assert (a + b)[..|a + b| - 1] == a + b[..n];
      NotedConcat(m, a, b[..n]);
    }
  }

  lemma {:induction false} NotedFew(m: Roster, p: Packet, q: Packet)
    ensures Noted(m, []) == m
    ensures Noted(m, [p]) == Note(m, p)
    ensures Noted(m, [p, q]) == Note(Note(m, p), q)
  {
    assert [p][..0] == [] && [p, q][..1] == [p];
  }

  predicate Unnoted(p: Packet) {
    !p.SRoomEnter? && !p.SRoomExit?
  }

  lemma {:induction false} UnnotedChangesNothing(m: Roster, ps: seq<Packet>)
    requires forall i :: 0 <= i < |ps| ==> Unnoted(ps[i])
    ensures Noted(m, ps) == m
  {
    if ps != [] {
      UnnotedChangesNothing(m, ps[..|ps| - 1]);
    }
  }

  /** The packages pushed to `u` since its latest entry, that of the entry included. */
  ghost function Heard(ops: seq<Op>, u: Uid): seq<Packet>
    requires Run(ops)
  {
    if ops == [] then []
    else
      var n := |ops| - 1;
      var now := ToSession(Apply(After(ops[..n]), ops[n]).out, u);
      if ops[n].RoomEnter? && ops[n].uid == u then now else Heard(ops[..n], u) + now
  }

  /** `Heard` is that part of the log. */
  lemma {:induction false} HeardSinceEntry(ops: seq<Op>, u: Uid)
    requires Run(ops) && LastEntry(ops, u) >= 0
    ensures Run(ops[..LastEntry(ops, u)])
    ensures |Log(ops[..LastEntry(ops, u)])| <= |Log(ops)|
    ensures Heard(ops, u) == ToSession(Log(ops)[|Log(ops[..LastEntry(ops, u)])|..], u)
    decreases |ops|
  {
    var n, k := |ops| - 1, LastEntry(ops, u);
    var past, out := ops[..n], Apply(After(ops[..n]), ops[n]).out;
    PrefixRuns(ops, k);
    if k == n {
      assert Log(ops)[|Log(past)|..] == out;
    } else {
      HeardSinceEntry(past, u);
      PrefixRuns(past, k);
      assert past[..k] == ops[..k];
      TailGrows(Log(past), out, |Log(ops[..k])|, u);
    }
  }

  /** `u`'s list is right: the members that entered with or after it. */
  ghost predicate RosterRight(ops: seq<Op>, u: Uid)
    requires Run(ops)
  {
    InRoomOf(After(ops), u) ==>
      Noted(map[], Heard(ops, u)) == Companions(ops, u, MembersAround(After(ops), u))
  }

  lemma {:induction false} HeardOneMore(ops: seq<Op>, op: Op, u: Uid)
    requires Run(ops) && Legal(After(ops), op) && Apply(After(ops), op).Done?
    ensures Run(ops + [op])
    ensures var now := ToSession(Apply(After(ops), op).out, u);
            Heard(ops + [op], u) == if op.RoomEnter? && op.uid == u then now else Heard(ops, u) + now
  {
    Extend(ops, op);
    assert (ops + [op])[..|ops|] == ops;
  }

  /** A request the server survives, and not an entry from inside another room. */
  ghost predicate MayFollow(ops: seq<Op>, op: Op) {
    Run(ops) && Agreement(After(ops)) && IdsKnown(After(ops))
    && Legal(After(ops), op) && Apply(After(ops), op).Done? && !CrossEnter(After(ops), op)
  }

  lemma {:induction false} NewcomerRoster(ops: seq<Op>, op: Op)
    requires MayFollow(ops, op) && op.RoomEnter? && Run(ops + [op])
    ensures RosterRight(ops + [op], op.uid)
  {
    Extend(ops, op);
    HeardOneMore(ops, op, op.uid);
    OwnEntryNews(After(ops), op);
    NewcomerCompanions(ops, op, After(ops).rooms[op.rid].members);
  }

  lemma {:induction false} OwnEntryNews(w: World, op: Op)
    requires op.RoomEnter? && Legal(w, op) && Apply(w, op).Done?
    ensures Noted(map[], ToSession(Apply(w, op).out, op.uid)) == map[op.uid := w.users[op.uid].nickname]
  {
    EntryNews(w, op, op.uid);
    NotedFew(map[], SRoomEnter(op.uid, w.users[op.uid].nickname), SRoomName(w.rooms[op.rid].name));
  }

  /** Somebody else enters `u`'s room, from the lobby or once more. */
  lemma {:induction false} HostRoster(ops: seq<Op>, op: Op, u: Uid)
    requires MayFollow(ops, op) && op.RoomEnter? && Run(ops + [op]) && RosterRight(ops, u)
    requires op.uid != u && u in After(ops).users && After(ops).users[u].room == Some(op.rid)
    ensures RosterRight(ops + [op], u)
  {
    Extend(ops, op);
    EntryHeard(ops, op, u);
    HostCompanions(ops, op, After(ops).rooms[op.rid].members, u);
  }

  lemma {:induction false} EntryHeard(ops: seq<Op>, op: Op, u: Uid)
    requires MayFollow(ops, op) && op.RoomEnter? && Run(ops + [op])
    requires op.uid != u && u in After(ops).rooms[op.rid].members
    ensures Noted(map[], Heard(ops + [op], u)) ==
            Noted(map[], Heard(ops, u))[op.uid := After(ops).users[op.uid].nickname]
  {
    var enter := SRoomEnter(op.uid, After(ops).users[op.uid].nickname);
    HeardOneMore(ops, op, u);
    EntryNews(After(ops), op, u);
    NotedConcat(map[], Heard(ops, u), [enter]);
    NotedFew(Noted(map[], Heard(ops, u)), enter, enter);
  }

  /** Somebody else leaves `u`'s room. */
  lemma {:induction false} MateRoster(ops: seq<Op>, op: Op, u: Uid)
    requires MayFollow(ops, op) && Run(ops + [op]) && RosterRight(ops, u)
    requires op.RoomExit? || op.ServerExit? || op.Disconnect?
    requires InRoomOf(After(ops), op.uid) && op.uid != u
    requires u in MembersAround(After(ops), op.uid)
    ensures RosterRight(ops + [op], u)
  {
    var w := After(ops);
    var r := w.users[op.uid].room.value;
    assert w.users[u].room == Some(r);
    Extend(ops, op);
    ExitHeard(ops, op, u);
    MateStays(w, op, u);
    MateCompanions(ops, op, w.rooms[r].members, u);
  }

  lemma {:induction false} ExitHeard(ops: seq<Op>, op: Op, u: Uid)
    requires MayFollow(ops, op) && Run(ops + [op])
    requires op.RoomExit? || op.ServerExit? || op.Disconnect?
    requires InRoomOf(After(ops), op.uid) && op.uid != u
    requires u in MembersAround(After(ops), op.uid)
    ensures Noted(map[], Heard(ops + [op], u)) == Noted(map[], Heard(ops, u)) - {op.uid}
  {
    var exit := SRoomExit(op.uid);
    HeardOneMore(ops, op, u);
    ExitNews(After(ops), op, u);
    NotedConcat(map[], Heard(ops, u), [exit]);
    NotedFew(Noted(map[], Heard(ops, u)), exit, exit);
  }

  /** The request neither tells `u` of members nor changes its room. */
  lemma {:induction false} StrangerRoster(ops: seq<Op>, op: Op, u: Uid)
    requires MayFollow(ops, op) && Run(ops + [op]) && RosterRight(ops, u)
    requires op.RoomEnter? ==> op.uid != u
    requires InRoomOf(After(ops), u) && InRoomOf(After(ops + [op]), u)
    requires MembersAround(After(ops + [op]), u) == MembersAround(After(ops), u)
    requires op.RoomEnter? ==> op.uid !in MembersAround(After(ops), u)
    requires var now := ToSession(Apply(After(ops), op).out, u); forall i :: 0 <= i < |now| ==> Unnoted(now[i])
    ensures RosterRight(ops + [op], u)
  {
    UnnotedHeard(ops, op, u);
    StrangerCompanions(ops, op, MembersAround(After(ops), u), u);
  }

  lemma {:induction false} UnnotedHeard(ops: seq<Op>, op: Op, u: Uid)
    requires Run(ops) && Legal(After(ops), op) && Apply(After(ops), op).Done? && Run(ops + [op])
    requires op.RoomEnter? ==> op.uid != u
    requires var now := ToSession(Apply(After(ops), op).out, u); forall i :: 0 <= i < |now| ==> Unnoted(now[i])
    ensures Noted(map[], Heard(ops + [op], u)) == Noted(map[], Heard(ops, u))
  {
    var now := ToSession(Apply(After(ops), op).out, u);
    HeardOneMore(ops, op, u);
    NotedConcat(map[], Heard(ops, u), now);
    UnnotedChangesNothing(Noted(map[], Heard(ops, u)), now);
  }

  lemma {:induction false} StrangerCompanions(ops: seq<Op>, op: Op, members: set<Uid>, u: Uid)
    requires Run(ops) && Legal(After(ops), op) && Apply(After(ops), op).Done? && Run(ops + [op])
    requires op.RoomEnter? ==> op.uid != u && op.uid !in members
    ensures Companions(ops + [op], u, members) == Companions(ops, u, members)
  {
    Extend(ops, op);
  }

  // ---- The cases put together ----

  /** A request that leaves `u` where it is and does not concern its room. */
  ghost predicate Elsewhere(w: World, op: Op, u: Uid)
    requires Apply(w, op).Done?
  {
    var w' := Apply(w, op).world;
    && InRoomOf(w, u) && InRoomOf(w', u) && MembersAround(w', u) == MembersAround(w, u)
    && (op.RoomEnter? ==> op.uid != u && op.uid !in MembersAround(w, u))
  }

  /** An entry into another room. */
  lemma {:induction false} OtherEntry(w: World, op: Op, u: Uid)
    requires Agreement(w) && Legal(w, op) && Apply(w, op).Done? && !CrossEnter(w, op) && op.RoomEnter?
    requires InRoomOf(w, u) && op.uid != u && w.users[u].room != Some(op.rid)
    ensures Elsewhere(w, op, u) && ToSession(Apply(w, op).out, u) == []
  {
    EntryNews(w, op, u);
    assert op.uid !in MembersAround(w, u);
  }

  /** A departure from another room, or of a user in the lobby. */
  lemma {:induction false} OtherExit(w: World, op: Op, u: Uid)
    requires Agreement(w) && Legal(w, op) && Apply(w, op).Done?
    requires op.RoomExit? || op.ServerExit? || op.Disconnect?
    requires InRoomOf(w, u) && op.uid != u
    requires InRoomOf(w, op.uid) ==> w.users[op.uid].room != w.users[u].room
    ensures Elsewhere(w, op, u) && ToSession(Apply(w, op).out, u) == []
  {
    if InRoomOf(w, op.uid) {
      assert u !in MembersAround(w, op.uid);
      ExitNews(w, op, u);
    }
  }

  /** Requests that move nobody. */
  lemma {:induction false} TalkOnly(w: World, op: Op, u: Uid)
    requires Agreement(w) && IdsKnown(w) && Legal(w, op) && Apply(w, op).Done?
    requires !op.RoomEnter? && !op.RoomExit? && !op.ServerExit? && !op.Disconnect?
    requires InRoomOf(w, u)
    ensures Elsewhere(w, op, u)
    ensures var now := ToSession(Apply(w, op).out, u); forall i :: 0 <= i < |now| ==> Unnoted(now[i])
  {
    if op.ServerEnter? {
      TwoToSession(To(op.uid, SServerEnterOk(op.uid)), To(op.uid, RoomInfo(w.rooms)), u);
    } else {
      OtherOutIsNeutral(w, op, u);
      OthersMoveNobody(w, op, u);
    }
  }

  lemma {:induction false} RosterStep(ops: seq<Op>, op: Op, u: Uid)
    requires MayFollow(ops, op) && Run(ops + [op]) && RosterRight(ops, u)
    ensures RosterRight(ops + [op], u)
  {
    var w := After(ops);
    Extend(ops, op);
    if op.RoomEnter? {
      EntryStep(ops, op, u);
    } else if op.RoomExit? || op.ServerExit? || op.Disconnect? {
      ExitStep(ops, op, u);
    } else if InRoomOf(w, u) {
      TalkOnly(w, op, u);
      StrangerRoster(ops, op, u);
    } else {
      TalkBringsNobodyIn(w, op, u);
    }
  }

  lemma {:induction false} TalkBringsNobodyIn(w: World, op: Op, u: Uid)
    requires Agreement(w) && IdsKnown(w) && Apply(w, op).Done? && !op.RoomEnter? && !InRoomOf(w, u)
    ensures !InRoomOf(Apply(w, op).world, u)
  {
  }

  lemma {:induction false} EntryStep(ops: seq<Op>, op: Op, u: Uid)
    requires MayFollow(ops, op) && Run(ops + [op]) && RosterRight(ops, u) && op.RoomEnter?
    ensures RosterRight(ops + [op], u)
  {
    var w := After(ops);
    Extend(ops, op);
    if op.uid == u {
      NewcomerRoster(ops, op);
    } else if InRoomOf(w, u) && w.users[u].room == Some(op.rid) {
      HostRoster(ops, op, u);
    } else if InRoomOf(w, u) {
      OtherEntry(w, op, u);
      StrangerRoster(ops, op, u);
    }
  }

  lemma {:induction false} ExitStep(ops: seq<Op>, op: Op, u: Uid)
    requires MayFollow(ops, op) && Run(ops + [op]) && RosterRight(ops, u)
    requires op.RoomExit? || op.ServerExit? || op.Disconnect?
    ensures RosterRight(ops + [op], u)
  {
    var w := After(ops);
    Extend(ops, op);
    if !InRoomOf(w, u) || op.uid == u {
      ExitBringsNobodyIn(w, op, u);
    } else if InRoomOf(w, op.uid) && w.users[op.uid].room == w.users[u].room {
      MateRoster(ops, op, u);
    } else {
      OtherExit(w, op, u);
      StrangerRoster(ops, op, u);
    }
  }

  lemma {:induction false} ExitBringsNobodyIn(w: World, op: Op, u: Uid)
    requires Agreement(w) && Apply(w, op).Done? && (op.RoomExit? || op.ServerExit? || op.Disconnect?)
    requires !InRoomOf(w, u) || op.uid == u
    ensures !InRoomOf(Apply(w, op).world, u)
  {
  }

  /** In every run in which nobody enters a room from inside another one, whoever logs in when:
      for every user in a room, adding up the entries and exits pushed to its session since its
      own latest entry gives exactly the members whose latest entry is not earlier. */
  lemma {:induction false} RosterReconstruction(ops: seq<Op>, u: Uid)
    requires Run(ops) && NoCrossEnter(ops)
    ensures RosterRight(ops, u)
    decreases |ops|
  {
    if ops != [] {
      var n := |ops| - 1;
      RosterReconstruction(ops[..n], u);
      MembershipAgreesExactly(ops[..n]);
      RunsKnowIds(ops[..n]);
      SplitEnd(ops);
      RosterStep(ops[..n], ops[n], u);
    }
  }

  lemma {:induction false} InRoomHasEntered(ops: seq<Op>, u: Uid)
    requires Run(ops) && u in After(ops).users && After(ops).users[u].room.Some?
    ensures LastEntry(ops, u) >= 0
    decreases |ops|
  {
    if ops != [] {
      var past, op := ops[..|ops| - 1], ops[|ops| - 1];
      SplitEnd(ops);
      Extend(past, op);
      if !(op.RoomEnter? && op.uid == u) {
        RoomsComeFromEntries(After(past), op, u);
        InRoomHasEntered(past, u);
      }
    }
  }

  lemma {:induction false} RoomsComeFromEntries(w: World, op: Op, u: Uid)
    requires Apply(w, op).Done? && !(op.RoomEnter? && op.uid == u)
    requires u in Apply(w, op).world.users && Apply(w, op).world.users[u].room.Some?
    ensures u in w.users && w.users[u].room.Some?
  {
  }

  /** The same in terms of the log. */
  lemma {:induction false} LogGivesRoster(ops: seq<Op>, u: Uid)
    requires Run(ops) && NoCrossEnter(ops) && InRoomOf(After(ops), u)
    ensures LastEntry(ops, u) >= 0 && Run(ops[..LastEntry(ops, u)])
    ensures |Log(ops[..LastEntry(ops, u)])| <= |Log(ops)|
    ensures Noted(map[], ToSession(Log(ops)[|Log(ops[..LastEntry(ops, u)])|..], u)) ==
            map v | v in MembersAround(After(ops), u) && LastEntry(ops, v) >= LastEntry(ops, u) :: EntryName(ops, v)
  {
    InRoomHasEntered(ops, u);
    HeardSinceEntry(ops, u);
    RosterReconstruction(ops, u);
  }
}
