/** A packet's way from one `SendPacket` to the other side's `GetPacket`
    (IoData.h, Session.cpp, PacketFactory.h), and when it arrives unchanged. */
module Wires {
  import opened Options
  import opened Bytes
  import opened Packets
  import opened Streams
  import opened Codec

  predicate AllOk(vs: seq<Str>) {
    forall i :: 0 <= i < |vs| ==> StrOk(vs[i])
  }

  /** The packets whose `decode` undoes their `encode`. */
  predicate WellFormed(p: Packet) {
    match p
    case PkUndefined(code) => code == 0
    case CServerEnter(nickname) => StrOk(nickname)
    case CBroadcast(text) => StrOk(text)
    case CMulticast(text) => StrOk(text)
    case CUnicast(recver, text) => StrOk(recver) && StrOk(text)
    case CRoomCreate(roomName) => StrOk(roomName)
    case SLobbyRoomInfo(_, ids, names) => |ids| == |names| && AllOk(names)
    case SLobbyUserInfo(_, _, ids, names) => |ids| == |names| && AllOk(names)
    case SLobbyEnter(_, nickname) => StrOk(nickname)
    case SRoomEnter(_, name) => StrOk(name)
    case SRoomName(roomName) => StrOk(roomName)
    case SBroadcast(nickname, text) => StrOk(nickname) && StrOk(text)
    case SMulticast(nickname, text) => StrOk(nickname) && StrOk(text)
    case SUnicastOk(nickname, text) => StrOk(nickname) && StrOk(text)
    case _ => true
  }

  /** `s` lies in buffer `m` from `i` on. */
  predicate At(m: seq<Byte>, i: nat, s: seq<Byte>) {
    |m| == SOCKBUF_SIZE && i + |s| <= |m| && m[i..i + |s|] == s
  }

  lemma {:induction false} AtSplit(m: seq<Byte>, i: nat, a: seq<Byte>, b: seq<Byte>)
    requires At(m, i, a + b)
    ensures At(m, i, a) && At(m, i + |a|, b)
  {
    var w := m[i..i + |a + b|];
    assert m[i..i + |a|] == w[..|a|] == a;
    assert m[i + |a|..i + |a| + |b|] == w[|a|..] == b;
  }

  lemma {:induction false} U16sAt(m: seq<Byte>, i: nat, vs: seq<U16>)
    requires At(m, i, U16sBytes(vs))
    ensures ReadU16s(m, i, |vs|) == Value(vs, i + |U16sBytes(vs)|)
    decreases |vs|
  {
    if vs != [] {
      AtSplit(m, i, U16Bytes(vs[0]), U16sBytes(vs[1..]));
      U16At(m, i, vs[0]);
      U16sAt(m, i + 2, vs[1..]);
      assert [vs[0]] + vs[1..] == vs;
    }
  }

  lemma {:induction false} U32sAt(m: seq<Byte>, i: nat, vs: seq<U32>)
    requires At(m, i, U32sBytes(vs))
    ensures ReadU32s(m, i, |vs|) == Value(vs, i + |U32sBytes(vs)|)
    decreases |vs|
  {
    if vs != [] {
      AtSplit(m, i, U32Bytes(vs[0]), U32sBytes(vs[1..]));
      U32At(m, i, vs[0]);
      U32sAt(m, i + 4, vs[1..]);
      assert [vs[0]] + vs[1..] == vs;
    }
  }

  /** A list of strings whose head and tail are read; the flags say whether these survive. */
  lemma {:induction false} StrsCons(m: seq<Byte>, i: nat, v: Str, z: nat, vs: seq<Str>, e: nat,
                                    okHead: bool, okTail: bool)
    requires |m| == SOCKBUF_SIZE
    requires okHead ==> ReadStr(m, i) == Value(v, z)
    requires var r := ReadStr(m, i); r.Value? && r.value == v ==> okHead
    requires okTail ==> ReadStrs(m, z, |vs|) == Value(vs, e)
    requires var r := ReadStrs(m, z, |vs|); r.Value? && r.value == vs ==> okTail
    ensures okHead && okTail ==> ReadStrs(m, i, |vs| + 1) == Value([v] + vs, e)
    ensures var r := ReadStrs(m, i, |vs| + 1); r.Value? && r.value == [v] + vs ==> okHead && okTail
  {
    var r := ReadStrs(m, i, |vs| + 1);
    if r.Value? && r.value == [v] + vs {
      assert r.value[0] == ReadStr(m, i).value;
      assert r.value[1..] == vs;
    }
  }

  lemma {:induction false} AllOkCons(v: Str, vs: seq<Str>)
    ensures AllOk([v] + vs) <==> StrOk(v) && AllOk(vs)
  {
    var all := [v] + vs;
    assert all[0] == v && all[1..] == vs;
    assert forall i :: 0 <= i < |vs| ==> all[i + 1] == vs[i];
  }

  lemma {:induction false} StrHead(m: seq<Byte>, i: nat, v: Str, rest: seq<Byte>)
    requires At(m, i, StrBytes(v) + rest)
    ensures At(m, i + |v| + 1, rest)
    ensures StrOk(v) ==> ReadStr(m, i) == Value(v, i + |v| + 1)
    ensures var r := ReadStr(m, i); r.Value? && r.value == v ==> StrOk(v)
  {
    AtSplit(m, i, StrBytes(v), rest);
    StrRoundTrip(m, i, v);
  }

  /** A list of strings is read back exactly when each of them survives on its own. */
  lemma {:induction false} StrsAt(m: seq<Byte>, i: nat, vs: seq<Str>)
    requires At(m, i, StrsBytes(vs))
    ensures AllOk(vs) ==> ReadStrs(m, i, |vs|) == Value(vs, i + |StrsBytes(vs)|)
    ensures var r := ReadStrs(m, i, |vs|); r.Value? && r.value == vs ==> AllOk(vs)
    decreases |vs|
  {
    if vs != [] {
      var v, rest := vs[0], vs[1..];
      var z := i + |v| + 1;
      StrHead(m, i, v, StrsBytes(rest));
      StrsAt(m, z, rest);
      StrsCons(m, i, v, z, rest, z + |StrsBytes(rest)|, StrOk(v), AllOk(rest));
      assert vs == [v] + rest;
      AllOkCons(v, rest);
    }
  }

  lemma {:induction false} TwoStrsAt(m: seq<Byte>, i: nat, a: Str, b: Str)
    requires At(m, i, StrBytes(a) + StrBytes(b))
    ensures StrOk(a) && StrOk(b) ==> ReadTwoStrs(m, i) == Value((a, b), i + |a| + 1 + |b| + 1)
    ensures var r := ReadTwoStrs(m, i); r.Value? && r.value == (a, b) ==> StrOk(a) && StrOk(b)
  {
    AtSplit(m, i, StrBytes(a), StrBytes(b));
    StrRoundTrip(m, i, a);
    StrRoundTrip(m, i + |a| + 1, b);
  }

  lemma {:induction false} IdAndStrAt(m: seq<Byte>, i: nat, id: U32, v: Str)
    requires At(m, i, U32Bytes(id) + StrBytes(v))
    ensures StrOk(v) ==> ReadIdAndStr(m, i) == Value((id, v), i + 4 + |v| + 1)
    ensures var r := ReadIdAndStr(m, i); r.Value? && r.value == (id, v) ==> StrOk(v)
  {
    AtSplit(m, i, U32Bytes(id), StrBytes(v));
    U32At(m, i, id);
    StrRoundTrip(m, i + 4, v);
  }

  /** Within the buffer the 16-bit count cannot wrap: every name takes a byte. */
  lemma {:induction false} CountFits(names: seq<Str>)
    requires |StrsBytes(names)| <= SOCKBUF_SIZE
    ensures Truncated(|names|) == |names|
  {
  }

  lemma {:induction false} CountAt(m: seq<Byte>, i: nat, n: U16, rest: seq<Byte>)
    requires At(m, i, U16Bytes(n) + rest)
    ensures ReadU16(m, i) == Value(n, i + 2) && At(m, i + 2, rest)
  {
    AtSplit(m, i, U16Bytes(n), rest);
    U16At(m, i, n);
  }

  /** The lobby room list: one count, all ids, all names. */
  lemma {:induction false} RoomInfoAt(m: seq<Byte>, i: nat, p: Packet)
    requires p.SLobbyRoomInfo? && At(m, i, Body(p))
    ensures WellFormed(p) ==> ReadRoomInfo(m, i) == Value(Counted(p), i + |Body(p)|)
    ensures var r := ReadRoomInfo(m, i); r.Value? && r.value == Counted(p) ==> WellFormed(p)
  {
    CountFits(p.roomNames);
    RoomsAt(m, i, p.roomIds, p.roomNames);
  }

  lemma {:induction false} RoomsAt(m: seq<Byte>, i: nat, ids: seq<U16>, names: seq<Str>)
    requires |names| < 0x1_0000
    requires At(m, i, U16Bytes(|names|) + (U16sBytes(ids) + StrsBytes(names)))
    ensures |ids| == |names| && AllOk(names) ==>
              ReadRoomInfo(m, i) == Value(SLobbyRoomInfo(|names|, ids, names),
                                          i + 2 + |U16sBytes(ids)| + |StrsBytes(names)|)
    ensures var r := ReadRoomInfo(m, i); r.Value? && r.value == SLobbyRoomInfo(|names|, ids, names) ==>
              |ids| == |names| && AllOk(names)
  {
    CountAt(m, i, |names|, U16sBytes(ids) + StrsBytes(names));
    if |ids| == |names| {
      var z := i + 2 + |U16sBytes(ids)|;
      AtSplit(m, i + 2, U16sBytes(ids), StrsBytes(names));
      U16sAt(m, i + 2, ids);
      StrsAt(m, z, names);
      RoomInfoParts(m, i, |names|, ids, z, names, z + |StrsBytes(names)|, AllOk(names));
    } else {
      RoomInfoLengths(m, i);
    }
  }

  /** The room list once its parts are read; `ok` says whether the names survive. */
  lemma {:induction false} RoomInfoParts(m: seq<Byte>, i: nat, n: U16, ids: seq<U16>, z: nat,
                                         names: seq<Str>, e: nat, ok: bool)
    requires |m| == SOCKBUF_SIZE && ReadU16(m, i) == Value(n, i + 2)
    requires ReadU16s(m, i + 2, n) == Value(ids, z)
    requires ok ==> ReadStrs(m, z, n) == Value(names, e)
    requires var r := ReadStrs(m, z, n); r.Value? && r.value == names ==> ok
    ensures ok ==> ReadRoomInfo(m, i) == Value(SLobbyRoomInfo(n, ids, names), e)
    ensures var r := ReadRoomInfo(m, i); r.Value? && r.value == SLobbyRoomInfo(n, ids, names) ==> ok
  {
  }

  lemma {:induction false} RoomInfoLengths(m: seq<Byte>, i: nat)
    requires |m| == SOCKBUF_SIZE
    ensures var r := ReadRoomInfo(m, i);
            r.Value? ==> r.value.SLobbyRoomInfo? && |r.value.roomIds| == |r.value.roomNames|
  {
  }

  lemma {:induction false} UsersAt(m: seq<Byte>, i: nat, ids: seq<U32>, names: seq<Str>)
    requires At(m, i, U16Bytes(Truncated(|names|)) + (U32sBytes(ids) + StrsBytes(names)))
    ensures Truncated(|names|) == |names|
    ensures |ids| == |names| && AllOk(names) ==>
              ReadUsers(m, i) == Value((ids, names), i + 2 + |U32sBytes(ids)| + |StrsBytes(names)|)
    ensures var r := ReadUsers(m, i); r.Value? && r.value == (ids, names) ==>
              |ids| == |names| && AllOk(names)
  {
    CountFits(names);
    CountedUsersAt(m, i, ids, names);
  }

  lemma {:induction false} CountedUsersAt(m: seq<Byte>, i: nat, ids: seq<U32>, names: seq<Str>)
    requires |names| < 0x1_0000
    requires At(m, i, U16Bytes(|names|) + (U32sBytes(ids) + StrsBytes(names)))
    ensures |ids| == |names| && AllOk(names) ==>
              ReadUsers(m, i) == Value((ids, names), i + 2 + |U32sBytes(ids)| + |StrsBytes(names)|)
    ensures var r := ReadUsers(m, i); r.Value? && r.value == (ids, names) ==>
              |ids| == |names| && AllOk(names)
  {
    CountAt(m, i, |names|, U32sBytes(ids) + StrsBytes(names));
    if |ids| == |names| {
      var z := i + 2 + |U32sBytes(ids)|;
      AtSplit(m, i + 2, U32sBytes(ids), StrsBytes(names));
      U32sAt(m, i + 2, ids);
      StrsAt(m, z, names);
      UsersParts(m, i, |names|, ids, z, names, z + |StrsBytes(names)|, AllOk(names));
    }
  }

  /** The users once their parts are read; `ok` says whether the names survive. */
  lemma {:induction false} UsersParts(m: seq<Byte>, i: nat, n: U16, ids: seq<U32>, z: nat,
                                      names: seq<Str>, e: nat, ok: bool)
    requires |m| == SOCKBUF_SIZE && ReadU16(m, i) == Value(n, i + 2)
    requires ReadU32s(m, i + 2, n) == Value(ids, z)
    requires ok ==> ReadStrs(m, z, n) == Value(names, e)
    requires var r := ReadStrs(m, z, n); r.Value? && r.value == names ==> ok
    ensures ok ==> ReadUsers(m, i) == Value((ids, names), e)
    ensures var r := ReadUsers(m, i); r.Value? && r.value == (ids, names) ==> ok
  {
  }

  lemma {:induction false} UserInfoAt(m: seq<Byte>, i: nat, p: Packet)
    requires p.SLobbyUserInfo? && At(m, i, Body(p))
    ensures WellFormed(p) ==> ReadUserInfo(m, i) == Value(Counted(p), i + |Body(p)|)
    ensures var r := ReadUserInfo(m, i); r.Value? && r.value == Counted(p) ==> WellFormed(p)
  {
    AtSplit(m, i, U16Bytes(p.roomCount),
            U16Bytes(Truncated(|p.names|)) + (U32sBytes(p.ids) + StrsBytes(p.names)));
    U16At(m, i, p.roomCount);
    UsersAt(m, i + 2, p.ids, p.names);
  }

  predicate OneString(p: Packet) {
    p.CServerEnter? || p.CBroadcast? || p.CMulticast? || p.CRoomCreate? || p.SRoomName?
  }

  predicate TwoStrings(p: Packet) {
    p.SBroadcast? || p.SMulticast? || p.SUnicastOk?
  }

  predicate List(p: Packet) {
    p.SLobbyRoomInfo? || p.SLobbyUserInfo?
  }

  /** What `BodyRoundTrip` states, for one packet. */
  ghost predicate RoundTrips(m: seq<Byte>, i: nat, p: Packet)
    requires |m| == SOCKBUF_SIZE
  {
    var r := DecodeAt(TypeOf(p), m, i);
    && (WellFormed(p) <==> r == Value(Counted(p), i + |Body(p)|))
    && (r.Value? && r.value == Counted(p) ==> WellFormed(p))
  }

  lemma {:induction false} OneStringRoundTrip(m: seq<Byte>, i: nat, p: Packet)
    requires OneString(p) && At(m, i, Body(p))
    ensures RoundTrips(m, i, p)
  {
    match p {
      case CServerEnter(v) => StrRoundTrip(m, i, v);
      case CBroadcast(v) => StrRoundTrip(m, i, v);
      case CMulticast(v) => StrRoundTrip(m, i, v);
      case CRoomCreate(v) => StrRoundTrip(m, i, v);
      case SRoomName(v) => StrRoundTrip(m, i, v);
    }
  }

  lemma {:induction false} TwoStringsRoundTrip(m: seq<Byte>, i: nat, p: Packet)
    requires TwoStrings(p) && At(m, i, Body(p))
    ensures RoundTrips(m, i, p)
  {
    TwoStrsAt(m, i, p.nickname, p.text);
  }

  lemma {:induction false} UnicastRoundTrip(m: seq<Byte>, i: nat, p: Packet)
    requires p.CUnicast? && At(m, i, Body(p))
    ensures RoundTrips(m, i, p)
  {
    TwoStrsAt(m, i, p.recver, p.text);
  }

  predicate OneNumber(p: Packet) {
    p.CRoomEnter? || p.SServerEnterOk? || p.SRoomExit?
  }

  lemma {:induction false} OneNumberRoundTrip(m: seq<Byte>, i: nat, p: Packet)
    requires OneNumber(p) && At(m, i, Body(p))
    ensures RoundTrips(m, i, p)
  {
    match p {
      case CRoomEnter(rid) => U16At(m, i, rid);
      case SServerEnterOk(pid) => U32At(m, i, pid);
      case SRoomExit(uid) => U32At(m, i, uid);
    }
  }

  lemma {:induction false} RoomInfoRoundTrip(m: seq<Byte>, i: nat, p: Packet)
    requires p.SLobbyRoomInfo? && At(m, i, Body(p))
    ensures RoundTrips(m, i, p)
  {
    RoomInfoAt(m, i, p);
  }

  lemma {:induction false} UserInfoRoundTrip(m: seq<Byte>, i: nat, p: Packet)
    requires p.SLobbyUserInfo? && At(m, i, Body(p))
    ensures RoundTrips(m, i, p)
  {
    UserInfoAt(m, i, p);
  }

  predicate Bare(p: Packet) {
    || p.PkUndefined? || p.CServerExit? || p.CRoomExit? || p.CLobbyRoomInfo?
    || p.SServerEnterNo? || p.SLobbyExit? || p.SUnicastNo?
  }

  lemma {:induction false} BareRoundTrip(m: seq<Byte>, i: nat, p: Packet)
    requires Bare(p) && At(m, i, Body(p))
    ensures RoundTrips(m, i, p)
  {
  }

  lemma {:induction false} IdAndStrRoundTrip(m: seq<Byte>, i: nat, p: Packet)
    requires (p.SLobbyEnter? || p.SRoomEnter?) && At(m, i, Body(p))
    ensures RoundTrips(m, i, p)
  {
    match p {
      case SLobbyEnter(uid, nickname) => IdAndStrAt(m, i, uid, nickname);
      case SRoomEnter(uid, name) => IdAndStrAt(m, i, uid, name);
    }
  }

  /** Decoding an encoded body, wherever it lies and whatever follows it, gives the packet
      back and stops right behind it, for exactly the well-formed packets. */
  lemma {:induction false} BodyRoundTrip(m: seq<Byte>, i: nat, p: Packet)
    requires At(m, i, Body(p))
    ensures WellFormed(p) <==> DecodeAt(TypeOf(p), m, i) == Value(Counted(p), i + |Body(p)|)
    ensures var r := DecodeAt(TypeOf(p), m, i); r.Value? && r.value == Counted(p) ==> WellFormed(p)
  {
    if OneString(p) {
      OneStringRoundTrip(m, i, p);
    } else if TwoStrings(p) {
      TwoStringsRoundTrip(m, i, p);
    } else if p.CUnicast? {
      UnicastRoundTrip(m, i, p);
    } else if p.SLobbyEnter? || p.SRoomEnter? {
      IdAndStrRoundTrip(m, i, p);
    } else if OneNumber(p) {
      OneNumberRoundTrip(m, i, p);
    } else if p.SLobbyRoomInfo? {
      RoomInfoRoundTrip(m, i, p);
    } else if p.SLobbyUserInfo? {
      UserInfoRoundTrip(m, i, p);
    } else {
      BareRoundTrip(m, i, p);
    }
  }

  // ---- Where the fields lie ----

  /** `w` is these names, one behind the other, each with its NUL. */
  ghost predicate NamesIn(w: seq<Byte>, names: seq<Str>)
    decreases |names|
  {
    if names == [] then w == []
    else
      var n := |names[0]|;
      n < |w| && w[..n] == names[0] && w[n] == 0 && NamesIn(w[n + 1..], names[1..])
  }

  /** `w` is these numbers, one behind the other, each in `size` bytes. */
  ghost predicate NumbersIn(w: seq<Byte>, size: nat, numbers: seq<nat>)
    decreases |numbers|
  {
    if numbers == [] then w == []
    else size <= |w| && LittleEndian(w[..size]) == numbers[0] && NumbersIn(w[size..], size, numbers[1..])
  }

  /** The fields as they follow the four bytes of the header, numbers as `LittleEndian`. */
  ghost predicate LaidOut(w: seq<Byte>, p: Packet)
    requires |w| >= 4
  {
    match p
    case CServerEnter(nickname) => w[4..] == nickname + [0]
    case CRoomEnter(rid) => |w| == 6 && LittleEndian(w[4..]) == rid
    case CBroadcast(text) => w[4..] == text + [0]
    case CMulticast(text) => w[4..] == text + [0]
    case CUnicast(recver, text) => w[4..] == recver + [0] + text + [0]
    case CRoomCreate(roomName) => w[4..] == roomName + [0]
    case SServerEnterOk(pid) => |w| == 8 && LittleEndian(w[4..]) == pid
    case SLobbyRoomInfo(_, ids, names) =>
      var n := 6 + 2 * |ids|;
      && |w| >= n && LittleEndian(w[4..6]) == |names| % 0x1_0000
      && NumbersIn(w[6..n], 2, ids) && NamesIn(w[n..], names)
    case SLobbyUserInfo(rooms, _, ids, names) =>
      var n := 8 + 4 * |ids|;
      && |w| >= n && LittleEndian(w[4..6]) == rooms && LittleEndian(w[6..8]) == |names| % 0x1_0000
      && NumbersIn(w[8..n], 4, ids) && NamesIn(w[n..], names)
    case SLobbyEnter(uid, nickname) => |w| >= 8 && LittleEndian(w[4..8]) == uid && w[8..] == nickname + [0]
    case SRoomEnter(uid, name) => |w| >= 8 && LittleEndian(w[4..8]) == uid && w[8..] == name + [0]
    case SRoomExit(uid) => |w| == 8 && LittleEndian(w[4..]) == uid
    case SRoomName(roomName) => w[4..] == roomName + [0]
    case SBroadcast(nickname, text) => w[4..] == nickname + [0] + text + [0]
    case SMulticast(nickname, text) => w[4..] == nickname + [0] + text + [0]
    case SUnicastOk(nickname, text) => w[4..] == nickname + [0] + text + [0]
    case _ => |w| == 4
  }

  lemma {:induction false} U16sLie(vs: seq<U16>)
    ensures |U16sBytes(vs)| == 2 * |vs| && NumbersIn(U16sBytes(vs), 2, vs)
    decreases |vs|
  {
    if vs != [] {
      var first, rest := U16Bytes(vs[0]), U16sBytes(vs[1..]);
      U16sLie(vs[1..]);
      U16IsLittleEndian(vs[0], first);
      assert (first + rest)[..2] == first && (first + rest)[2..] == rest;
    }
  }

  lemma {:induction false} U32sLie(vs: seq<U32>)
    ensures |U32sBytes(vs)| == 4 * |vs| && NumbersIn(U32sBytes(vs), 4, vs)
    decreases |vs|
  {
    if vs != [] {
      var first, rest := U32Bytes(vs[0]), U32sBytes(vs[1..]);
      U32sLie(vs[1..]);
      U32IsLittleEndian(vs[0], first);
      assert (first + rest)[..4] == first && (first + rest)[4..] == rest;
    }
  }

  lemma {:induction false} StrsLie(names: seq<Str>)
    ensures NamesIn(StrsBytes(names), names)
    decreases |names|
  {
    if names != [] {
      var n, rest := |names[0]|, StrsBytes(names[1..]);
      StrsLie(names[1..]);
      var w := StrBytes(names[0]) + rest;
      assert w[..n] == names[0] && w[n] == 0 && w[n + 1..] == rest;
    }
  }

  lemma {:induction false} RoomInfoLaidOut(p: Packet)
    requires p.SLobbyRoomInfo?
    ensures LaidOut(Wire(p), p)
  {
    var ids, names := U16sBytes(p.roomIds), StrsBytes(p.roomNames);
    var count := U16Bytes(Truncated(|p.roomNames|));
    U16sLie(p.roomIds);
    StrsLie(p.roomNames);
    U16IsLittleEndian(Truncated(|p.roomNames|), count);
    FewerPieces(U32Bytes(Tag(TypeOf(p))), count, ids, names);
  }

  lemma {:induction false} FewerPieces(a: seq<Byte>, b: seq<Byte>, c: seq<Byte>, d: seq<Byte>)
    ensures var w := a + (b + (c + d)); var n := |a| + |b|;
            w[|a|..n] == b && w[n..n + |c|] == c && w[n + |c|..] == d
  {
  }

  lemma {:induction false} UserInfoLaidOut(p: Packet)
    requires p.SLobbyUserInfo?
    ensures LaidOut(Wire(p), p)
  {
    var ids, names := U32sBytes(p.ids), StrsBytes(p.names);
    var rooms, count := U16Bytes(p.roomCount), U16Bytes(Truncated(|p.names|));
    U32sLie(p.ids);
    StrsLie(p.names);
    U16IsLittleEndian(p.roomCount, rooms);
    U16IsLittleEndian(Truncated(|p.names|), count);
    Pieces(U32Bytes(Tag(TypeOf(p))), rooms, count, ids, names);
  }

  lemma {:induction false} Pieces(a: seq<Byte>, b: seq<Byte>, c: seq<Byte>, d: seq<Byte>, e: seq<Byte>)
    ensures var w := a + (b + (c + (d + e))); var n := |a| + |b| + |c|;
            && w[|a|..|a| + |b|] == b && w[|a| + |b|..n] == c
            && w[n..n + |d|] == d && w[n + |d|..] == e
  {
  }

  lemma {:induction false} NumbersLaidOut(p: Packet)
    requires OneNumber(p) || p.SLobbyEnter? || p.SRoomEnter?
    ensures LaidOut(Wire(p), p)
  {
    var w := Wire(p);
    match p {
      case CRoomEnter(rid) =>
        U16IsLittleEndian(rid, [0, 0]);
        assert w[4..] == U16Bytes(rid);
      case SServerEnterOk(pid) =>
        U32IsLittleEndian(pid, [0, 0, 0, 0]);
        assert w[4..] == U32Bytes(pid);
      case SRoomExit(uid) =>
        U32IsLittleEndian(uid, [0, 0, 0, 0]);
        assert w[4..] == U32Bytes(uid);
      case SLobbyEnter(uid, name) =>
        U32IsLittleEndian(uid, [0, 0, 0, 0]);
        assert w[4..8] == U32Bytes(uid) && w[8..] == name + [0];
      case SRoomEnter(uid, name) =>
        U32IsLittleEndian(uid, [0, 0, 0, 0]);
        assert w[4..8] == U32Bytes(uid) && w[8..] == name + [0];
    }
  }

  /** The wire image of a packet: the tag of its kind in four bytes, then its fields in the order
      in which they are declared, and nothing else. */
  lemma {:induction false} WireLayout(p: Packet)
    ensures |Wire(p)| >= 4 && LittleEndian(Wire(p)[..4]) == Tag(TypeOf(p))
    ensures LaidOut(Wire(p), p)
  {
    U32IsLittleEndian(Tag(TypeOf(p)), [0, 0, 0, 0]);
    assert Wire(p)[..4] == U32Bytes(Tag(TypeOf(p))) && Wire(p)[4..] == Body(p);
    if p.SLobbyRoomInfo? {
      RoomInfoLaidOut(p);
    } else if p.SLobbyUserInfo? {
      UserInfoLaidOut(p);
    } else if OneNumber(p) || p.SLobbyEnter? || p.SRoomEnter? {
      NumbersLaidOut(p);
    } else {
      TextsLaidOut(p);
    }
  }

  lemma {:induction false} TextsLaidOut(p: Packet)
    requires OneString(p) || TwoStrings(p) || p.CUnicast? || Bare(p)
    ensures LaidOut(Wire(p), p)
  {
    assert Wire(p)[4..] == Body(p);
    if p.CUnicast? {
      assert StrBytes(p.recver) + StrBytes(p.text) == p.recver + [0] + p.text + [0];
    } else if TwoStrings(p) {
      assert StrBytes(p.nickname) + StrBytes(p.text) == p.nickname + [0] + p.text + [0];
    }
  }

  // ---- From one session to the other ----

  /** What the client's `SendThread` hands to the socket. */
  function ClientBytes(p: Packet): seq<Byte> {
    Emit([], Chunks(p))
  }

  /** What the server's `SendPacket` hands to the socket: the stream and four bytes more of
      the zeroed buffer. `None` when that length runs past the end of the buffer. */
  function ServerBytes(p: Packet): Option<seq<Byte>> {
    var s := ClientBytes(p);
    if |s| + 4 > SOCKBUF_SIZE then None else Some(s + Zeros(4))
  }

  /** `GetPacket` on one block; `None` when it reads or copies outside its buffers. A block
      shorter than the header makes `size - sizeof(packetType)` wrap around. */
  function Receive(bytes: seq<Byte>): Option<Packet>
    requires |bytes| <= SOCKBUF_SIZE
  {
    if |bytes| < 4 then None
    else Unpacked(TypeOf(ProduceByType(U32Of(bytes[..4]))), bytes[4..])
  }

  /** What the reader of kind `t` makes of the bytes behind the header. */
  function Unpacked(t: PacketType, body: seq<Byte>): Option<Packet>
    requires |body| <= SOCKBUF_SIZE
  {
    match DecodeAt(t, Padded(body), 0)
    case Value(p, _) => Some(p)
    case _ => None
  }

  /** A header that `encode` wrote selects the reader of the same kind. */
  lemma {:induction false} ReceiveBody(t: PacketType, body: seq<Byte>)
    requires |body| + 4 <= SOCKBUF_SIZE
    ensures Receive(U32Bytes(Tag(t)) + body) == Unpacked(t, body)
  {
    var block := U32Bytes(Tag(t)) + body;
    assert block[..4] == U32Bytes(Tag(t)) && block[4..] == body;
    U32RoundTrip(Tag(t));
    FactoryInvertsTag(t);
  }

  predicate Deliverable(p: Packet) {
    WellFormed(p) && |Wire(p)| + 4 <= SOCKBUF_SIZE
  }

  lemma {:induction false} FlattenCons(c: seq<Byte>, cs: seq<seq<Byte>>)
    ensures Flatten([c] + cs) == c + Flatten(cs)
  {
    assert ([c] + cs)[1..] == cs;
  }

  lemma {:induction false} U16sWritten(vs: seq<U16>)
    ensures Flatten(U16Chunks(vs)) == U16sBytes(vs) && Small(U16Chunks(vs))
  {
    if vs != [] {
      U16sWritten(vs[1..]);
      FlattenCons(U16Bytes(vs[0]), U16Chunks(vs[1..]));
    }
  }

  lemma {:induction false} U32sWritten(vs: seq<U32>)
    ensures Flatten(U32Chunks(vs)) == U32sBytes(vs) && Small(U32Chunks(vs))
  {
    if vs != [] {
      U32sWritten(vs[1..]);
      FlattenCons(U32Bytes(vs[0]), U32Chunks(vs[1..]));
    }
  }

  lemma {:induction false} StrsWritten(vs: seq<Str>)
    ensures Flatten(StrsChunks(vs)) == StrsBytes(vs) && Small(StrsChunks(vs))
  {
    if vs != [] {
      StrsWritten(vs[1..]);
      FlattenStr(vs[0]);
      FlattenConcat(StrChunks(vs[0]), StrsChunks(vs[1..]));
    }
  }

  lemma {:induction false} TwoStrsWritten(a: Str, b: Str)
    ensures Flatten(StrChunks(a) + StrChunks(b)) == StrBytes(a) + StrBytes(b)
    ensures Small(StrChunks(a) + StrChunks(b))
  {
    FlattenStr(a);
    FlattenStr(b);
    FlattenConcat(StrChunks(a), StrChunks(b));
  }

  lemma {:induction false} IdAndStrWritten(id: U32, v: Str)
    ensures Flatten([U32Bytes(id)] + StrChunks(v)) == U32Bytes(id) + StrBytes(v)
    ensures Small([U32Bytes(id)] + StrChunks(v))
  {
    FlattenStr(v);
    FlattenCons(U32Bytes(id), StrChunks(v));
  }

  lemma {:induction false} OneWritten(c: seq<Byte>)
    ensures Flatten([c]) == c
  {
    FlattenCons(c, []);
    assert [c] + [] == [c] && c + [] == c;
  }

  lemma {:induction false} RoomInfoWritten(p: Packet)
    requires p.SLobbyRoomInfo?
    ensures Flatten(BodyChunks(p)) == Body(p) && Small(BodyChunks(p))
  {
    var ids, names := U16Chunks(p.roomIds), StrsChunks(p.roomNames);
    U16sWritten(p.roomIds);
    StrsWritten(p.roomNames);
    FlattenConcat(ids, names);
    FlattenCons(U16Bytes(Truncated(|p.roomNames|)), ids + names);
  }

  lemma {:induction false} UserInfoWritten(p: Packet)
    requires p.SLobbyUserInfo?
    ensures Flatten(BodyChunks(p)) == Body(p) && Small(BodyChunks(p))
  {
    var ids, names := U32Chunks(p.ids), StrsChunks(p.names);
    var n := U16Bytes(Truncated(|p.names|));
    U32sWritten(p.ids);
    StrsWritten(p.names);
    FlattenConcat(ids, names);
    FlattenCons(n, ids + names);
    FlattenCons(U16Bytes(p.roomCount), [n] + (ids + names));
  }

  lemma {:induction false} OneStringWritten(p: Packet)
    requires OneString(p)
    ensures Flatten(BodyChunks(p)) == Body(p) && Small(BodyChunks(p))
  {
    match p {
      case CServerEnter(v) => FlattenStr(v);
      case CBroadcast(v) => FlattenStr(v);
      case CMulticast(v) => FlattenStr(v);
      case CRoomCreate(v) => FlattenStr(v);
      case SRoomName(v) => FlattenStr(v);
    }
  }

  lemma {:induction false} TwoStringsWritten(p: Packet)
    requires TwoStrings(p)
    ensures Flatten(BodyChunks(p)) == Body(p) && Small(BodyChunks(p))
  {
    match p {
      case SBroadcast(a, b) => TwoStrsWritten(a, b);
      case SMulticast(a, b) => TwoStrsWritten(a, b);
      case SUnicastOk(a, b) => TwoStrsWritten(a, b);
    }
  }

  lemma {:induction false} NumberedWritten(p: Packet)
    requires !OneString(p) && !TwoStrings(p)
    ensures Flatten(BodyChunks(p)) == Body(p) && Small(BodyChunks(p))
  {
    match p {
      case CUnicast(recver, text) => TwoStrsWritten(recver, text);
      case CRoomEnter(rid) => OneWritten(U16Bytes(rid));
      case SServerEnterOk(pid) => OneWritten(U32Bytes(pid));
      case SLobbyRoomInfo(_, _, _) => RoomInfoWritten(p);
      case SLobbyUserInfo(_, _, _, _) => UserInfoWritten(p);
      case SLobbyEnter(uid, nickname) => IdAndStrWritten(uid, nickname);
      case SRoomEnter(uid, name) => IdAndStrWritten(uid, name);
      case SRoomExit(uid) => OneWritten(U32Bytes(uid));
      case _ =>
    }
  }

  /** The writes of `encode` are small and, put together, are the wire image. */
  lemma {:induction false} BodyWritten(p: Packet)
    ensures Flatten(BodyChunks(p)) == Body(p) && Small(BodyChunks(p))
  {
    if OneString(p) {
      OneStringWritten(p);
    } else if TwoStrings(p) {
      TwoStringsWritten(p);
    } else {
      NumberedWritten(p);
    }
  }

  lemma {:induction false} WireWritten(p: Packet)
    ensures Flatten(Chunks(p)) == Wire(p) && Small(Chunks(p))
  {
    BodyWritten(p);
    FlattenCons(U32Bytes(Tag(TypeOf(p))), BodyChunks(p));
  }

  /** A block that starts with a packet's wire image is received as that packet, for exactly
      the well-formed packets; what follows the image in the block does not matter. */
  lemma {:induction false} ReceiveWire(p: Packet, tail: seq<Byte>)
    requires |Wire(p)| + |tail| <= SOCKBUF_SIZE
    ensures Receive(Wire(p) + tail) == Unpacked(TypeOf(p), Body(p) + tail)
    ensures Receive(Wire(p) + tail) == Some(Counted(p)) <==> WellFormed(p)
  {
    var body := Body(p) + tail;
    assert Wire(p) + tail == U32Bytes(Tag(TypeOf(p))) + body;
    ReceiveBody(TypeOf(p), body);
    assert Padded(body)[0..|Body(p)|] == Body(p);
    BodyRoundTrip(Padded(body), 0, p);
  }

  lemma {:induction false} ReceiveBlock(p: Packet, block: seq<Byte>)
    requires Wire(p) <= block && |block| <= SOCKBUF_SIZE && WellFormed(p)
    ensures Receive(block) == Some(Counted(p))
  {
    var tail := block[|Wire(p)|..];
    assert block == Wire(p) + tail;
    ReceiveWire(p, tail);
  }

  // ---- What can come out of a block ----

  /** A value read is a packet of kind `t` that would survive being sent on. */
  ghost predicate Genuine(t: PacketType, r: Read<Packet>) {
    r.Value? ==> TypeOf(r.value) == t && WellFormed(r.value)
  }

  lemma {:induction false} ReadStrOk(m: seq<Byte>, p: nat)
    requires |m| == SOCKBUF_SIZE && ReadStr(m, p).Value?
    ensures StrOk(ReadStr(m, p).value)
  {
    var v := ReadStr(m, p).value;
    assert forall k :: 1 <= k < |v| ==> v[k] == m[p + k];
  }

  lemma {:induction false} ReadStrsOk(m: seq<Byte>, p: nat, n: nat)
    requires |m| == SOCKBUF_SIZE && ReadStrs(m, p, n).Value?
    ensures AllOk(ReadStrs(m, p, n).value)
    decreases n
  {
    if n > 0 {
      var head := ReadStr(m, p);
      ReadStrOk(m, p);
      ReadStrsOk(m, head.pos, n - 1);
      AllOkCons(head.value, ReadStrs(m, head.pos, n - 1).value);
    }
  }

  lemma {:induction false} ReadTwoStrsOk(m: seq<Byte>, p: nat)
    requires |m| == SOCKBUF_SIZE && ReadTwoStrs(m, p).Value?
    ensures var v := ReadTwoStrs(m, p).value; StrOk(v.0) && StrOk(v.1)
  {
    ReadStrOk(m, p);
    ReadStrOk(m, ReadStr(m, p).pos);
  }

  lemma {:induction false} RoomInfoGenuine(m: seq<Byte>, p: nat)
    requires |m| == SOCKBUF_SIZE
    ensures Genuine(S_LOBBY_ROOM_INFO, ReadRoomInfo(m, p))
  {
    if ReadRoomInfo(m, p).Value? {
      var n := ReadU16(m, p);
      ReadStrsOk(m, ReadU16s(m, n.pos, n.value).pos, n.value);
    }
  }

  lemma {:induction false} UserInfoGenuine(m: seq<Byte>, p: nat)
    requires |m| == SOCKBUF_SIZE
    ensures Genuine(S_LOBBY_USER_INFO, ReadUserInfo(m, p))
  {
    if ReadUserInfo(m, p).Value? {
      UsersOk(m, ReadU16(m, p).pos);
    }
  }

  lemma {:induction false} UsersOk(m: seq<Byte>, p: nat)
    requires |m| == SOCKBUF_SIZE && ReadUsers(m, p).Value?
    ensures AllOk(ReadUsers(m, p).value.1)
  {
    var n := ReadU16(m, p);
    ReadStrsOk(m, ReadU32s(m, n.pos, n.value).pos, n.value);
  }

  predicate OneStringKind(t: PacketType) {
    t == C_SERVER_ENTER || t == C_BROADCAST || t == C_MULTICAST || t == C_ROOM_CREATE || t == S_ROOM_NAME
  }

  predicate TwoStringsKind(t: PacketType) {
    t == C_UNICAST || t == S_BROADCAST || t == S_MULTICAST || t == S_UNICAST_OK
  }

  lemma {:induction false} OneStringGenuine(t: PacketType, m: seq<Byte>, p: nat)
    requires |m| == SOCKBUF_SIZE && OneStringKind(t)
    ensures Genuine(t, DecodeAt(t, m, p)) && (ReadStr(m, p).Value? ==> DecodeAt(t, m, p).Value?)
  {
    if ReadStr(m, p).Value? {
      ReadStrOk(m, p);
    }
  }

  lemma {:induction false} TwoStringsGenuine(t: PacketType, m: seq<Byte>, p: nat)
    requires |m| == SOCKBUF_SIZE && TwoStringsKind(t)
    ensures Genuine(t, DecodeAt(t, m, p)) && (ReadTwoStrs(m, p).Value? ==> DecodeAt(t, m, p).Value?)
  {
    if ReadTwoStrs(m, p).Value? {
      ReadTwoStrsOk(m, p);
    }
  }

  lemma {:induction false} IdAndStrGenuine(t: PacketType, m: seq<Byte>, p: nat)
    requires |m| == SOCKBUF_SIZE && (t == S_LOBBY_ENTER || t == S_ROOM_ENTER)
    ensures Genuine(t, DecodeAt(t, m, p)) && (ReadIdAndStr(m, p).Value? ==> DecodeAt(t, m, p).Value?)
  {
    if ReadIdAndStr(m, p).Value? {
      ReadStrOk(m, p + 4);
    }
  }

  predicate OneNumberKind(t: PacketType) {
    t == C_ROOM_ENTER || t == S_SERVER_ENTER_OK || t == S_ROOM_EXIT
  }

  lemma {:induction false} OneNumberGenuine(t: PacketType, m: seq<Byte>, p: nat)
    requires |m| == SOCKBUF_SIZE && OneNumberKind(t)
    ensures Genuine(t, DecodeAt(t, m, p)) && (p + 4 <= SOCKBUF_SIZE ==> DecodeAt(t, m, p).Value?)
  {
  }

  predicate BareKind(t: PacketType) {
    || t == UNDEFINED || t == C_SERVER_EXIT || t == C_ROOM_EXIT || t == C_LOBBY_ROOM_INFO
    || t == S_SERVER_ENTER_NO || t == S_LOBBY_EXIT || t == S_UNICAST_NO
  }

  lemma {:induction false} BareGenuine(t: PacketType, m: seq<Byte>, p: nat)
    requires |m| == SOCKBUF_SIZE && BareKind(t)
    ensures Genuine(t, DecodeAt(t, m, p)) && DecodeAt(t, m, p).Value?
  {
  }

  /** Whatever the bytes are, a reader delivers a packet of its own kind, and a well-formed one. */
  lemma {:induction false} DecodedIsGenuine(t: PacketType, m: seq<Byte>, p: nat)
    requires |m| == SOCKBUF_SIZE
    ensures Genuine(t, DecodeAt(t, m, p))
  {
    if OneStringKind(t) {
      OneStringGenuine(t, m, p);
    } else if TwoStringsKind(t) {
      TwoStringsGenuine(t, m, p);
    } else if t == S_LOBBY_ENTER || t == S_ROOM_ENTER {
      IdAndStrGenuine(t, m, p);
    } else if t == S_LOBBY_ROOM_INFO {
      RoomInfoGenuine(m, p);
    } else if t == S_LOBBY_USER_INFO {
      UserInfoGenuine(m, p);
    } else if OneNumberKind(t) {
      OneNumberGenuine(t, m, p);
    } else {
      BareGenuine(t, m, p);
    }
  }

  /** Whatever bytes are received, what `GetPacket` makes of them is well formed, so it would
      survive being sent on. */
  lemma {:induction false} ReceivedIsWellFormed(bytes: seq<Byte>)
    requires |bytes| <= SOCKBUF_SIZE && Receive(bytes).Some?
    ensures WellFormed(Receive(bytes).value)
  {
    DecodedIsGenuine(TypeOf(ProduceByType(U32Of(bytes[..4]))), Padded(bytes[4..]), 0);
  }

  /** A block with a header that is no kind's tag becomes the undefined packet. */
  lemma {:induction false} UnknownTagsAreUndefined(bytes: seq<Byte>)
    requires 4 <= |bytes| <= SOCKBUF_SIZE
    requires forall t: PacketType :: Tag(t) != LittleEndian(bytes[..4])
    ensures Receive(bytes) == Some(PkUndefined(0))
  {
    var tag := U32Of(bytes[..4]);
    U32IsLittleEndian(0, bytes[..4]);
    FactoryIsExact(tag);
    assert Tag(TypeOf(ProduceByType(tag))) != tag;
    BareGenuine(UNDEFINED, Padded(bytes[4..]), 0);
  }

  /** Whatever its strings are, a packet never arrives as one of another kind. */
  lemma {:induction false} ReceiveKeepsKind(p: Packet, tail: seq<Byte>)
    requires |Wire(p)| + |tail| <= SOCKBUF_SIZE && Receive(Wire(p) + tail).Some?
    ensures TypeOf(Receive(Wire(p) + tail).value) == TypeOf(p)
  {
    ReceiveWire(p, tail);
    DecodedIsGenuine(TypeOf(p), Padded(Body(p) + tail), 0);
  }

  predicate EndsInZeros(m: seq<Byte>) {
    |m| == SOCKBUF_SIZE && forall i :: SOCKBUF_SIZE - 4 <= i < SOCKBUF_SIZE ==> m[i] == 0
  }

  lemma {:induction false} ReadStrInside(m: seq<Byte>, p: nat)
    requires EndsInZeros(m) && p <= SOCKBUF_SIZE - 3
    ensures ReadStr(m, p).Value? && ReadStr(m, p).pos <= SOCKBUF_SIZE - if p <= SOCKBUF_SIZE - 5 then 3 else 1
  {
    assert m[SOCKBUF_SIZE - 4] == 0 && m[SOCKBUF_SIZE - 2] == 0;
  }

  lemma {:induction false} ReadTwoStrsInside(m: seq<Byte>)
    requires EndsInZeros(m)
    ensures ReadTwoStrs(m, 0).Value?
  {
    ReadStrInside(m, 0);
    ReadStrInside(m, ReadStr(m, 0).pos);
  }

  lemma {:induction false} DecodeInside(t: PacketType, m: seq<Byte>)
    requires EndsInZeros(m) && t != S_LOBBY_ROOM_INFO && t != S_LOBBY_USER_INFO
    ensures DecodeAt(t, m, 0).Value?
  {
    if OneStringKind(t) {
      ReadStrInside(m, 0);
      OneStringGenuine(t, m, 0);
    } else if TwoStringsKind(t) {
      ReadTwoStrsInside(m);
      TwoStringsGenuine(t, m, 0);
    } else if t == S_LOBBY_ENTER || t == S_ROOM_ENTER {
      ReadStrInside(m, 4);
      IdAndStrGenuine(t, m, 0);
    } else if OneNumberKind(t) {
      OneNumberGenuine(t, m, 0);
    } else {
      BareGenuine(t, m, 0);
    }
  }

  /** A packet without lists whose wire image fits arrives as something: reading it never leaves
      the buffer, whatever its strings are. */
  lemma {:induction false} TextsArrive(p: Packet)
    requires !List(p) && ServerBytes(p).Some?
    ensures |ServerBytes(p).value| <= SOCKBUF_SIZE && Receive(ServerBytes(p).value).Some?
  {
    EndToEnd(p);
    StreamContents(p);
    ReceiveWire(p, Zeros(4));
    DecodeInside(TypeOf(p), Padded(Body(p) + Zeros(4)));
  }

  /** What `encode` leaves in a fresh stream: the wire image when it fits. */
  lemma {:induction false} StreamContents(p: Packet)
    ensures |ClientBytes(p)| <= SOCKBUF_SIZE
    ensures |Wire(p)| <= SOCKBUF_SIZE ==> ClientBytes(p) == Wire(p)
    ensures |ClientBytes(p)| + 4 <= SOCKBUF_SIZE <==> |Wire(p)| + 4 <= SOCKBUF_SIZE
  {
    WireWritten(p);
    var chunks := Chunks(p);
    EmitSizeExact([], chunks);
    EmitFits([], chunks);
    assert [] + Wire(p) == Wire(p);
  }

  /** The bytes the server hands to the socket: the wire image and four zeros, or, when these do
      not fit the buffer, nothing that is defined. */
  lemma {:induction false} SentBytes(p: Packet)
    ensures ServerBytes(p) == if |Wire(p)| + 4 <= SOCKBUF_SIZE then Some(Wire(p) + [0, 0, 0, 0]) else None
  {
    StreamContents(p);
    assert Zeros(4) == [0, 0, 0, 0];
  }

  /** Server to client: a packet arrives as the packet that was encoded exactly when it is
      well formed and its wire image leaves four bytes of the buffer free. */
  lemma {:induction false} EndToEnd(p: Packet)
    ensures (ServerBytes(p).Some? && Receive(ServerBytes(p).value) == Some(Counted(p)))
            <==> Deliverable(p)
    ensures ServerBytes(p).Some? <==> |Wire(p)| + 4 <= SOCKBUF_SIZE
  {
    StreamContents(p);
    if |Wire(p)| + 4 <= SOCKBUF_SIZE {
      ReceiveWire(p, Zeros(4));
    }
  }

  /** Client to server: within the buffer, exactly the well-formed packets arrive. */
  lemma {:induction false} ClientToServer(p: Packet)
    requires |Wire(p)| <= SOCKBUF_SIZE
    ensures |ClientBytes(p)| <= SOCKBUF_SIZE
    ensures Receive(ClientBytes(p)) == Some(Counted(p)) <==> WellFormed(p)
  {
    StreamContents(p);
    ReceiveWire(p, []);
    assert Wire(p) + [] == Wire(p);
  }

  // ---- Beyond the buffer ----

  predicate FromClient(p: Packet) {
    || p.CServerEnter? || p.CServerExit? || p.CRoomEnter? || p.CRoomExit? || p.CBroadcast?
    || p.CMulticast? || p.CUnicast? || p.CRoomCreate? || p.CLobbyRoomInfo?
  }

  /** The string of a packet that has one. */
  function Text(p: Packet): Str
    requires OneString(p)
  {
    match p
    case CServerEnter(v) => v
    case CBroadcast(v) => v
    case CMulticast(v) => v
    case CRoomCreate(v) => v
    case SRoomName(v) => v
  }

  function WithText(p: Packet, v: Str): Packet
    requires OneString(p)
  {
    match p
    case CServerEnter(_) => CServerEnter(v)
    case CBroadcast(_) => CBroadcast(v)
    case CMulticast(_) => CMulticast(v)
    case CRoomCreate(_) => CRoomCreate(v)
    case SRoomName(_) => SRoomName(v)
  }

  function Cut(v: seq<Byte>, n: nat): seq<Byte> {
    if |v| <= n then v else v[..n]
  }

  /** The room for strings behind the header. */
  const BODY_SIZE: nat := SOCKBUF_SIZE - 4

  /** The text of a whisper as far as there is room for it behind the name and its NUL; without
      any it is read out of zeros, as one NUL. */
  function RestOf(a: Str, b: Str): Str {
    if |a| + 2 <= BODY_SIZE then Cut(b, BODY_SIZE - |a| - 1) else [0]
  }

  /** What is left of a well-formed client packet: its only string cut to the 1020 bytes behind
      the header, of a whisper the name cut so and the rest of the text. */
  function Remainder(p: Packet): Packet {
    if OneString(p) then WithText(p, Cut(Text(p), BODY_SIZE))
    else match p
      case CUnicast(recver, text) => CUnicast(Cut(recver, BODY_SIZE), RestOf(recver, text))
      case _ => p
  }

  lemma {:induction false} CutTwice(s: seq<Byte>, v: seq<Byte>, n: nat)
    requires |s| <= n
    ensures Cut(Cut(s, n) + v, n) == Cut(s + v, n)
    ensures Cut(s + v, n) == s + Cut(v, n - |s|)
  {
  }

  lemma {:induction false} EmitStrCut(s: seq<Byte>, v: Str)
    requires |s| <= SOCKBUF_SIZE
    ensures Emit(s, StrChunks(v)) == Cut(s + StrBytes(v), SOCKBUF_SIZE)
  {
    EmitStr(s, v);
    assert s + v + [0] == s + StrBytes(v);
  }

  lemma {:induction false} EmitTwoStrsCut(s: seq<Byte>, a: Str, b: Str)
    requires |s| <= SOCKBUF_SIZE
    ensures Emit(s, StrChunks(a) + StrChunks(b)) == Cut(s + (StrBytes(a) + StrBytes(b)), SOCKBUF_SIZE)
  {
    var t := s + StrBytes(a);
    EmitConcat(s, StrChunks(a), StrChunks(b));
    EmitStrCut(s, a);
    EmitStrCut(Cut(t, SOCKBUF_SIZE), b);
    assert s + (StrBytes(a) + StrBytes(b)) == t + StrBytes(b);
    if |t| > SOCKBUF_SIZE {
      assert (t[..SOCKBUF_SIZE] + StrBytes(b))[..SOCKBUF_SIZE] == (t + StrBytes(b))[..SOCKBUF_SIZE];
    }
  }

  /** Strings behind the header are cut where the stream is full. */
  lemma {:induction false} TextsAreCut(p: Packet)
    requires OneString(p) || p.CUnicast?
    ensures ClientBytes(p) == U32Bytes(Tag(TypeOf(p))) + Cut(Body(p), BODY_SIZE)
  {
    var header := U32Bytes(Tag(TypeOf(p)));
    EmitFixedThen([], header, BodyChunks(p));
    assert Put([], header) == header;
    if p.CUnicast? {
      EmitTwoStrsCut(header, p.recver, p.text);
    } else {
      OneStringBody(p);
      EmitStrCut(header, Text(p));
    }
    CutTwice(header, Body(p), SOCKBUF_SIZE);
  }

  lemma {:induction false} OneStringBody(p: Packet)
    requires OneString(p)
    ensures Body(p) == StrBytes(Text(p)) && BodyChunks(p) == StrChunks(Text(p))
    ensures WellFormed(p) <==> StrOk(Text(p))
  {
  }

  lemma {:induction false} OneStringUnpacked(p: Packet, body: seq<Byte>)
    requires OneString(p) && |body| <= SOCKBUF_SIZE && ReadStr(Padded(body), 0).Value?
    ensures Unpacked(TypeOf(p), body) == Some(WithText(p, ReadStr(Padded(body), 0).value))
  {
  }

  lemma {:induction false} CutTextRead(v: Str)
    requires StrOk(v)
    ensures var r := ReadStr(Padded(Cut(StrBytes(v), BODY_SIZE)), 0); r.Value? && r.value == Cut(v, BODY_SIZE)
  {
    var m, c := Padded(Cut(StrBytes(v), BODY_SIZE)), Cut(v, BODY_SIZE);
    assert m[0..|c| + 1] == c + [0];
    StrRoundTrip(m, 0, c);
  }

  /** The bytes of a cut pair of strings in a zeroed buffer. */
  lemma {:induction false} CutPairAt(a: Str, b: Str, j: nat)
    requires j < SOCKBUF_SIZE
    ensures Padded(Cut(StrBytes(a) + StrBytes(b), BODY_SIZE))[j] ==
            if j < BODY_SIZE && j < |a| then a[j]
            else if j < BODY_SIZE && |a| < j <= |a| + |b| then b[j - |a| - 1]
            else 0
  {
  }

  lemma {:induction false} CutPairBytes(a: Str, b: Str)
    requires b != []
    ensures var m, c, rest := Padded(Cut(StrBytes(a) + StrBytes(b), BODY_SIZE)), Cut(a, BODY_SIZE), RestOf(a, b);
            && m[0..|c| + 1] == c + [0]
            && |c| + 1 + |rest| + 1 <= SOCKBUF_SIZE
            && m[|c| + 1..|c| + 1 + |rest| + 1] == rest + [0]
  {
    var m, c, rest := Padded(Cut(StrBytes(a) + StrBytes(b), BODY_SIZE)), Cut(a, BODY_SIZE), RestOf(a, b);
    forall j | 0 <= j <= |c|
      ensures m[j] == (c + [0])[j]
    {
      CutPairAt(a, b, j);
    }
    forall j | 0 <= j <= |rest|
      ensures m[|c| + 1 + j] == (rest + [0])[j]
    {
      CutPairAt(a, b, |c| + 1 + j);
    }
  }

  /** Two strings as they lie in the buffer of a reader of kind `C_UNICAST`. */
  lemma {:induction false} WhisperRead(m: seq<Byte>, c: Str, d: Str)
    requires |m| == SOCKBUF_SIZE && |c| + 1 + |d| + 1 <= SOCKBUF_SIZE && StrOk(c) && StrOk(d)
    requires m[0..|c| + 1] == c + [0] && m[|c| + 1..|c| + 1 + |d| + 1] == d + [0]
    ensures DecodeAt(C_UNICAST, m, 0) == Value(CUnicast(c, d), |c| + 1 + |d| + 1)
  {
    StrRoundTrip(m, 0, c);
    StrRoundTrip(m, |c| + 1, d);
  }

  lemma {:induction false} CutPartsOk(a: Str, b: Str)
    requires StrOk(a) && StrOk(b)
    ensures StrOk(Cut(a, BODY_SIZE)) && StrOk(RestOf(a, b))
  {
  }

  lemma {:induction false} WhisperUnpacked(a: Str, b: Str)
    requires StrOk(a) && StrOk(b)
    ensures Unpacked(C_UNICAST, Cut(StrBytes(a) + StrBytes(b), BODY_SIZE)) ==
            Some(CUnicast(Cut(a, BODY_SIZE), RestOf(a, b)))
  {
    CutPartsOk(a, b);
    CutPairBytes(a, b);
    WhisperRead(Padded(Cut(StrBytes(a) + StrBytes(b), BODY_SIZE)), Cut(a, BODY_SIZE), RestOf(a, b));
  }

  lemma {:induction false} TextArrives(p: Packet)
    requires OneString(p) && WellFormed(p)
    ensures |ClientBytes(p)| <= SOCKBUF_SIZE
    ensures Receive(ClientBytes(p)) == Some(WithText(p, Cut(Text(p), BODY_SIZE)))
  {
    TextsAreCut(p);
    OneStringBody(p);
    ReceiveBody(TypeOf(p), Cut(Body(p), BODY_SIZE));
    CutTextRead(Text(p));
    OneStringUnpacked(p, Cut(Body(p), BODY_SIZE));
  }

  lemma {:induction false} WhisperArrives(a: Str, b: Str)
    requires StrOk(a) && StrOk(b)
    ensures |ClientBytes(CUnicast(a, b))| <= SOCKBUF_SIZE
    ensures Receive(ClientBytes(CUnicast(a, b))) == Some(CUnicast(Cut(a, BODY_SIZE), RestOf(a, b)))
  {
    var body := Cut(StrBytes(a) + StrBytes(b), BODY_SIZE);
    TextsAreCut(CUnicast(a, b));
    assert ClientBytes(CUnicast(a, b)) == U32Bytes(Tag(C_UNICAST)) + body;
    ReceiveBody(C_UNICAST, body);
    WhisperUnpacked(a, b);
  }

  /** Of a well-formed client packet of any size the remainder arrives. */
  lemma {:induction false} RemainderArrives(p: Packet)
    requires FromClient(p) && WellFormed(p)
    ensures |ClientBytes(p)| <= SOCKBUF_SIZE
    ensures Receive(ClientBytes(p)) == Some(Remainder(p))
  {
    if OneString(p) {
      TextArrives(p);
    } else if p.CUnicast? {
      WhisperArrives(p.recver, p.text);
    } else {
      ClientToServer(p);
    }
  }

  /** What crosses whole: an image of one byte more than the buffer, whose last byte, a NUL, the
      receiver's zeros replace; and a whisper of one NUL as soon as the name crosses. */
  predicate Crosses(p: Packet) {
    |Wire(p)| <= SOCKBUF_SIZE + 1 || (p.CUnicast? && p.text == [0] && |p.recver| <= BODY_SIZE)
  }

  lemma {:induction false} RemainderExactly(p: Packet)
    requires FromClient(p) && WellFormed(p)
    ensures Remainder(p) == p <==> Crosses(p)
  {
    if OneString(p) {
      OneStringBody(p);
      assert WithText(p, Text(p)) == p;
      assert Text(Remainder(p)) == Cut(Text(p), BODY_SIZE);
    }
  }

  /** Client to server, for any size: a packet arrives unchanged exactly when it is well formed
      and crosses. */
  lemma {:induction false} ClientToServerExactly(p: Packet)
    requires FromClient(p)
    ensures |ClientBytes(p)| <= SOCKBUF_SIZE
    ensures Receive(ClientBytes(p)) == Some(p) <==> WellFormed(p) && Crosses(p)
  {
    StreamContents(p);
    if WellFormed(p) {
      RemainderArrives(p);
      RemainderExactly(p);
    } else if Receive(ClientBytes(p)) == Some(p) {
      ReceivedIsWellFormed(ClientBytes(p));
    }
  }

  /** No wire image of a well-formed packet is a proper prefix of, or equal to, the image of
      a packet with different fields. */
  lemma {:induction false} PrefixFree(p: Packet, q: Packet)
    requires WellFormed(p) && WellFormed(q)
    requires |Wire(p)| <= SOCKBUF_SIZE && |Wire(q)| <= SOCKBUF_SIZE
    requires Wire(p) <= Wire(q)
    ensures Counted(p) == Counted(q)
  {
    ReceiveBlock(p, Wire(q));
    ReceiveBlock(q, Wire(q));
  }

  // ---- The objects of IoData.h and Session.cpp ----

  class IoData {
    const buffer: array<Byte>

    ghost predicate Valid() {
      buffer.Length == SOCKBUF_SIZE
    }

    constructor ()
      ensures Valid() && fresh(buffer) && buffer[..] == Zeros(SOCKBUF_SIZE)
    {
      buffer := new Byte[SOCKBUF_SIZE](_ => 0);
      new;
      assert buffer[..] == Zeros(SOCKBUF_SIZE);
    }

    /** Copies the stream in and returns the length put into the `WSABUF`. */
    method SetData(st: Stream) returns (len: nat)
      requires Valid() && st.Valid() && st.stream != buffer
      modifies buffer
      ensures len == |st.Written()| + 4
      ensures buffer[..st.offset] == st.Written()
      ensures buffer[st.offset..] == old(buffer[st.offset..])
    {
      var n := st.offset;
      forall i | 0 <= i < n {
        buffer[i] := st.stream[i];
      }
      len := n + 4;
    }
  }

  /** Beyond the stream a fresh buffer holds zeros. */
  lemma {:induction false} FourMore(written: seq<Byte>, buffer: seq<Byte>)
    requires |written| + 4 <= |buffer| && buffer[..|written|] == written
    requires forall i :: |written| <= i < |buffer| ==> buffer[i] == 0
    ensures buffer[..|written| + 4] == written + Zeros(4)
  {
  }

  class Session {
    const recvIo: IoData
    const recvBuffer: array<Byte>

    ghost predicate Valid() {
      recvIo.Valid() && recvBuffer.Length == SOCKBUF_SIZE && recvBuffer != recvIo.buffer
    }

    constructor ()
      ensures Valid() && fresh(recvIo.buffer) && fresh(recvBuffer)
    {
      recvIo := new IoData();
      recvBuffer := new Byte[SOCKBUF_SIZE](_ => 0);
    }

    /** `OnRecv` after `ioSize` bytes were received. Bytes left over from earlier, longer
        blocks do not influence the packet. */
    method OnRecv(ioSize: nat) returns (r: Option<Packet>)
      requires Valid() && ioSize <= SOCKBUF_SIZE
      modifies recvBuffer
      ensures r == Receive(recvIo.buffer[..ioSize])
    {
      forall i | 0 <= i < SOCKBUF_SIZE {
        recvBuffer[i] := 0;
      }
      forall i | 0 <= i < ioSize {
        recvBuffer[i] := recvIo.buffer[i];
      }
      assert recvBuffer[..ioSize] == recvIo.buffer[..ioSize];
      r := GetPacket(recvBuffer, ioSize);
    }

    /** The encode and `SetData` part of `SendPacket`: the bytes `WSASend` is given. */
    method SendPacket(p: Packet) returns (wire: Option<seq<Byte>>)
      requires Valid()
      ensures wire == ServerBytes(p)
      ensures wire == if |Wire(p)| + 4 <= SOCKBUF_SIZE then Some(Wire(p) + [0, 0, 0, 0]) else None
    {
      SentBytes(p);
      var st := new Stream();
      var _ := Encode(p, st);
      var io := new IoData();
      var len := io.SetData(st);
      if len > SOCKBUF_SIZE {
        return None;
      }
      FourMore(st.Written(), io.buffer[..]);
      wire := Some(io.buffer[..len]);
    }
  }

  /** `PacketFactory::GetPacket`. */
  method GetPacket(raw: array<Byte>, size: nat) returns (r: Option<Packet>)
    requires raw.Length == SOCKBUF_SIZE && size <= SOCKBUF_SIZE
    ensures r == Receive(raw[..size])
  {
    if size < 4 {
      return None;
    }
    assert raw[..size][..4] == raw[..4] && raw[..size][4..] == raw[4..size];
    var t := TypeOf(ProduceByType(U32Of(raw[..4])));
    var st := new Stream.FromBytes(raw[4..size]);
    var d := Decode(t, st);
    r := if d.Value? then Some(d.value) else None;
  }
}
