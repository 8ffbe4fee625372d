/** The `encode`/`decode` pairs of ClientPacket.h and ServerPacket.h. */
module Codec {
  import opened Bytes
  import opened Packets
  import opened Streams

  // ---- Encoding ----

  function U16Chunks(vs: seq<U16>): (c: seq<seq<Byte>>) {
    if vs == [] then [] else [U16Bytes(vs[0])] + U16Chunks(vs[1..])
  }

  function U32Chunks(vs: seq<U32>): (c: seq<seq<Byte>>) {
    if vs == [] then [] else [U32Bytes(vs[0])] + U32Chunks(vs[1..])
  }

  function StrsChunks(vs: seq<Str>): (c: seq<seq<Byte>>) {
    if vs == [] then [] else StrChunks(vs[0]) + StrsChunks(vs[1..])
  }

  /** `static_cast<uint16_t>` of a container size. */
  function Truncated(n: nat): U16 {
    n % 0x1_0000
  }

  /** The packet after `encode` has refreshed its count field. */
  function Counted(p: Packet): Packet {
    match p
    case SLobbyRoomInfo(_, ids, names) => SLobbyRoomInfo(Truncated(|names|), ids, names)
    case SLobbyUserInfo(rooms, _, ids, names) => SLobbyUserInfo(rooms, Truncated(|names|), ids, names)
    case _ => p
  }

  /** The writes that follow the header. Kinds without an `encode` of their own have none. */
  function BodyChunks(p: Packet): seq<seq<Byte>> {
    match p
    case CServerEnter(nickname) => StrChunks(nickname)
    case CRoomEnter(rid) => [U16Bytes(rid)]
    case CBroadcast(text) => StrChunks(text)
    case CMulticast(text) => StrChunks(text)
    case CUnicast(recver, text) => StrChunks(recver) + StrChunks(text)
    case CRoomCreate(roomName) => StrChunks(roomName)
    case SServerEnterOk(pid) => [U32Bytes(pid)]
    case SLobbyRoomInfo(_, ids, names) =>
      [U16Bytes(Truncated(|names|))] + (U16Chunks(ids) + StrsChunks(names))
    case SLobbyUserInfo(rooms, _, ids, names) =>
      [U16Bytes(rooms)] + ([U16Bytes(Truncated(|names|))] + (U32Chunks(ids) + StrsChunks(names)))
    case SLobbyEnter(uid, nickname) => [U32Bytes(uid)] + StrChunks(nickname)
    case SRoomEnter(uid, name) => [U32Bytes(uid)] + StrChunks(name)
    case SRoomExit(uid) => [U32Bytes(uid)]
    case SRoomName(roomName) => StrChunks(roomName)
    case SBroadcast(nickname, text) => StrChunks(nickname) + StrChunks(text)
    case SMulticast(nickname, text) => StrChunks(nickname) + StrChunks(text)
    case SUnicastOk(nickname, text) => StrChunks(nickname) + StrChunks(text)
    case _ => []
  }

  function Chunks(p: Packet): seq<seq<Byte>> {
    [U32Bytes(Tag(TypeOf(p)))] + BodyChunks(p)
  }

  // ---- The wire image: the bytes of a packet in a stream without a bound ----

  function StrBytes(v: Str): seq<Byte> {
    v + [0]
  }

  function U16sBytes(vs: seq<U16>): seq<Byte> {
    if vs == [] then [] else U16Bytes(vs[0]) + U16sBytes(vs[1..])
  }

  function U32sBytes(vs: seq<U32>): seq<Byte> {
    if vs == [] then [] else U32Bytes(vs[0]) + U32sBytes(vs[1..])
  }

  function StrsBytes(vs: seq<Str>): (b: seq<Byte>)
    ensures |vs| <= |b|
  {
    if vs == [] then [] else StrBytes(vs[0]) + StrsBytes(vs[1..])
  }

  function Body(p: Packet): seq<Byte> {
    match p
    case CServerEnter(nickname) => StrBytes(nickname)
    case CRoomEnter(rid) => U16Bytes(rid)
    case CBroadcast(text) => StrBytes(text)
    case CMulticast(text) => StrBytes(text)
    case CUnicast(recver, text) => StrBytes(recver) + StrBytes(text)
    case CRoomCreate(roomName) => StrBytes(roomName)
    case SServerEnterOk(pid) => U32Bytes(pid)
    case SLobbyRoomInfo(_, ids, names) =>
      U16Bytes(Truncated(|names|)) + (U16sBytes(ids) + StrsBytes(names))
    case SLobbyUserInfo(rooms, _, ids, names) =>
      U16Bytes(rooms) + (U16Bytes(Truncated(|names|)) + (U32sBytes(ids) + StrsBytes(names)))
    case SLobbyEnter(uid, nickname) => U32Bytes(uid) + StrBytes(nickname)
    case SRoomEnter(uid, name) => U32Bytes(uid) + StrBytes(name)
    case SRoomExit(uid) => U32Bytes(uid)
    case SRoomName(roomName) => StrBytes(roomName)
    case SBroadcast(nickname, text) => StrBytes(nickname) + StrBytes(text)
    case SMulticast(nickname, text) => StrBytes(nickname) + StrBytes(text)
    case SUnicastOk(nickname, text) => StrBytes(nickname) + StrBytes(text)
    case _ => []
  }

  function Wire(p: Packet): seq<Byte> {
    U32Bytes(Tag(TypeOf(p))) + Body(p)
  }

  lemma {:induction false} EmitFixedThen(s: seq<Byte>, first: seq<Byte>, rest: seq<seq<Byte>>)
    ensures Emit(s, [first] + rest) == Emit(Put(s, first), rest)
  {
    var c := [first] + rest;
    assert c[1..] == rest;
  }

  method WriteU16s(st: Stream, vs: seq<U16>)
    requires st.Valid()
    modifies st`offset, st.stream
    ensures st.Valid() && st.Written() == Emit(old(st.Written()), U16Chunks(vs))
  {
    ghost var start := st.Written();
    var i := 0;
    while i < |vs|
      invariant 0 <= i <= |vs| && st.Valid()
      invariant Emit(start, U16Chunks(vs)) == Emit(st.Written(), U16Chunks(vs[i..]))
    {
      EmitFixedThen(st.Written(), U16Bytes(vs[i]), U16Chunks(vs[i + 1..]));
      assert vs[i..][1..] == vs[i + 1..];
      st.Write(U16Bytes(vs[i]));
      i := i + 1;
    }
  }

  method WriteU32s(st: Stream, vs: seq<U32>)
    requires st.Valid()
    modifies st`offset, st.stream
    ensures st.Valid() && st.Written() == Emit(old(st.Written()), U32Chunks(vs))
  {
    ghost var start := st.Written();
    var i := 0;
    while i < |vs|
      invariant 0 <= i <= |vs| && st.Valid()
      invariant Emit(start, U32Chunks(vs)) == Emit(st.Written(), U32Chunks(vs[i..]))
    {
      EmitFixedThen(st.Written(), U32Bytes(vs[i]), U32Chunks(vs[i + 1..]));
      assert vs[i..][1..] == vs[i + 1..];
      st.Write(U32Bytes(vs[i]));
      i := i + 1;
    }
  }

  method WriteStrs(st: Stream, vs: seq<Str>)
    requires st.Valid()
    modifies st`offset, st.stream
    ensures st.Valid() && st.Written() == Emit(old(st.Written()), StrsChunks(vs))
  {
    ghost var start := st.Written();
    var i := 0;
    while i < |vs|
      invariant 0 <= i <= |vs| && st.Valid()
      invariant Emit(start, StrsChunks(vs)) == Emit(st.Written(), StrsChunks(vs[i..]))
    {
      EmitConcat(st.Written(), StrChunks(vs[i]), StrsChunks(vs[i + 1..]));
      assert vs[i..][1..] == vs[i + 1..];
      st.WriteStr(vs[i]);
      i := i + 1;
    }
  }

  method WriteTwoStrs(st: Stream, a: Str, b: Str)
    requires st.Valid()
    modifies st`offset, st.stream
    ensures st.Valid() && st.Written() == Emit(old(st.Written()), StrChunks(a) + StrChunks(b))
  {
    EmitConcat(st.Written(), StrChunks(a), StrChunks(b));
    st.WriteStr(a);
    st.WriteStr(b);
  }

  method WriteIdAndStr(st: Stream, id: U32, v: Str)
    requires st.Valid()
    modifies st`offset, st.stream
    ensures st.Valid() && st.Written() == Emit(old(st.Written()), [U32Bytes(id)] + StrChunks(v))
  {
    EmitFixedThen(st.Written(), U32Bytes(id), StrChunks(v));
    st.Write(U32Bytes(id));
    st.WriteStr(v);
  }

  method WriteOne(st: Stream, bytes: seq<Byte>)
    requires st.Valid()
    modifies st`offset, st.stream
    ensures st.Valid() && st.Written() == Emit(old(st.Written()), [bytes])
  {
    EmitFixedThen(st.Written(), bytes, []);
    st.Write(bytes);
  }

  /** The body of `PK_S_LOBBY_ROOM_INFO`, which writes the count back into the packet. */
  method EncodeRoomInfo(p: Packet, st: Stream) returns (q: Packet)
    requires p.SLobbyRoomInfo? && st.Valid()
    modifies st`offset, st.stream
    ensures st.Valid() && st.Written() == Emit(old(st.Written()), BodyChunks(p))
    ensures q == Counted(p)
  {
    var ids, names := p.roomIds, p.roomNames;
    q := SLobbyRoomInfo(Truncated(|names|), ids, names);
    EmitFixedThen(st.Written(), U16Bytes(q.roomCount), U16Chunks(ids) + StrsChunks(names));
    st.Write(U16Bytes(q.roomCount));
    EmitConcat(st.Written(), U16Chunks(ids), StrsChunks(names));
    WriteU16s(st, ids);
    WriteStrs(st, names);
  }

  /** The body of `PK_S_LOBBY_USER_INFO`. */
  method EncodeUserInfo(p: Packet, st: Stream) returns (q: Packet)
    requires p.SLobbyUserInfo? && st.Valid()
    modifies st`offset, st.stream
    ensures st.Valid() && st.Written() == Emit(old(st.Written()), BodyChunks(p))
    ensures q == Counted(p)
  {
    var ids, names := p.ids, p.names;
    q := SLobbyUserInfo(p.roomCount, Truncated(|names|), ids, names);
    EmitFixedThen(st.Written(), U16Bytes(p.roomCount),
                  [U16Bytes(q.userCount)] + (U32Chunks(ids) + StrsChunks(names)));
    st.Write(U16Bytes(p.roomCount));
    EmitFixedThen(st.Written(), U16Bytes(q.userCount), U32Chunks(ids) + StrsChunks(names));
    st.Write(U16Bytes(q.userCount));
    EmitConcat(st.Written(), U32Chunks(ids), StrsChunks(names));
    WriteU32s(st, ids);
    WriteStrs(st, names);
  }

  /** The body of `PK_S_CAST`, which three kinds inherit. */
  method EncodeCast(p: Packet, st: Stream)
    requires (p.SBroadcast? || p.SMulticast? || p.SUnicastOk?) && st.Valid()
    modifies st`offset, st.stream
    ensures st.Valid() && st.Written() == Emit(old(st.Written()), BodyChunks(p))
  {
    WriteTwoStrs(st, p.nickname, p.text);
  }

  /** What the overrides of `encode` write behind the header. */
  method EncodeBody(p: Packet, st: Stream) returns (q: Packet)
    requires st.Valid()
    modifies st`offset, st.stream
    ensures st.Valid() && st.Written() == Emit(old(st.Written()), BodyChunks(p))
    ensures q == Counted(p)
  {
    q := p;
    match p {
      case CServerEnter(nickname) => st.WriteStr(nickname);
      case CRoomEnter(rid) => WriteOne(st, U16Bytes(rid));
      case CBroadcast(text) => st.WriteStr(text);
      case CMulticast(text) => st.WriteStr(text);
      case CUnicast(recver, text) => WriteTwoStrs(st, recver, text);
      case CRoomCreate(roomName) => st.WriteStr(roomName);
      case SServerEnterOk(pid) => WriteOne(st, U32Bytes(pid));
      case SLobbyRoomInfo(_, _, _) => q := EncodeRoomInfo(p, st);
      case SLobbyUserInfo(_, _, _, _) => q := EncodeUserInfo(p, st);
      case SLobbyEnter(uid, nickname) => WriteIdAndStr(st, uid, nickname);
      case SRoomEnter(uid, name) => WriteIdAndStr(st, uid, name);
      case SRoomExit(uid) => WriteOne(st, U32Bytes(uid));
      case SRoomName(roomName) => st.WriteStr(roomName);
      case SBroadcast(_, _) => EncodeCast(p, st);
      case SMulticast(_, _) => EncodeCast(p, st);
      case SUnicastOk(_, _) => EncodeCast(p, st);
      case _ =>
    }
  }

  /** The virtual `encode`; `q` is the packet object afterwards. */
  method Encode(p: Packet, st: Stream) returns (q: Packet)
    requires st.Valid()
    modifies st`offset, st.stream
    ensures st.Valid() && st.Written() == Emit(old(st.Written()), Chunks(p))
    ensures q == Counted(p)
  {
    EmitFixedThen(st.Written(), U32Bytes(Tag(TypeOf(p))), BodyChunks(p));
    st.Write(U32Bytes(Tag(TypeOf(p))));
    q := EncodeBody(p, st);
  }

  // ---- Decoding ----

  function ReadU16s(m: seq<Byte>, p: nat, n: nat): (r: Read<seq<U16>>)
    requires |m| == SOCKBUF_SIZE
    ensures r.Value? ==> |r.value| == n
    decreases n
  {
    if n == 0 then Value([], p)
    else match ReadU16(m, p)
      case Value(v, q) =>
        (match ReadU16s(m, q, n - 1)
         case Value(vs, z) => Value([v] + vs, z)
         case _ => Fault)
      case _ => Fault
  }

  function ReadU32s(m: seq<Byte>, p: nat, n: nat): (r: Read<seq<U32>>)
    requires |m| == SOCKBUF_SIZE
    ensures r.Value? ==> |r.value| == n
    decreases n
  {
    if n == 0 then Value([], p)
    else match ReadU32(m, p)
      case Value(v, q) =>
        (match ReadU32s(m, q, n - 1)
         case Value(vs, z) => Value([v] + vs, z)
         case _ => Fault)
      case _ => Fault
  }

  function ReadStrs(m: seq<Byte>, p: nat, n: nat): (r: Read<seq<Str>>)
    requires |m| == SOCKBUF_SIZE
    ensures r.Value? ==> |r.value| == n
    decreases n
  {
    if n == 0 then Value([], p)
    else match ReadStr(m, p)
      case Value(v, q) =>
        (match ReadStrs(m, q, n - 1)
         case Value(vs, z) => Value([v] + vs, z)
         case _ => Fault)
      case _ => Fault
  }

  function ReadTwoStrs(m: seq<Byte>, p: nat): Read<(Str, Str)>
    requires |m| == SOCKBUF_SIZE
  {
    match ReadStr(m, p)
    case Value(a, q) =>
      (match ReadStr(m, q)
       case Value(b, z) => Value((a, b), z)
       case _ => Fault)
    case _ => Fault
  }

  function ReadIdAndStr(m: seq<Byte>, p: nat): Read<(U32, Str)>
    requires |m| == SOCKBUF_SIZE
  {
    match ReadU32(m, p)
    case Value(id, q) =>
      (match ReadStr(m, q)
       case Value(v, z) => Value((id, v), z)
       case _ => Fault)
    case _ => Fault
  }

  function ReadRoomInfo(m: seq<Byte>, p: nat): Read<Packet>
    requires |m| == SOCKBUF_SIZE
  {
    match ReadU16(m, p)
    case Value(n, q) =>
      (match ReadU16s(m, q, n)
       case Value(ids, z) =>
         (match ReadStrs(m, z, n)
          case Value(names, e) => Value(SLobbyRoomInfo(n, ids, names), e)
          case _ => Fault)
       case _ => Fault)
    case _ => Fault
  }

  function ReadUsers(m: seq<Byte>, p: nat): (r: Read<(seq<U32>, seq<Str>)>)
    requires |m| == SOCKBUF_SIZE
    ensures r.Value? ==> |r.value.0| == |r.value.1| < 0x1_0000
  {
    match ReadU16(m, p)
    case Value(n, q) =>
      (match ReadU32s(m, q, n)
       case Value(ids, z) =>
         (match ReadStrs(m, z, n)
          case Value(names, e) => Value((ids, names), e)
          case _ => Fault)
       case _ => Fault)
    case _ => Fault
  }

  function ReadUserInfo(m: seq<Byte>, p: nat): Read<Packet>
    requires |m| == SOCKBUF_SIZE
  {
    match ReadU16(m, p)
    case Value(rooms, q) =>
      (match ReadUsers(m, q)
       case Value(users, e) => Value(SLobbyUserInfo(rooms, |users.0|, users.0, users.1), e)
       case _ => Fault)
    case _ => Fault
  }

  /** What the virtual `decode` of a fresh packet of kind `t` makes of buffer `m` from `p` on. */
  function DecodeAt(t: PacketType, m: seq<Byte>, p: nat): Read<Packet>
    requires |m| == SOCKBUF_SIZE
  {
    match t
    case C_SERVER_ENTER => Map(ReadStr(m, p), v => CServerEnter(v))
    case C_ROOM_ENTER => Map(ReadU16(m, p), v => CRoomEnter(v))
    case C_BROADCAST => Map(ReadStr(m, p), v => CBroadcast(v))
    case C_MULTICAST => Map(ReadStr(m, p), v => CMulticast(v))
    case C_UNICAST => Map(ReadTwoStrs(m, p), (v: (Str, Str)) => CUnicast(v.0, v.1))
    case C_ROOM_CREATE => Map(ReadStr(m, p), v => CRoomCreate(v))
    case S_SERVER_ENTER_OK => Map(ReadU32(m, p), v => SServerEnterOk(v))
    case S_LOBBY_ROOM_INFO => ReadRoomInfo(m, p)
    case S_LOBBY_USER_INFO => ReadUserInfo(m, p)
    case S_LOBBY_ENTER => Map(ReadIdAndStr(m, p), (v: (U32, Str)) => SLobbyEnter(v.0, v.1))
    case S_ROOM_ENTER => Map(ReadIdAndStr(m, p), (v: (U32, Str)) => SRoomEnter(v.0, v.1))
    case S_ROOM_EXIT => Map(ReadU32(m, p), v => SRoomExit(v))
    case S_ROOM_NAME => Map(ReadStr(m, p), v => SRoomName(v))
    case S_BROADCAST => Map(ReadTwoStrs(m, p), (v: (Str, Str)) => SBroadcast(v.0, v.1))
    case S_MULTICAST => Map(ReadTwoStrs(m, p), (v: (Str, Str)) => SMulticast(v.0, v.1))
    case S_UNICAST_OK => Map(ReadTwoStrs(m, p), (v: (Str, Str)) => SUnicastOk(v.0, v.1))
    case _ => Value(ProduceByType(Tag(t)), p)
  }

  function Map<T, U>(r: Read<T>, f: T -> U): Read<U> {
    match r
    case Value(v, p) => Value(f(v), p)
    case Skipped => Skipped
    case Fault => Fault
  }

  /** A stream whose read pointer has just been moved by a read with result `r`. */
  ghost predicate Advanced<T>(st: Stream, r: Read<T>)
    reads st
  {
    r.Value? ==> st.readPtr == r.pos
  }

  /** A list of which `vs` is read already, the rest giving `r`. */
  function Joined<T>(vs: seq<T>, r: Read<seq<T>>): Read<seq<T>> {
    match r
    case Value(rest, z) => Value(vs + rest, z)
    case _ => Fault
  }

  lemma JoinedNone<T>(r: Read<seq<T>>)
    ensures !r.Skipped? ==> Joined([], r) == r
  {
    if r.Value? {
      assert [] + r.value == r.value;
    }
  }

  lemma ReadU16sOneMore(m: seq<Byte>, p: nat, n: nat, vs: seq<U16>)
    requires |m| == SOCKBUF_SIZE && n > 0
    ensures Joined(vs, ReadU16s(m, p, n)) ==
            match ReadU16(m, p) {
              case Value(v, q) => Joined(vs + [v], ReadU16s(m, q, n - 1))
              case _ => Fault
            }
  {
    var head := ReadU16(m, p);
    if head.Value? && ReadU16s(m, head.pos, n - 1).Value? {
      var rest := ReadU16s(m, head.pos, n - 1).value;
      assert vs + ([head.value] + rest) == vs + [head.value] + rest;
    }
  }

  method NextU16s(st: Stream, n: nat) returns (r: Read<seq<U16>>)
    requires st.Valid() && st.offset + 4 <= SOCKBUF_SIZE
    modifies st`readPtr
    ensures r == ReadU16s(st.stream[..], old(st.readPtr), n) && Advanced(st, r)
  {
    ghost var m, p := st.stream[..], st.readPtr;
    var vs := [];
    var i := 0;
    JoinedNone(ReadU16s(m, p, n));
    while i < n
      invariant 0 <= i <= n
      invariant ReadU16s(m, p, n) == Joined(vs, ReadU16s(m, st.readPtr, n - i))
    {
      ReadU16sOneMore(m, st.readPtr, n - i, vs);
      var v := st.NextU16();
      if !v.Value? {
        return Fault;
      }
      vs := vs + [v.value];
      i := i + 1;
    }
    assert vs + [] == vs;
    r := Value(vs, st.readPtr);
  }

  lemma ReadU32sOneMore(m: seq<Byte>, p: nat, n: nat, vs: seq<U32>)
    requires |m| == SOCKBUF_SIZE && n > 0
    ensures Joined(vs, ReadU32s(m, p, n)) ==
            match ReadU32(m, p) {
              case Value(v, q) => Joined(vs + [v], ReadU32s(m, q, n - 1))
              case _ => Fault
            }
  {
    var head := ReadU32(m, p);
    if head.Value? && ReadU32s(m, head.pos, n - 1).Value? {
      var rest := ReadU32s(m, head.pos, n - 1).value;
      assert vs + ([head.value] + rest) == vs + [head.value] + rest;
    }
  }

  method NextU32s(st: Stream, n: nat) returns (r: Read<seq<U32>>)
    requires st.Valid() && st.offset + 4 <= SOCKBUF_SIZE
    modifies st`readPtr
    ensures r == ReadU32s(st.stream[..], old(st.readPtr), n) && Advanced(st, r)
  {
    ghost var m, p := st.stream[..], st.readPtr;
    var vs := [];
    var i := 0;
    JoinedNone(ReadU32s(m, p, n));
    while i < n
      invariant 0 <= i <= n
      invariant ReadU32s(m, p, n) == Joined(vs, ReadU32s(m, st.readPtr, n - i))
    {
      ReadU32sOneMore(m, st.readPtr, n - i, vs);
      var v := st.NextU32();
      if !v.Value? {
        return Fault;
      }
      vs := vs + [v.value];
      i := i + 1;
    }
    assert vs + [] == vs;
    r := Value(vs, st.readPtr);
  }

  lemma ReadStrsOneMore(m: seq<Byte>, p: nat, n: nat, vs: seq<Str>)
    requires |m| == SOCKBUF_SIZE && n > 0
    ensures Joined(vs, ReadStrs(m, p, n)) ==
            match ReadStr(m, p) {
              case Value(v, q) => Joined(vs + [v], ReadStrs(m, q, n - 1))
              case _ => Fault
            }
  {
    var head := ReadStr(m, p);
    if head.Value? && ReadStrs(m, head.pos, n - 1).Value? {
      var rest := ReadStrs(m, head.pos, n - 1).value;
      assert vs + ([head.value] + rest) == vs + [head.value] + rest;
    }
  }

  method NextStrs(st: Stream, n: nat) returns (r: Read<seq<Str>>)
    requires st.Valid()
    modifies st`readPtr
    ensures r == ReadStrs(st.stream[..], old(st.readPtr), n) && Advanced(st, r)
  {
    ghost var m, p := st.stream[..], st.readPtr;
    var vs := [];
    var i := 0;
    JoinedNone(ReadStrs(m, p, n));
    while i < n
      invariant 0 <= i <= n
      invariant ReadStrs(m, p, n) == Joined(vs, ReadStrs(m, st.readPtr, n - i))
    {
      ReadStrsOneMore(m, st.readPtr, n - i, vs);
      var v := st.NextStr();
      if !v.Value? {
        return Fault;
      }
      vs := vs + [v.value];
      i := i + 1;
    }
    assert vs + [] == vs;
    r := Value(vs, st.readPtr);
  }

  method NextTwoStrs(st: Stream) returns (r: Read<(Str, Str)>)
    requires st.Valid()
    modifies st`readPtr
    ensures r == ReadTwoStrs(st.stream[..], old(st.readPtr)) && Advanced(st, r)
  {
    var a := st.NextStr();
    if !a.Value? {
      return Fault;
    }
    var b := st.NextStr();
    r := if b.Value? then Value((a.value, b.value), b.pos) else Fault;
  }

  method NextIdAndStr(st: Stream) returns (r: Read<(U32, Str)>)
    requires st.Valid() && st.offset + 4 <= SOCKBUF_SIZE
    modifies st`readPtr
    ensures r == ReadIdAndStr(st.stream[..], old(st.readPtr)) && Advanced(st, r)
  {
    var id := st.NextU32();
    if !id.Value? {
      return Fault;
    }
    var v := st.NextStr();
    r := if v.Value? then Value((id.value, v.value), v.pos) else Fault;
  }

  method NextRoomInfo(st: Stream) returns (r: Read<Packet>)
    requires st.Valid() && st.offset + 4 <= SOCKBUF_SIZE
    modifies st`readPtr
    ensures r == ReadRoomInfo(st.stream[..], old(st.readPtr)) && Advanced(st, r)
  {
    var n := st.NextU16();
    if !n.Value? {
      return Fault;
    }
    var ids := NextU16s(st, n.value);
    if !ids.Value? {
      return Fault;
    }
    var names := NextStrs(st, n.value);
    r := if names.Value? then Value(SLobbyRoomInfo(n.value, ids.value, names.value), names.pos) else Fault;
  }

  method NextUserInfo(st: Stream) returns (r: Read<Packet>)
    requires st.Valid() && st.offset + 4 <= SOCKBUF_SIZE
    modifies st`readPtr
    ensures r == ReadUserInfo(st.stream[..], old(st.readPtr)) && Advanced(st, r)
  {
    var rooms := st.NextU16();
    if !rooms.Value? {
      return Fault;
    }
    var n := st.NextU16();
    if !n.Value? {
      return Fault;
    }
    var ids := NextU32s(st, n.value);
    if !ids.Value? {
      return Fault;
    }
    var names := NextStrs(st, n.value);
    r := if names.Value?
      then Value(SLobbyUserInfo(rooms.value, n.value, ids.value, names.value), names.pos)
      else Fault;
  }

  /** The virtual `decode` of a fresh packet. The bound on `offset` is what `GetPacket`
      guarantees: it strips a four-byte header off at most 1024 bytes. */
  method Decode(t: PacketType, st: Stream) returns (r: Read<Packet>)
    requires st.Valid() && st.offset + 4 <= SOCKBUF_SIZE
    modifies st`readPtr
    ensures r == DecodeAt(t, st.stream[..], old(st.readPtr)) && Advanced(st, r)
  {
    match t {
      case C_ROOM_ENTER =>
        var v := st.NextU16();
        r := Map(v, (x: U16) => CRoomEnter(x));
      case S_SERVER_ENTER_OK =>
        var v := st.NextU32();
        r := Map(v, (x: U32) => SServerEnterOk(x));
      case S_ROOM_EXIT =>
        var v := st.NextU32();
        r := Map(v, (x: U32) => SRoomExit(x));
      case S_LOBBY_ROOM_INFO => r := NextRoomInfo(st);
      case S_LOBBY_USER_INFO => r := NextUserInfo(st);
      case S_LOBBY_ENTER =>
        var v := NextIdAndStr(st);
        r := Map(v, (x: (U32, Str)) => SLobbyEnter(x.0, x.1));
      case S_ROOM_ENTER =>
        var v := NextIdAndStr(st);
        r := Map(v, (x: (U32, Str)) => SRoomEnter(x.0, x.1));
      case C_SERVER_ENTER | C_BROADCAST | C_MULTICAST | C_ROOM_CREATE | S_ROOM_NAME =>
        var v := st.NextStr();
        r := Map(v, (x: Str) =>
          if t == C_SERVER_ENTER then CServerEnter(x)
          else if t == C_BROADCAST then CBroadcast(x)
          else if t == C_MULTICAST then CMulticast(x)
          else if t == C_ROOM_CREATE then CRoomCreate(x)
          else SRoomName(x));
      case C_UNICAST | S_BROADCAST | S_MULTICAST | S_UNICAST_OK =>
        var v := NextTwoStrs(st);
        r := Map(v, (x: (Str, Str)) =>
          if t == C_UNICAST then CUnicast(x.0, x.1)
          else if t == S_BROADCAST then SBroadcast(x.0, x.1)
          else if t == S_MULTICAST then SMulticast(x.0, x.1)
          else SUnicastOk(x.0, x.1));
      case _ => r := Value(ProduceByType(Tag(t)), st.readPtr);
    }
  }
}
