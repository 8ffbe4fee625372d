/** The packet kinds of ClientPacket.h and ServerPacket.h, their tags and their factory. */
module Packets {
  import opened Bytes

  datatype PacketType =
    | UNDEFINED
    | C_SERVER_ENTER | C_SERVER_EXIT | C_ROOM_ENTER | C_ROOM_EXIT
    | C_BROADCAST | C_MULTICAST | C_UNICAST | C_ROOM_CREATE | C_LOBBY_ROOM_INFO
    | S_SERVER_ENTER_OK | S_SERVER_ENTER_NO
    | S_LOBBY_ROOM_INFO | S_LOBBY_USER_INFO | S_LOBBY_ENTER | S_LOBBY_EXIT
    | S_ROOM_ENTER | S_ROOM_EXIT | S_ROOM_NAME
    | S_BROADCAST | S_MULTICAST | S_UNICAST_OK | S_UNICAST_NO

  datatype Packet =
    | PkUndefined(code: int)
    | CServerEnter(nickname: Str)
    | CServerExit
    | CRoomEnter(rid: U16)
    | CRoomExit
    | CBroadcast(text: Str)
    | CMulticast(text: Str)
    | CUnicast(recver: Str, text: Str)
    | CRoomCreate(roomName: Str)
    | CLobbyRoomInfo
    | SServerEnterOk(pid: U32)
    | SServerEnterNo
    | SLobbyRoomInfo(roomCount: U16, roomIds: seq<U16>, roomNames: seq<Str>)
    | SLobbyUserInfo(roomCount: U16, userCount: U16, ids: seq<U32>, names: seq<Str>)
    | SLobbyEnter(uid: U32, nickname: Str)
    | SLobbyExit
    | SRoomEnter(uid: U32, name: Str)
    | SRoomExit(uid: U32)
    | SRoomName(roomName: Str)
    | SBroadcast(nickname: Str, text: Str)
    | SMulticast(nickname: Str, text: Str)
    | SUnicastOk(nickname: Str, text: Str)
    | SUnicastNo

  /** The virtual `type()` of each packet class. */
  function TypeOf(p: Packet): PacketType {
    match p
    case PkUndefined(_) => UNDEFINED
    case CServerEnter(_) => C_SERVER_ENTER
    case CServerExit => C_SERVER_EXIT
    case CRoomEnter(_) => C_ROOM_ENTER
    case CRoomExit => C_ROOM_EXIT
    case CBroadcast(_) => C_BROADCAST
    case CMulticast(_) => C_MULTICAST
    case CUnicast(_, _) => C_UNICAST
    case CRoomCreate(_) => C_ROOM_CREATE
    case CLobbyRoomInfo => C_LOBBY_ROOM_INFO
    case SServerEnterOk(_) => S_SERVER_ENTER_OK
    case SServerEnterNo => S_SERVER_ENTER_NO
    case SLobbyRoomInfo(_, _, _) => S_LOBBY_ROOM_INFO
    case SLobbyUserInfo(_, _, _, _) => S_LOBBY_USER_INFO
    case SLobbyEnter(_, _) => S_LOBBY_ENTER
    case SLobbyExit => S_LOBBY_EXIT
    case SRoomEnter(_, _) => S_ROOM_ENTER
    case SRoomExit(_) => S_ROOM_EXIT
    case SRoomName(_) => S_ROOM_NAME
    case SBroadcast(_, _) => S_BROADCAST
    case SMulticast(_, _) => S_MULTICAST
    case SUnicastOk(_, _) => S_UNICAST_OK
    case SUnicastNo => S_UNICAST_NO
  }

  /** The enumerators of `PacketType`. */
  function Tag(t: PacketType): U32 {
    match t
    case UNDEFINED => 0
    case C_SERVER_ENTER => 101
    case C_SERVER_EXIT => 102
    case C_ROOM_ENTER => 110
    case C_ROOM_EXIT => 111
    case C_BROADCAST => 112
    case C_MULTICAST => 113
    case C_UNICAST => 114
    case C_ROOM_CREATE => 115
    case C_LOBBY_ROOM_INFO => 116
    case S_SERVER_ENTER_OK => 201
    case S_SERVER_ENTER_NO => 202
    case S_LOBBY_ROOM_INFO => 203
    case S_LOBBY_USER_INFO => 204
    case S_LOBBY_ENTER => 205
    case S_LOBBY_EXIT => 206
    case S_ROOM_ENTER => 207
    case S_ROOM_EXIT => 208
    case S_ROOM_NAME => 209
    case S_BROADCAST => 210
    case S_MULTICAST => 211
    case S_UNICAST_OK => 212
    case S_UNICAST_NO => 213
  }

  /** `PacketFactory::ProduceByType`: a fresh packet for a tag read off the wire.
      A negative `int32_t` header is a value above 0x7FFF_FFFF here; both take the default. */
  function ProduceByType(tag: U32): Packet {
    match tag
    case 0 => PkUndefined(0)
    case 101 => CServerEnter([])
    case 102 => CServerExit
    case 110 => CRoomEnter(0)
    case 111 => CRoomExit
    case 112 => CBroadcast([])
    case 113 => CMulticast([])
    case 114 => CUnicast([], [])
    case 115 => CRoomCreate([])
    case 116 => CLobbyRoomInfo
    case 201 => SServerEnterOk(0)
    case 202 => SServerEnterNo
    case 203 => SLobbyRoomInfo(0, [], [])
    case 204 => SLobbyUserInfo(0, 0, [], [])
    case 205 => SLobbyEnter(0, [])
    case 206 => SLobbyExit
    case 207 => SRoomEnter(0, [])
    case 208 => SRoomExit(0)
    case 209 => SRoomName([])
    case 210 => SBroadcast([], [])
    case 211 => SMulticast([], [])
    case 212 => SUnicastOk([], [])
    case 213 => SUnicastNo
    case _ => PkUndefined(0)
  }

  /** The factory undoes the tag, for every kind. */
  lemma FactoryInvertsTag(t: PacketType)
    ensures TypeOf(ProduceByType(Tag(t))) == t
  {
  }

  /** It makes something other than `PK_UNDEFINED` only of the tag of the kind it makes. */
  lemma FactoryIsExact(tag: U32)
    ensures var made := TypeOf(ProduceByType(tag)); made != UNDEFINED ==> Tag(made) == tag
  {
  }

  /** The enumerators of `PacketType` count up from three given numbers; only `PK_UNDEFINED` is 0. */
  lemma TagsCountUp(t: PacketType)
    ensures var lobby := [C_SERVER_ENTER, C_SERVER_EXIT];
            var room := [C_ROOM_ENTER, C_ROOM_EXIT, C_BROADCAST, C_MULTICAST, C_UNICAST,
                         C_ROOM_CREATE, C_LOBBY_ROOM_INFO];
            var server := [S_SERVER_ENTER_OK, S_SERVER_ENTER_NO, S_LOBBY_ROOM_INFO, S_LOBBY_USER_INFO, S_LOBBY_ENTER,
                           S_LOBBY_EXIT, S_ROOM_ENTER, S_ROOM_EXIT, S_ROOM_NAME,
                           S_BROADCAST, S_MULTICAST, S_UNICAST_OK, S_UNICAST_NO];
            && (t == UNDEFINED || t in lobby || t in room || t in server)
            && (forall i :: 0 <= i < |lobby| ==> Tag(lobby[i]) == 101 + i)
            && (forall i :: 0 <= i < |room| ==> Tag(room[i]) == 110 + i)
            && (forall i :: 0 <= i < |server| ==> Tag(server[i]) == 201 + i)
            && Tag(UNDEFINED) == 0
  {
    match t
    case UNDEFINED | C_SERVER_ENTER | C_SERVER_EXIT =>
    case _ =>
  }

  lemma TagsDistinct(t: PacketType, u: PacketType)
    ensures Tag(t) == Tag(u) ==> t == u
  {
    FactoryInvertsTag(t);
    FactoryInvertsTag(u);
  }
}
