/** PacketInfo.h and Packet.h of version 1.0, over an explicit memory: who owns a buffer is the
    question there, so buffers are named and `new` and `delete` are operations on a value. */
module V10Memory {
  import opened Bytes
  import opened Options

  const MAX_SOCKBUF := 1024
  const SERVER_MESSAGE_PACKET_LENGTH := 8
  const SERVER_MESSAGE := 51
  const NICKNAME_ALREADY_EXIST := 1
  const NICKNAME_CREATED := 2
  const NICKNAME_NOT_FOUND := 3

  datatype SendType = Uninitialized | Multi | Uni | Broad

  datatype Action =
    | ServerEnter | ServerExit | RoomEnter | RoomExit | ChatBroadcast | ChatMulticast | ChatUnicast

  /** The actions that have a handler. */
  function ActionOf(kind: U16): Option<Action> {
    match kind
    case 11 => Some(ServerEnter)
    case 12 => Some(ServerExit)
    case 21 => Some(RoomEnter)
    case 22 => Some(RoomExit)
    case 31 => Some(ChatBroadcast)
    case 32 => Some(ChatMulticast)
    case 33 => Some(ChatUnicast)
    case _ => None
  }

  /** The numbers of `eAction`; no other number has a handler. */
  lemma ActionsAreNumbered(kind: U16)
    ensures ActionOf(11) == Some(ServerEnter) && ActionOf(12) == Some(ServerExit)
    ensures ActionOf(21) == Some(RoomEnter) && ActionOf(22) == Some(RoomExit)
    ensures ActionOf(31) == Some(ChatBroadcast) && ActionOf(32) == Some(ChatMulticast)
    ensures ActionOf(33) == Some(ChatUnicast)
    ensures ActionOf(kind).Some? ==> kind in {11, 12, 21, 22, 31, 32, 33}
  {
  }

  /** `Heap(b)` points to the allocation `b`. An allocation is named once and for all: releasing
      it twice is visible even where an allocator would reuse its address. */
  datatype Ptr = Null | Received(client: nat) | Heap(buffer: nat)

  datatype PacketInfo = PacketInfo(
    clientIndex: nat, dataSize: nat, sendType: SendType, isClose: bool, data: Ptr)

  /** `live` holds the allocated buffers, `received` the receive buffer of each client. */
  datatype Memory = Memory(live: map<nat, seq<Byte>>, next: nat, received: seq<seq<Byte>>) {
    predicate Valid() {
      && (forall b :: b in live ==> b < next)
      && (forall c :: 0 <= c < |received| ==> |received[c]| == MAX_SOCKBUF)
    }

    function Alloc(bytes: seq<Byte>): Memory {
      this.(live := live[next := bytes], next := next + 1)
    }

    function Free(b: nat): Memory {
      this.(live := live - {b})
    }

    predicate Readable(p: Ptr, n: nat) {
      match p
      case Null => n == 0
      case Received(c) => c < |received| && n <= |received[c]|
      case Heap(b) => b in live && n <= |live[b]|
    }

    function Read(p: Ptr, n: nat): (bytes: seq<Byte>)
      requires Readable(p, n)
      ensures |bytes| == n
    {
      match p
      case Null => []
      case Received(c) => received[c][..n]
      case Heap(b) => live[b][..n]
    }
  }

  lemma AllocSize(m: Memory, bytes: seq<Byte>)
    requires m.Valid()
    ensures m.Alloc(bytes).Valid()
    ensures |m.Alloc(bytes).live| == |m.live| + 1
  {
    assert m.Alloc(bytes).live.Keys == m.live.Keys + {m.next};
  }

  lemma FreeSize(m: Memory, b: nat)
    requires m.Valid() && b in m.live
    ensures m.Free(b).Valid()
    ensures |m.Free(b).live| == |m.live| - 1
  {
    assert m.Free(b).live.Keys == m.live.Keys - {b};
  }

  /** What a packet says, apart from where its bytes are. */
  datatype Message = Message(client: nat, sendType: SendType, isClose: bool, bytes: seq<Byte>)

  function MessageOf(m: Memory, info: PacketInfo): Message
    requires m.Readable(info.data, info.dataSize)
  {
    Message(info.clientIndex, info.sendType, info.isClose, m.Read(info.data, info.dataSize))
  }

  /** `info` owns a whole heap buffer that holds `message`. */
  ghost predicate Carries(m: Memory, info: PacketInfo, message: Message) {
    && info.data.Heap? && info.data.buffer in m.live && |m.live[info.data.buffer]| == info.dataSize
    && MessageOf(m, info) == message
  }

  /** The header's `Type`. */
  function Kind(packet: seq<Byte>): U16
    requires |packet| == MAX_SOCKBUF
  {
    U16Of(packet[2..4])
  }

  /** `RoomNo`, a signed 32-bit integer after the header and the sender's name. */
  function RoomNo(packet: seq<Byte>): int
    requires |packet| == MAX_SOCKBUF
  {
    var v := U32Of(packet[36..40]);
    if v < 0x8000_0000 then v else v - 0x1_0000_0000
  }

  /** The type is the second 16-bit number of a packet. The room is the 32-bit number behind the
      header and the 32 bytes of the name, taken as signed. */
  lemma {:induction false} HeaderFields(packet: seq<Byte>)
    requires |packet| == MAX_SOCKBUF
    ensures Kind(packet) == LittleEndian(packet[2..4])
    ensures -0x8000_0000 <= RoomNo(packet) < 0x8000_0000
    ensures RoomNo(packet) % 0x1_0000_0000 == LittleEndian(packet[36..40])
  {
    U16IsLittleEndian(0, packet[2..4]);
    U32IsLittleEndian(0, packet[36..40]);
  }

  /** The bytes of a `SERVER_MESSAGE_PACKET`. */
  function ServerMessage(text: U32): (b: seq<Byte>)
    ensures |b| == SERVER_MESSAGE_PACKET_LENGTH
  {
    U16Bytes(SERVER_MESSAGE_PACKET_LENGTH) + U16Bytes(SERVER_MESSAGE) + U32Bytes(text)
  }

  /** The answer of the server: its length 8, its type 51 and the text. */
  lemma {:induction false} ServerMessageFields(text: U32)
    ensures var b := ServerMessage(text);
            && |b| == 8 && LittleEndian(b[..2]) == 8 && LittleEndian(b[2..4]) == 51 && LittleEndian(b[4..]) == text
  {
    var b, length, kind := ServerMessage(text), U16Bytes(SERVER_MESSAGE_PACKET_LENGTH), U16Bytes(SERVER_MESSAGE);
    U16IsLittleEndian(SERVER_MESSAGE_PACKET_LENGTH, length);
    U16IsLittleEndian(SERVER_MESSAGE, kind);
    U32IsLittleEndian(text, U32Bytes(text));
    assert b[..2] == length && b[2..4] == kind && b[4..] == U32Bytes(text);
  }
}
