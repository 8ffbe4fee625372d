/** UserInfo.h and ChatClientManager.h of version 1.0: rooms of users, and who a packet goes to. */
module V10Clients {
  import opened Bytes
  import opened V10Memory

  const LOBBY := 0

  datatype User = User(connected: bool, room: int, prevRoom: int) {
    function EnterRoom(number: int): User {
      if room != LOBBY then this else this.(room := number)
    }

    function ExitRoom(): User {
      if room == LOBBY then this else this.(room := LOBBY, prevRoom := room)
    }

    function SetNickname(): User {
      this.(room := LOBBY)
    }
  }

  /** One `SendMsg`; `close` tells the worker to close the connection once it is sent. */
  datatype Delivery = Delivery(client: nat, bytes: seq<Byte>, close: bool)

  /** The room a multicast of `user` goes to: its own or, in the lobby, the one it left last. */
  function Audience(user: User): int {
    if user.room == LOBBY then user.prevRoom else user.room
  }

  /** What one turn of a loop sends: one message or none. */
  function Maybe(send: bool, d: Delivery): seq<Delivery> {
    if send then [d] else []
  }

  predicate IsConnected(users: seq<User>, c: nat) {
    c < |users| && users[c].connected
  }

  predicate InRoom(users: seq<User>, room: int, c: nat) {
    c < |users| && users[c].connected && users[c].room == room
  }

  /** What the loop of `BroadCast` sends to the first `n` users. */
  function BroadTo(users: seq<User>, message: Message, n: nat): seq<Delivery>
    requires n <= |users|
  {
    if n == 0 then []
    else BroadTo(users, message, n - 1)
         + Maybe(IsConnected(users, n - 1), Delivery(n - 1, message.bytes, false))
  }

  /** What the loop of `MultiCast` sends to the first `n` users. */
  function MultiTo(users: seq<User>, message: Message, room: int, n: nat): seq<Delivery>
    requires n <= |users|
  {
    if n == 0 then []
    else MultiTo(users, message, room, n - 1)
         + Maybe(InRoom(users, room, n - 1),
                 Delivery(n - 1, message.bytes, message.isClose && n - 1 == message.client))
  }

  /** What the packet thread sends for one packet. */
  function Cast(users: seq<User>, message: Message): seq<Delivery>
    requires message.client < |users|
  {
    match message.sendType
    case Uninitialized => []
    case Uni => [Delivery(message.client, message.bytes, false)]
    case Broad => BroadTo(users, message, |users|)
    case Multi =>
      var room := Audience(users[message.client]);
      if room == LOBBY then [] else MultiTo(users, message, room, |users|)
  }

  /** How often `c` is sent something. */
  function SentTo(ds: seq<Delivery>, c: nat): nat {
    if ds == [] then 0
    else SentTo(ds[..|ds| - 1], c) + if ds[|ds| - 1].client == c then 1 else 0
  }

  lemma {:induction false} SentToMaybe(ds: seq<Delivery>, send: bool, d: Delivery, c: nat)
    ensures SentTo(ds + Maybe(send, d), c) == SentTo(ds, c) + if send && d.client == c then 1 else 0
  {
    if send {
      assert (ds + [d])[..|ds|] == ds;
    } else {
      assert ds + [] == ds;
    }
  }

  /** Everybody gets the bytes of the message; only `closes` gets the close flag with it. */
  ghost predicate Copies(ds: seq<Delivery>, message: Message, closes: int) {
    forall i :: 0 <= i < |ds| ==> ds[i].bytes == message.bytes && (ds[i].close <==> ds[i].client == closes)
  }

  lemma {:induction false} MultiToStep(users: seq<User>, message: Message, room: int, n: nat, c: nat)
    requires 0 < n <= |users|
    ensures SentTo(MultiTo(users, message, room, n), c) ==
            SentTo(MultiTo(users, message, room, n - 1), c) + if c == n - 1 && InRoom(users, room, c) then 1 else 0
  {
    var d := Delivery(n - 1, message.bytes, message.isClose && n - 1 == message.client);
    SentToMaybe(MultiTo(users, message, room, n - 1), InRoom(users, room, n - 1), d, c);
  }

  lemma {:induction false} MultiToReaches(users: seq<User>, message: Message, room: int, n: nat, c: nat)
    requires n <= |users|
    ensures SentTo(MultiTo(users, message, room, n), c) == if c < n && InRoom(users, room, c) then 1 else 0
  {
    if n > 0 {
      MultiToReaches(users, message, room, n - 1, c);
      MultiToStep(users, message, room, n, c);
    }
  }

  lemma {:induction false} MultiToCopies(users: seq<User>, message: Message, room: int, n: nat)
    requires n <= |users|
    ensures Copies(MultiTo(users, message, room, n), message, if message.isClose then message.client else -1)
  {
    if n > 0 {
      MultiToCopies(users, message, room, n - 1);
    }
  }

  lemma {:induction false} BroadToStep(users: seq<User>, message: Message, n: nat, c: nat)
    requires 0 < n <= |users|
    ensures SentTo(BroadTo(users, message, n), c) ==
            SentTo(BroadTo(users, message, n - 1), c) + if c == n - 1 && IsConnected(users, c) then 1 else 0
  {
    SentToMaybe(BroadTo(users, message, n - 1), IsConnected(users, n - 1), Delivery(n - 1, message.bytes, false), c);
  }

  lemma {:induction false} BroadToReaches(users: seq<User>, message: Message, n: nat, c: nat)
    requires n <= |users|
    ensures SentTo(BroadTo(users, message, n), c) == if c < n && IsConnected(users, c) then 1 else 0
  {
    if n > 0 {
      BroadToReaches(users, message, n - 1, c);
      BroadToStep(users, message, n, c);
    }
  }

  lemma {:induction false} BroadToCopies(users: seq<User>, message: Message, n: nat)
    requires n <= |users|
    ensures Copies(BroadTo(users, message, n), message, -1)
  {
    if n > 0 {
      BroadToCopies(users, message, n - 1);
    }
  }

  /** A multicast reaches the connected users of the sender's room, each once, and nobody else;
      from the lobby it reaches the room the sender left last, and without one nobody. All get the
      bytes of the message; of a close request the sender's own copy carries the flag. */
  lemma {:induction false} MultiCastReachesExactly(users: seq<User>, message: Message, c: nat)
    requires message.client < |users| && message.sendType == Multi
    ensures var sender := users[message.client];
            var hears := && c < |users| && users[c].connected && users[c].room != LOBBY
                         && (users[c].room == sender.room
                             || (sender.room == LOBBY && users[c].room == sender.prevRoom));
            SentTo(Cast(users, message), c) == if hears then 1 else 0
    ensures Copies(Cast(users, message), message, if message.isClose then message.client else -1)
  {
    MultiToReaches(users, message, Audience(users[message.client]), |users|, c);
    MultiToCopies(users, message, Audience(users[message.client]), |users|);
  }

  /** A broadcast reaches every connected user once and a unicast its client, connected or not,
      with the bytes of the message and no close flag; without a send type nobody is reached. */
  lemma {:induction false} CastReachesExactly(users: seq<User>, message: Message, c: nat)
    requires message.client < |users| && message.sendType != Multi
    ensures var hears := match message.sendType
                         case Uninitialized => false
                         case Uni => c == message.client
                         case Broad => c < |users| && users[c].connected;
            SentTo(Cast(users, message), c) == if hears then 1 else 0
    ensures Copies(Cast(users, message), message, -1)
  {
    match message.sendType {
      case Uninitialized =>
      case Uni => SentToMaybe([], true, Delivery(message.client, message.bytes, false), c);
      case Broad =>
        BroadToReaches(users, message, |users|, c);
        BroadToCopies(users, message, |users|);
    }
  }

  ghost predicate Closes(ds: seq<Delivery>, c: nat) {
    exists i :: 0 <= i < |ds| && ds[i].client == c && ds[i].close
  }

  lemma {:induction false} MultiToCloses(users: seq<User>, message: Message, room: int, n: nat, c: nat)
    requires n <= |users|
    ensures Closes(MultiTo(users, message, room, n), c) <==>
            message.isClose && c == message.client && c < n
            && users[c].connected && users[c].room == room
  {
    if n > 0 {
      MultiToCloses(users, message, room, n - 1, c);
      var ds := MultiTo(users, message, room, n - 1);
      var all := MultiTo(users, message, room, n);
      if Closes(ds, c) {
        var i :| 0 <= i < |ds| && ds[i].client == c && ds[i].close;
        assert all[i] == ds[i];
      }
      if c == n - 1 && users[c].connected && users[c].room == room && message.isClose
         && c == message.client {
        assert all[|ds|].client == c && all[|ds|].close;
      }
      assert |all| > |ds| ==> all == ds + [all[|ds|]];
    }
  }

  /** A close request closes its sender, and nobody else, exactly when the sender is still
      connected and in a room: one that left its room first is never closed by the server. */
  lemma CloseReachesSenderExactly(users: seq<User>, message: Message, c: nat)
    requires message.client < |users|
    ensures Closes(Cast(users, message), c) <==>
            message.isClose && message.sendType == Multi && c == message.client
            && users[c].connected && users[c].room != LOBBY
  {
    match message.sendType {
      case Uninitialized =>
      case Uni =>
      case Broad => BroadToKeepsOpen(users, message, |users|, c);
      case Multi => MultiToCloses(users, message, Audience(users[message.client]), |users|, c);
    }
  }

  lemma {:induction false} BroadToKeepsOpen(users: seq<User>, message: Message, n: nat, c: nat)
    requires n <= |users|
    ensures !Closes(BroadTo(users, message, n), c)
  {
    if n > 0 {
      BroadToKeepsOpen(users, message, n - 1, c);
      var ds := BroadTo(users, message, n - 1);
      var all := BroadTo(users, message, n);
      assert forall i :: 0 <= i < |ds| ==> all[i] == ds[i];
    }
  }

  class ChatClientManager {
    var users: seq<User>
    /** History: every `SendMsg`. */
    ghost var sent: seq<Delivery>

    constructor (n: nat)
      ensures |users| == n && sent == []
      ensures forall c :: 0 <= c < n ==> users[c] == User(false, LOBBY, LOBBY)
    {
      users := seq(n, _ => User(false, LOBBY, LOBBY));
      sent := [];
    }

    method SendMsg(c: nat, bytes: seq<Byte>, close: bool)
      modifies this`sent
      ensures sent == old(sent) + [Delivery(c, bytes, close)]
    {
      sent := sent + [Delivery(c, bytes, close)];
    }

    method UniCast(info: PacketInfo, m: Memory)
      requires m.Readable(info.data, info.dataSize)
      modifies this`sent
      ensures sent == old(sent) + [Delivery(info.clientIndex, MessageOf(m, info).bytes, false)]
    {
      SendMsg(info.clientIndex, m.Read(info.data, info.dataSize), false);
    }

    method BroadCast(info: PacketInfo, m: Memory)
      requires m.Readable(info.data, info.dataSize)
      modifies this`sent
      ensures sent == old(sent) + BroadTo(users, MessageOf(m, info), |users|)
    {
      for i := 0 to |users|
        invariant sent == old(sent) + BroadTo(users, MessageOf(m, info), i)
      {
        if users[i].connected {
          SendMsg(i, m.Read(info.data, info.dataSize), false);
        }
      }
    }

    method MultiCast(info: PacketInfo, m: Memory)
      requires m.Readable(info.data, info.dataSize) && info.clientIndex < |users|
      requires info.sendType == Multi
      modifies this`sent
      ensures sent == old(sent) + Cast(users, MessageOf(m, info))
    {
      var senderRoom := users[info.clientIndex].room;
      if senderRoom == LOBBY && users[info.clientIndex].prevRoom == LOBBY {
        return;
      }
      if senderRoom == LOBBY {
        senderRoom := users[info.clientIndex].prevRoom;
      }
      for i := 0 to |users|
        invariant sent == old(sent) + MultiTo(users, MessageOf(m, info), senderRoom, i)
      {
        if !users[i].connected || users[i].room != senderRoom {
          continue;
        }
        if info.isClose && i == info.clientIndex {
          SendMsg(i, m.Read(info.data, info.dataSize), true);
          continue;
        }
        SendMsg(i, m.Read(info.data, info.dataSize), false);
      }
    }
  }
}
