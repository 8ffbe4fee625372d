/** PacketManager.hpp of version 1.0 as an object. Each method is a run of the step machine. */
module V10PacketManager {
  import opened Bytes
  import opened Options
  import opened V10Memory
  import opened V10Clients
  import opened V10Protocol

  /** A call of the handler of `a` with no other thread in between. */
  ghost function Handled(s: Server, a: Action, client: nat, size: nat, found: int): Server
    requires s.memory.Valid() && Ready(s, Begin(0, client, size, found))
  {
    var begun := Start(s, 0, a, client, size, found);
    var once := Put(begun, 0);
    if once.workers[0].Idle? then once else Put(once, 0)
  }

  /** The steps of that call. */
  ghost function HandlerSteps(a: Action, client: nat, size: nat, found: int): seq<Step> {
    [Begin(0, client, size, found)]
    + ([Enqueue(0)] + if a.ChatUnicast? && found > -1 then [Enqueue(0)] else [])
  }

  lemma StepFirst(s: Server, step: Step, rest: seq<Step>, z: Server)
    requires Ready(s, step) && Leads(Next(s, step), rest, z)
    ensures Leads(s, [step] + rest, z)
  {
    assert ([step] + rest)[1..] == rest;
  }

  /** The handler posts two packets to forward a whisper and one otherwise. */
  lemma PostsOfOneCall(s: Server, a: Action, client: nat, size: nat, found: int)
    requires s.memory.Valid() && Ready(s, Begin(0, client, size, found))
    ensures var begun := Start(s, 0, a, client, size, found);
            && Ready(begun, Enqueue(0))
            && (Put(begun, 0).workers[0].Idle? <==> !(a.ChatUnicast? && found > -1))
            && (!Put(begun, 0).workers[0].Idle? ==> Ready(Put(begun, 0), Enqueue(0)))
  {
  }

  lemma HandledIsARun(s: Server, a: Action, client: nat, size: nat, found: int)
    requires s.memory.Valid() && Ready(s, Begin(0, client, size, found))
    requires ActionOf(Kind(s.memory.received[client])) == Some(a)
    ensures Leads(s, HandlerSteps(a, client, size, found), Handled(s, a, client, size, found))
  {
    var begun := Start(s, 0, a, client, size, found);
    var z := Handled(s, a, client, size, found);
    assert Next(s, Begin(0, client, size, found)) == begun;
    PostsOfOneCall(s, a, client, size, found);
    var rest := PostsAreARun(begun, z);
    StepFirst(begun, Enqueue(0), rest, z);
    StepFirst(s, Begin(0, client, size, found), [Enqueue(0)] + rest, z);
  }

  /** What worker 0 does after its first enqueue. */
  lemma PostsAreARun(begun: Server, z: Server) returns (rest: seq<Step>)
    requires Ready(begun, Enqueue(0))
    requires var once := Put(begun, 0);
             if once.workers[0].Idle? then z == once
             else Ready(once, Enqueue(0)) && z == Put(once, 0)
    ensures rest == if Put(begun, 0).workers[0].Idle? then [] else [Enqueue(0)]
    ensures Leads(Put(begun, 0), rest, z)
  {
    var once := Put(begun, 0);
    rest := if once.workers[0].Idle? then [] else [Enqueue(0)];
    if !once.workers[0].Idle? {
      var none: seq<Step> := [];
      assert Leads(z, none, z);
      StepFirst(once, Enqueue(0), none, z);
      assert [Enqueue(0)] + none == rest;
    }
  }

  /** A buffer just filled reads back whole. */
  lemma ReadBack(m: Memory, bytes: seq<Byte>)
    ensures m.Alloc(bytes).Readable(Heap(m.next), |bytes|)
    ensures m.Alloc(bytes).Read(Heap(m.next), |bytes|) == bytes
  {
  }

  lemma PutLast(s: Server, info: PacketInfo, post: Post)
    requires s.workers == [Posting([info], [post])] && s.memory.Readable(info.data, info.dataSize)
    ensures Put(s, 0) ==
            s.(memory := s.memory.Alloc(s.memory.Read(info.data, info.dataSize)),
               queue := s.queue + [info.(data := Heap(s.memory.next))],
               workers := [Idle], posted := s.posted + [post])
  {
  }

  /** `EnqueuePacket` as a function. */
  ghost function Enqueued(s: Server, info: PacketInfo, action: Action): Server
    requires s.memory.Readable(info.data, info.dataSize)
  {
    s.(memory := s.memory.Alloc(s.memory.Read(info.data, info.dataSize)),
       queue := s.queue + [info.(data := Heap(s.memory.next))],
       posted := s.posted + [Post(action, MessageOf(s.memory, info))])
  }

  /** Two buffers, one of them in the queue. */
  lemma HandledOnce(s: Server, a: Action, client: nat, size: nat, found: int)
    requires s.memory.Valid() && Ready(s, Begin(0, client, size, found)) && s.workers == [Idle]
    requires |Posts(a, client, s.memory.received[client][..size], found)| == 1
    ensures var packet := s.memory.received[client];
            var post := Posts(a, client, packet[..size], found)[0];
            var bytes := post.message.bytes;
            var info := InfoOf(post, s.memory.next);
            var copying := s.(memory := s.memory.Alloc(bytes), calls := s.calls + [Call(client, a, packet, size, found)],
                              users := s.users[client := Moved(s.users[client], a, RoomNo(packet), found)]);
            && copying.memory.Readable(info.data, info.dataSize)
            && Handled(s, a, client, size, found) == Enqueued(copying, info, a)
  {
    var post := Posts(a, client, s.memory.received[client][..size], found)[0];
    ReadBack(s.memory, post.message.bytes);
    var begun := Start(s, 0, a, client, size, found);
    assert Posts(a, client, s.memory.received[client][..size], found) == [post];
    assert InfosOf([post], s.memory.next) == [InfoOf(post, s.memory.next)];
    assert begun.workers == [Posting([InfoOf(post, s.memory.next)], [post])];
    PutLast(begun, InfoOf(post, s.memory.next), post);
  }

  /** Three buffers, two of them in the queue: the sender's and the receiver's. */
  lemma HandledTwice(s: Server, client: nat, size: nat, found: int)
    requires s.memory.Valid() && Ready(s, Begin(0, client, size, found)) && s.workers == [Idle]
    requires found > -1
    ensures var bytes := s.memory.received[client][..size];
            var copied := PacketInfo(client, size, Uni, false, Heap(s.memory.next));
            var copying := s.(memory := s.memory.Alloc(bytes),
                              calls := s.calls + [Call(client, ChatUnicast, s.memory.received[client], size, found)]);
            && copying.memory.Readable(copied.data, size)
            && Enqueued(copying, copied, ChatUnicast).memory.Readable(copied.data, size)
            && Handled(s, ChatUnicast, client, size, found) ==
               Enqueued(Enqueued(copying, copied, ChatUnicast), copied.(clientIndex := found), ChatUnicast)
  {
    var bytes := s.memory.received[client][..size];
    var posts := Posts(ChatUnicast, client, bytes, found);
    ReadBack(s.memory, bytes);
    assert InfosOf(posts, s.memory.next) == [InfoOf(posts[0], s.memory.next), InfoOf(posts[1], s.memory.next)];
  }

  /** A pass of the packet thread's loop with no other thread in between. */
  ghost function Pass(s: Server): Server
    requires CanPass(s)
  {
    var taken := Take(s);
    if taken.thread.Sending? then Send(taken) else taken
  }

  ghost predicate CanPass(s: Server) {
    && s.thread.AtDequeue? && Ready(s, Advance)
    && (Take(s).thread.Sending? ==> Ready(Take(s), Advance))
  }

  /** A pass is possible in every reachable state and is one or two steps of the machine. */
  lemma PassIsARun(s0: Server, s: Server)
    requires Inv(s0, s) && s.thread.AtDequeue?
    ensures CanPass(s) && Inv(s0, Pass(s))
    ensures Leads(s, if Take(s).thread.Sending? then [Advance, Advance] else [Advance], Pass(s))
  {
    InvIsReady(s0, s);
    NextInv(s0, s, Advance);
    var taken := Take(s);
    if taken.thread.Sending? {
      InvIsReady(s0, taken);
      NextInv(s0, taken, Advance);
      assert [Advance, Advance][1..] == [Advance] && [Advance][1..] == [];
      assert Leads(Send(taken), [], Pass(s));
      assert Leads(taken, [Advance], Pass(s));
    } else {
      assert [Advance][1..] == [];
      assert Leads(taken, [], Pass(s));
    }
  }

  class PacketManager {
    const mClientMgr: ChatClientManager
    var memory: Memory
    var mPacketQueue: seq<PacketInfo>
    var mbIsPacketRun: bool
    ghost var calls: seq<Call>
    ghost var posted: seq<Post>
    ghost var dispatched: seq<Message>
    ghost var audiences: seq<seq<User>>
    ghost var released: seq<nat>

    /** The state of the machine, given where the threads are. */
    ghost function State(thread: Pc, workers: seq<Worker>): Server
      reads this, mClientMgr
    {
      Server(memory, mClientMgr.users, mPacketQueue, mbIsPacketRun, thread, workers,
             calls, posted, dispatched, audiences, mClientMgr.sent, released)
    }

    /** Between two calls of handlers. */
    ghost function Between(): Server
      reads this, mClientMgr
    {
      State(AtTest, [Idle])
    }

    /** What a handler may rely on: `info` is what `OnReceive` builds. */
    ghost predicate Accepts(info: PacketInfo, found: int)
      reads this, mClientMgr
    {
      && memory.Valid() && Ready(Between(), Begin(0, info.clientIndex, info.dataSize, found))
      && info == PacketInfo(info.clientIndex, info.dataSize, Uninitialized, false, Received(info.clientIndex))
    }

    constructor (clients: ChatClientManager, m: Memory)
      requires m.Valid() && |m.received| == |clients.users| && clients.sent == []
      ensures mClientMgr == clients && memory == m && Initial(Between())
    {
      mClientMgr, memory, mPacketQueue, mbIsPacketRun := clients, m, [], true;
      calls, posted, dispatched, audiences, released := [], [], [], [], [];
    }

    method New(bytes: seq<Byte>) returns (p: Ptr)
      modifies this`memory
      ensures p == Heap(old(memory).next) && memory == old(memory).Alloc(bytes)
      ensures memory.Readable(p, |bytes|) && memory.Read(p, |bytes|) == bytes
    {
      ReadBack(memory, bytes);
      p := Heap(memory.next);
      memory := memory.Alloc(bytes);
    }

    /** The copy constructor of `PacketInfo`. */
    method Copied(origin: PacketInfo) returns (copy: PacketInfo)
      requires memory.Readable(origin.data, origin.dataSize)
      modifies this`memory
      ensures copy == origin.(data := Heap(old(memory).next))
      ensures memory == old(memory).Alloc(old(memory).Read(origin.data, origin.dataSize))
      ensures memory.Readable(copy.data, copy.dataSize)
              && MessageOf(memory, copy) == old(MessageOf(memory, origin))
    {
      var data := New(memory.Read(origin.data, origin.dataSize));
      copy := PacketInfo(origin.clientIndex, origin.dataSize, origin.sendType, origin.isClose, data);
    }

    method Release(info: PacketInfo)
      requires info.data.Heap? && info.data.buffer in memory.live
      modifies this`memory, this`released
      ensures memory == old(memory).Free(info.data.buffer)
      ensures released == old(released) + [info.data.buffer]
    {
      memory := memory.Free(info.data.buffer);
      released := released + [info.data.buffer];
    }

    method EnqueuePacket(info: PacketInfo, ghost action: Action)
      requires memory.Readable(info.data, info.dataSize)
      modifies this`memory, this`mPacketQueue, this`posted
      ensures Between() == Enqueued(old(Between()), info, action)
    {
      posted := posted + [Post(action, MessageOf(memory, info))];
      var copy := Copied(info);
      mPacketQueue := mPacketQueue + [copy];
    }

    method DequeuePacket() returns (packet: PacketInfo)
      requires mPacketQueue != [] ==> memory.Readable(mPacketQueue[0].data, mPacketQueue[0].dataSize)
      modifies this`memory, this`mPacketQueue
      ensures old(mPacketQueue) == [] ==>
                packet == PacketInfo(0, 0, Uninitialized, false, Null)
                && memory == old(memory) && mPacketQueue == []
      ensures old(mPacketQueue) != [] ==>
                var head := old(mPacketQueue[0]);
                && packet == head.(data := Heap(old(memory).next))
                && memory == old(memory).Alloc(old(memory).Read(head.data, head.dataSize))
                && mPacketQueue == old(mPacketQueue)[1..]
    {
      if mPacketQueue == [] {
        return PacketInfo(0, 0, Uninitialized, false, Null);
      }
      packet := Copied(mPacketQueue[0]);
      mPacketQueue := mPacketQueue[1..];
    }

    method ProcessServerEnter(info_: PacketInfo, existIndex: int)
      requires Accepts(info_, existIndex)
      modifies this, mClientMgr
      ensures Between() == Handled(old(Between()), ServerEnter, info_.clientIndex, info_.dataSize, existIndex)
    {
      HandledOnce(Between(), ServerEnter, info_.clientIndex, info_.dataSize, existIndex);
      var info := info_;
      calls := calls + [Call(info_.clientIndex, ServerEnter, memory.received[info_.clientIndex],
                             info_.dataSize, existIndex)];
      if existIndex < 0 {
        mClientMgr.users :=
          mClientMgr.users[info.clientIndex := mClientMgr.users[info.clientIndex].SetNickname()];
      }
      var text := if existIndex < 0 then NICKNAME_CREATED else NICKNAME_ALREADY_EXIST;
      var data := New(ServerMessage(text));
      info := info.(data := data, dataSize := SERVER_MESSAGE_PACKET_LENGTH, sendType := Uni);
      EnqueuePacket(info, ServerEnter);
    }

    method ProcessChatUnicast(info: PacketInfo, findIndex: int)
      requires Accepts(info, findIndex)
      modifies this, mClientMgr
      ensures Between() == Handled(old(Between()), ChatUnicast, info.clientIndex, info.dataSize, findIndex)
    {
      if findIndex > -1 {
        ForwardToBoth(info, findIndex);
      } else {
        ReportUnknown(info, findIndex);
      }
    }

    /** The branch for a receiver that exists. */
    method ForwardToBoth(info_: PacketInfo, findIndex: int)
      requires Accepts(info_, findIndex) && findIndex > -1
      modifies this, mClientMgr
      ensures Between() == Handled(old(Between()), ChatUnicast, info_.clientIndex, info_.dataSize, findIndex)
    {
      HandledTwice(Between(), info_.clientIndex, info_.dataSize, findIndex);
      calls := calls + [Call(info_.clientIndex, ChatUnicast, memory.received[info_.clientIndex],
                             info_.dataSize, findIndex)];
      var copied := Copied(info_.(sendType := Uni));
      EnqueuePacket(copied, ChatUnicast);
      copied := copied.(clientIndex := findIndex);
      EnqueuePacket(copied, ChatUnicast);
    }

    /** The branch for a receiver that does not. */
    method ReportUnknown(info_: PacketInfo, findIndex: int)
      requires Accepts(info_, findIndex) && findIndex <= -1
      modifies this, mClientMgr
      ensures Between() == Handled(old(Between()), ChatUnicast, info_.clientIndex, info_.dataSize, findIndex)
    {
      HandledOnce(Between(), ChatUnicast, info_.clientIndex, info_.dataSize, findIndex);
      calls := calls + [Call(info_.clientIndex, ChatUnicast, memory.received[info_.clientIndex],
                             info_.dataSize, findIndex)];
      var data := New(ServerMessage(NICKNAME_NOT_FOUND));
      var info := info_.(sendType := Uni, data := data, dataSize := SERVER_MESSAGE_PACKET_LENGTH);
      EnqueuePacket(info, ChatUnicast);
    }

    method ProcessServerExit(info: PacketInfo)
      requires Accepts(info, -1)
      modifies this, mClientMgr
      ensures Between() == Handled(old(Between()), ServerExit, info.clientIndex, info.dataSize, -1)
    {
      HandledOnce(Between(), ServerExit, info.clientIndex, info.dataSize, -1);
      calls := calls + [Call(info.clientIndex, ServerExit, memory.received[info.clientIndex], info.dataSize, -1)];
      var copied := Copied(info);
      copied := copied.(sendType := Multi, isClose := true);
      EnqueuePacket(copied, ServerExit);
    }

    method ProcessRoomEnter(info: PacketInfo)
      requires Accepts(info, -1)
      modifies this, mClientMgr
      ensures Between() == Handled(old(Between()), RoomEnter, info.clientIndex, info.dataSize, -1)
    {
      HandledOnce(Between(), RoomEnter, info.clientIndex, info.dataSize, -1);
      calls := calls + [Call(info.clientIndex, RoomEnter, memory.received[info.clientIndex], info.dataSize, -1)];
      var number := RoomNo(memory.received[info.clientIndex]);
      mClientMgr.users :=
        mClientMgr.users[info.clientIndex := mClientMgr.users[info.clientIndex].EnterRoom(number)];
      var copied := Copied(info);
      copied := copied.(sendType := Multi);
      EnqueuePacket(copied, RoomEnter);
    }

    method ProcessRoomExit(info: PacketInfo)
      requires Accepts(info, -1)
      modifies this, mClientMgr
      ensures Between() == Handled(old(Between()), RoomExit, info.clientIndex, info.dataSize, -1)
    {
      HandledOnce(Between(), RoomExit, info.clientIndex, info.dataSize, -1);
      calls := calls + [Call(info.clientIndex, RoomExit, memory.received[info.clientIndex], info.dataSize, -1)];
      mClientMgr.users :=
        mClientMgr.users[info.clientIndex := mClientMgr.users[info.clientIndex].ExitRoom()];
      var copied := Copied(info);
      copied := copied.(sendType := Multi);
      EnqueuePacket(copied, RoomExit);
    }

    method ProcessChatBroadcast(info: PacketInfo)
      requires Accepts(info, -1)
      modifies this, mClientMgr
      ensures Between() == Handled(old(Between()), ChatBroadcast, info.clientIndex, info.dataSize, -1)
    {
      HandledOnce(Between(), ChatBroadcast, info.clientIndex, info.dataSize, -1);
      calls := calls + [Call(info.clientIndex, ChatBroadcast, memory.received[info.clientIndex], info.dataSize, -1)];
      var copied := Copied(info);
      copied := copied.(sendType := Broad);
      EnqueuePacket(copied, ChatBroadcast);
    }

    method ProcessChatMulticast(info: PacketInfo)
      requires Accepts(info, -1)
      modifies this, mClientMgr
      ensures Between() == Handled(old(Between()), ChatMulticast, info.clientIndex, info.dataSize, -1)
    {
      HandledOnce(Between(), ChatMulticast, info.clientIndex, info.dataSize, -1);
      calls := calls + [Call(info.clientIndex, ChatMulticast, memory.received[info.clientIndex], info.dataSize, -1)];
      var copied := Copied(info);
      copied := copied.(sendType := Multi);
      EnqueuePacket(copied, ChatMulticast);
    }

    /** `ClassifyPacket` of what `OnReceive` builds. `found` is what `FindNickname` answers. */
    method OnReceive(client: nat, size: nat, found: int)
      requires memory.Valid() && Ready(Between(), Begin(0, client, size, found))
      modifies this, mClientMgr
      ensures match ActionOf(old(Kind(memory.received[client]))) {
                case None => Between() == old(Between())
                case Some(a) =>
                  Between() == Handled(old(Between()), a, client, size,
                                       if a.ServerEnter? || a.ChatUnicast? then found else -1)
              }
    {
      var info := PacketInfo(client, size, Uninitialized, false, Received(client));
      match ActionOf(Kind(memory.received[client])) {
        case None =>
        case Some(ServerEnter) => ProcessServerEnter(info, found);
        case Some(ServerExit) => ProcessServerExit(info);
        case Some(RoomEnter) => ProcessRoomEnter(info);
        case Some(RoomExit) => ProcessRoomExit(info);
        case Some(ChatBroadcast) => ProcessChatBroadcast(info);
        case Some(ChatMulticast) => ProcessChatMulticast(info);
        case Some(ChatUnicast) => ProcessChatUnicast(info, found);
      }
    }

    /** One pass of `Run`, the flag being up and the worker threads anywhere. */
    method RunOnce(ghost workers: seq<Worker>)
      requires CanPass(State(AtDequeue, workers))
      modifies this, mClientMgr
      ensures State(AtTest, workers) == Pass(old(State(AtDequeue, workers)))
    {
      ghost var taken := Take(State(AtDequeue, workers));
      var packet := DequeuePacket();
      if packet.dataSize != 0 {
        assert State(Sending(packet), workers) == taken;
        ghost var message := MessageOf(memory, packet);
        match packet.sendType {
          case Broad => mClientMgr.BroadCast(packet, memory);
          case Multi => mClientMgr.MultiCast(packet, memory);
          case Uni => mClientMgr.UniCast(packet, memory);
          case Uninitialized =>
        }
        assert mClientMgr.sent == taken.sent + Cast(taken.users, message);
        dispatched := dispatched + [message];
        audiences := audiences + [mClientMgr.users];
        Release(packet);
      }
    }
  }
}
