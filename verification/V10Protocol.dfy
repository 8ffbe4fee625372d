/** PacketManager.hpp of version 1.0 as a step machine: any number of worker threads in the
    handlers and one packet thread in `Run`, in any order. A handler looks everything up and
    makes its own copy in its first step, then enqueues its packets one step each; the queue's
    lock makes each enqueue one step. Copies that C++ may elide are elided. */
module V10Protocol {
  import opened Bytes
  import opened Options
  import opened Sequences
  import opened V10Memory
  import opened V10Clients

  /** A message put in the queue, and the handler that put it there. */
  datatype Post = Post(action: Action, message: Message)

  /** A call of the handler of `action` for `size` bytes of a packet of `client`; `found` is what
      the search for a nickname answers. */
  datatype Call = Call(client: nat, action: Action, packet: seq<Byte>, size: nat, found: int)

  /** Between two enqueues a worker keeps the packets it still has to enqueue; `due` is history:
      what they were when the handler began. */
  datatype Worker = Idle | Posting(infos: seq<PacketInfo>, due: seq<Post>)

  /** Where the packet thread is. */
  datatype Pc = AtTest | AtDequeue | Sending(info: PacketInfo) | Exited

  /** From `calls` on, history: handler calls begun, messages enqueued, messages as they were
      sent, the users at each of these times, sends, buffers released. */
  datatype Server = Server(
    memory: Memory, users: seq<User>, queue: seq<PacketInfo>, running: bool,
    thread: Pc, workers: seq<Worker>,
    calls: seq<Call>, posted: seq<Post>, dispatched: seq<Message>, audiences: seq<seq<User>>,
    sent: seq<Delivery>, released: seq<nat>)

  datatype Step =
    | Receive(client: nat, bytes: seq<Byte>)
    | Begin(worker: nat, client: nat, size: nat, found: int)
    | Enqueue(worker: nat)
    | Advance
    | Close
    | Connect(client: nat, connected: bool)

  /** What the handler of `a` enqueues for a packet of `client`. */
  function Posts(a: Action, client: nat, bytes: seq<Byte>, found: int): (posts: seq<Post>)
    ensures 1 <= |posts| <= 2
    ensures forall k :: 0 <= k < |posts| ==> posts[k].message.bytes == posts[0].message.bytes
  {
    match a
    case ServerEnter =>
      var text := if found < 0 then NICKNAME_CREATED else NICKNAME_ALREADY_EXIST;
      [Post(a, Message(client, Uni, false, ServerMessage(text)))]
    case ChatUnicast =>
      if found > -1 then
        [Post(a, Message(client, Uni, false, bytes)), Post(a, Message(found, Uni, false, bytes))]
      else
        [Post(a, Message(client, Uni, false, ServerMessage(NICKNAME_NOT_FOUND)))]
    case ServerExit => [Post(a, Message(client, Multi, true, bytes))]
    case RoomEnter => [Post(a, Message(client, Multi, false, bytes))]
    case RoomExit => [Post(a, Message(client, Multi, false, bytes))]
    case ChatBroadcast => [Post(a, Message(client, Broad, false, bytes))]
    case ChatMulticast => [Post(a, Message(client, Multi, false, bytes))]
  }

  /** What the handler does to its user. */
  function Moved(user: User, a: Action, number: int, found: int): User {
    match a
    case ServerEnter => if found < 0 then user.SetNickname() else user
    case RoomEnter => user.EnterRoom(number)
    case RoomExit => user.ExitRoom()
    case _ => user
  }

  function InfoOf(post: Post, b: nat): PacketInfo {
    var Message(client, sendType, isClose, bytes) := post.message;
    PacketInfo(client, |bytes|, sendType, isClose, Heap(b))
  }

  function InfosOf(posts: seq<Post>, b: nat): (infos: seq<PacketInfo>)
    ensures |infos| == |posts|
  {
    seq(|posts|, k requires 0 <= k < |posts| => InfoOf(posts[k], b))
  }

  predicate Ready(s: Server, step: Step) {
    match step
    case Receive(client, bytes) =>
      client < |s.memory.received| && |bytes| <= |s.memory.received[client]|
    case Begin(w, client, size, found) =>
      && w < |s.workers| && s.workers[w].Idle?
      && client < |s.users| == |s.memory.received| && found < |s.users|
      && |s.memory.received[client]| == MAX_SOCKBUF && size <= MAX_SOCKBUF
    case Enqueue(w) =>
      && w < |s.workers| && s.workers[w].Posting?
      && |s.workers[w].infos| == |s.workers[w].due| > 0
      && s.memory.Readable(s.workers[w].infos[0].data, s.workers[w].infos[0].dataSize)
    case Advance =>
      (match s.thread
      case AtTest => true
      case AtDequeue => s.queue != [] ==> s.memory.Readable(s.queue[0].data, s.queue[0].dataSize)
      case Sending(info) =>
        && s.memory.Readable(info.data, info.dataSize) && info.data.Heap?
        && info.clientIndex < |s.users|
      case Exited => false)
    case Close => true
    case Connect(client, _) => client < |s.users|
  }

  /** The first step of the handler of `a`. */
  function Start(s: Server, w: nat, a: Action, client: nat, size: nat, found: int): Server
    requires Ready(s, Begin(w, client, size, found))
  {
    var packet := s.memory.received[client];
    var posts := Posts(a, client, packet[..size], found);
    s.(memory := s.memory.Alloc(posts[0].message.bytes),
       users := s.users[client := Moved(s.users[client], a, RoomNo(packet), found)],
       workers := s.workers[w := Posting(InfosOf(posts, s.memory.next), posts)],
       calls := s.calls + [Call(client, a, packet, size, found)])
  }

  /** `EnqueuePacket`: the queue's element is a copy with a buffer of its own. */
  function Put(s: Server, w: nat): Server
    requires Ready(s, Enqueue(w))
  {
    var Posting(infos, due) := s.workers[w];
    var rest := if |infos| == 1 then Idle else Posting(infos[1..], due[1..]);
    s.(memory := s.memory.Alloc(s.memory.Read(infos[0].data, infos[0].dataSize)),
       queue := s.queue + [infos[0].(data := Heap(s.memory.next))],
       workers := s.workers[w := rest],
       posted := s.posted + [due[0]])
  }

  /** `DequeuePacket`: the packet returned is a copy, and popping the queue's element leaves its
      buffer behind. A packet of size zero is taken for the empty queue and not released. */
  function Take(s: Server): Server
    requires Ready(s, Advance) && s.thread.AtDequeue?
  {
    if s.queue == [] then s.(thread := AtTest)
    else
      var info := s.queue[0];
      var copy := info.(data := Heap(s.memory.next));
      s.(memory := s.memory.Alloc(s.memory.Read(info.data, info.dataSize)),
         queue := s.queue[1..],
         thread := if info.dataSize == 0 then AtTest else Sending(copy))
  }

  /** Sends by type and releases. */
  function Send(s: Server): Server
    requires Ready(s, Advance) && s.thread.Sending?
  {
    var info := s.thread.info;
    var message := MessageOf(s.memory, info);
    s.(memory := s.memory.Free(info.data.buffer), thread := AtTest,
       dispatched := s.dispatched + [message],
       audiences := s.audiences + [s.users],
       sent := s.sent + Cast(s.users, message),
       released := s.released + [info.data.buffer])
  }

  function Next(s: Server, step: Step): Server
    requires Ready(s, step)
  {
    match step
    case Receive(client, bytes) =>
      var before := s.memory.received[client];
      s.(memory := s.memory.(received := s.memory.received[client := bytes + before[|bytes|..]]))
    case Begin(w, client, size, found) =>
      (match ActionOf(Kind(s.memory.received[client]))
       case None => s
       case Some(a) => Start(s, w, a, client, size, found))
    case Enqueue(w) => Put(s, w)
    case Advance =>
      (match s.thread
       case AtTest => s.(thread := if s.running then AtDequeue else Exited)
       case AtDequeue => Take(s)
       case Sending(_) => Send(s))
    case Close => s.(running := false)
    case Connect(client, connected) =>
      s.(users := s.users[client := s.users[client].(connected := connected)])
  }

  ghost predicate Leads(s: Server, steps: seq<Step>, z: Server)
    decreases |steps|
  {
    if steps == [] then s == z
    else Ready(s, steps[0]) && Leads(Next(s, steps[0]), steps[1..], z)
  }

  /** A server before its threads run; whatever else is allocated then belongs to others. */
  ghost predicate Initial(s: Server) {
    && s.memory.Valid() && |s.memory.received| == |s.users|
    && s.queue == [] && s.thread == AtTest
    && (forall w :: 0 <= w < |s.workers| ==> s.workers[w] == Idle)
    && s.calls == [] && s.posted == [] && s.dispatched == [] && s.audiences == []
    && s.sent == [] && s.released == []
  }

  ghost predicate Reaches(s: Server, z: Server) {
    Initial(s) && exists steps :: Leads(s, steps, z)
  }

  // ---- Ownership ----

  /** Who may hold a packet. */
  datatype Owner = Queued(i: nat) | Held | Temp(w: nat)

  function InfoAt(s: Server, o: Owner): Option<PacketInfo> {
    match o
    case Queued(i) => if i < |s.queue| then Some(s.queue[i]) else None
    case Held => if s.thread.Sending? then Some(s.thread.info) else None
    case Temp(w) =>
      if w < |s.workers| && s.workers[w].Posting? && s.workers[w].infos != []
      then Some(s.workers[w].infos[0]) else None
  }

  ghost predicate Owns(s: Server, o: Owner, b: nat) {
    InfoAt(s, o).Some? && InfoAt(s, o).value.data == Heap(b)
  }

  /** Every packet has a live heap buffer of its own, allocated after the start. */
  ghost predicate Ownership(s0: Server, s: Server) {
    && (forall o :: InfoAt(s, o).Some? ==>
          var data := InfoAt(s, o).value.data;
          data.Heap? && data.buffer in s.memory.live && s0.memory.next <= data.buffer)
    && (forall o, p, b :: Owns(s, o, b) && Owns(s, p, b) ==> o == p)
  }

  // ---- Contents ----

  function Popped(s: Server): int {
    |s.posted| - |s.queue|
  }

  ghost predicate WorkerOk(m: Memory, worker: Worker, users: nat) {
    worker.Posting? ==>
      && 0 < |worker.infos| == |worker.due|
      && forall k :: 0 <= k < |worker.infos| ==>
           && worker.infos[k].data == worker.infos[0].data
           && Carries(m, worker.infos[k], worker.due[k].message)
           && PostOk(worker.due[k], users)
  }

  /** The send type and the close flag of a message are those of its handler. */
  ghost predicate PostOk(post: Post, users: nat) {
    && post.message.client < users
    && post.message.isClose == post.action.ServerExit?
    && post.message.sendType == match post.action {
         case ServerEnter => Uni
         case ChatUnicast => Uni
         case ChatBroadcast => Broad
         case _ => Multi
       }
  }

  ghost predicate WorkersOk(s: Server) {
    forall w :: 0 <= w < |s.workers| ==> WorkerOk(s.memory, s.workers[w], |s.users|)
  }

  ghost predicate QueueOk(s: Server) {
    && Popped(s) >= 0
    && (forall i :: 0 <= i < |s.posted| ==> PostOk(s.posted[i], |s.users|))
    && forall i :: 0 <= i < |s.queue| ==>
         Carries(s.memory, s.queue[i], s.posted[Popped(s) + i].message)
  }

  ghost predicate ThreadOk(s: Server) {
    s.thread.Sending? ==>
      && 0 < Popped(s) <= |s.posted|
      && Carries(s.memory, s.thread.info, s.posted[Popped(s) - 1].message)
      && s.posted[Popped(s) - 1].message.bytes != []
  }

  /** The messages with contents among these. */
  function Kept(posts: seq<Post>): (messages: seq<Message>)
    ensures |messages| <= |posts|
  {
    if posts == [] then []
    else
      var message := posts[|posts| - 1].message;
      Kept(posts[..|posts| - 1]) + if message.bytes == [] then [] else [message]
  }

  lemma KeptOneMore(posts: seq<Post>, k: nat)
    requires k < |posts|
    ensures Kept(posts[..k + 1]) ==
            Kept(posts[..k]) + if posts[k].message.bytes == [] then [] else [posts[k].message]
  {
    assert posts[..k + 1][..k] == posts[..k];
  }

  /** What the packet thread holds. */
  function InHand(s: Server): seq<Message> {
    if s.thread.Sending? && s.memory.Readable(s.thread.info.data, s.thread.info.dataSize)
    then [MessageOf(s.memory, s.thread.info)]
    else []
  }

  ghost predicate TraceOk(s: Server) {
    && 0 <= Popped(s) <= |s.posted|
    && s.dispatched + InHand(s) == Kept(s.posted[..Popped(s)])
  }

  /** What messages sent to these users, one after the other, amount to. */
  function Casts(audiences: seq<seq<User>>, messages: seq<Message>): seq<Delivery>
    requires |audiences| == |messages|
    requires forall k :: 0 <= k < |messages| ==> messages[k].client < |audiences[k]|
  {
    if messages == [] then []
    else
      var n := |messages| - 1;
      Casts(audiences[..n], messages[..n]) + Cast(audiences[n], messages[n])
  }

  ghost predicate SendsOk(s: Server) {
    && |s.audiences| == |s.dispatched|
    && (forall k :: 0 <= k < |s.dispatched| ==> s.dispatched[k].client < |s.audiences[k]|)
    && s.sent == Casts(s.audiences, s.dispatched)
  }

  lemma SendKeepsSends(s: Server)
    requires SendsOk(s) && Ready(s, Advance) && s.thread.Sending?
    ensures SendsOk(Send(s))
  {
    var z := Send(s);
    var n := |s.dispatched|;
    assert z.dispatched[..n] == s.dispatched && z.audiences[..n] == s.audiences;
  }

  ghost predicate MemoryOk(s0: Server, s: Server) {
    && s.memory.Valid() && |s.memory.received| == |s.users| == |s0.users|
    && s0.memory.next <= s.memory.next
    && (forall b :: b < s0.memory.next ==>
          (b in s.memory.live <==> b in s0.memory.live)
          && (b in s.memory.live ==> s.memory.live[b] == s0.memory.live[b]))
  }

  ghost predicate ReleasesOk(s0: Server, s: Server) {
    && (forall k :: 0 <= k < |s.released| ==>
          s.released[k] !in s.memory.live && s0.memory.next <= s.released[k] < s.memory.next)
    && Distinct(s.released)
  }

  // ---- Accounting ----

  /** Live buffers: the initial ones, one per handler call, one per dequeue and one more per
      dequeued packet without contents, one per queued packet, one in the thread's hand. */
  ghost predicate Accounted(s0: Server, s: Server) {
    && 0 <= Popped(s) <= |s.posted|
    && |s.memory.live| == |s0.memory.live| + |s.calls|
                          + Popped(s) + (Popped(s) - |Kept(s.posted[..Popped(s)])|)
                          + |s.queue| + (if s.thread.Sending? then 1 else 0)
  }

  ghost predicate CallsOk(s: Server) {
    s.calls == [] ==>
      s.posted == [] && forall w :: 0 <= w < |s.workers| ==> s.workers[w] == Idle
  }

  ghost predicate Contents(s: Server) {
    WorkersOk(s) && QueueOk(s) && ThreadOk(s)
  }

  ghost predicate Books(s0: Server, s: Server) {
    MemoryOk(s0, s) && ReleasesOk(s0, s) && Accounted(s0, s) && CallsOk(s)
  }

  ghost predicate Inv(s0: Server, s: Server) {
    Ownership(s0, s) && Contents(s) && TraceOk(s) && SendsOk(s) && Books(s0, s)
  }

  lemma InitialInv(s: Server)
    requires Initial(s)
    ensures Inv(s, s)
  {
  }

  function Shifted(o: Owner, n: nat): Owner {
    if o.Queued? then Queued(o.i + n) else o
  }

  /** Ownership survives an allocation that only `newcomer` gets, the queue moving up by `n`. */
  lemma AllocKeepsOwnership(s0: Server, s: Server, z: Server, newcomer: Owner, n: nat)
    requires Ownership(s0, s) && s.memory.Valid() && s0.memory.next <= s.memory.next
    requires z.memory.live.Keys == s.memory.live.Keys + {s.memory.next}
    requires InfoAt(z, newcomer).Some? ==> InfoAt(z, newcomer).value.data == Heap(s.memory.next)
    requires forall o :: InfoAt(z, o).Some? && o != newcomer ==>
               InfoAt(s, Shifted(o, n)).Some?
               && InfoAt(z, o).value.data == InfoAt(s, Shifted(o, n)).value.data
    ensures Ownership(s0, z)
  {
    forall o, p, b | Owns(z, o, b) && Owns(z, p, b)
      ensures o == p
    {
      if o != newcomer && p != newcomer {
        assert Owns(s, Shifted(o, n), b) && Owns(s, Shifted(p, n), b);
      }
    }
  }

  lemma StartOwnership(s0: Server, s: Server, w: nat, a: Action, client: nat, size: nat, found: int)
    requires Ownership(s0, s) && MemoryOk(s0, s)
    requires Ready(s, Begin(w, client, size, found))
    ensures Ownership(s0, Start(s, w, a, client, size, found))
  {
    AllocKeepsOwnership(s0, s, Start(s, w, a, client, size, found), Temp(w), 0);
  }

  lemma PutOwnership(s0: Server, s: Server, w: nat)
    requires Ownership(s0, s) && MemoryOk(s0, s) && WorkersOk(s)
    requires Ready(s, Enqueue(w))
    ensures Ownership(s0, Put(s, w))
  {
    assert WorkerOk(s.memory, s.workers[w], |s.users|);
    AllocKeepsOwnership(s0, s, Put(s, w), Queued(|s.queue|), 0);
  }

  lemma TakeOwnership(s0: Server, s: Server)
    requires Ownership(s0, s) && MemoryOk(s0, s)
    requires Ready(s, Advance) && s.thread.AtDequeue? && s.queue != []
    ensures Ownership(s0, Take(s))
  {
    AllocKeepsOwnership(s0, s, Take(s), Held, 1);
  }

  lemma SendOwnership(s0: Server, s: Server)
    requires Ownership(s0, s)
    requires Ready(s, Advance) && s.thread.Sending?
    ensures Ownership(s0, Send(s))
  {
    var z := Send(s);
    var b := s.thread.info.data.buffer;
    assert Owns(s, Held, b);
    forall o | InfoAt(z, o).Some?
      ensures InfoAt(z, o) == InfoAt(s, o) && !Owns(s, o, b)
    {
    }
    forall o, p, c | Owns(z, o, c) && Owns(z, p, c)
      ensures o == p
    {
      assert Owns(s, o, c) && Owns(s, p, c);
    }
  }

  /** Allocating leaves every worker's packets as they were. */
  lemma AllocKeepsWorkers(m: Memory, bytes: seq<Byte>, workers: seq<Worker>, users: nat)
    requires m.Valid()
    requires forall v :: 0 <= v < |workers| ==> WorkerOk(m, workers[v], users)
    ensures forall v :: 0 <= v < |workers| ==> WorkerOk(m.Alloc(bytes), workers[v], users)
  {
    forall v | 0 <= v < |workers|
      ensures WorkerOk(m.Alloc(bytes), workers[v], users)
    {
      assert WorkerOk(m, workers[v], users);
    }
  }

  /** Copying a packet copies its message. */
  lemma CopyCarries(m: Memory, info: PacketInfo, message: Message)
    requires m.Valid() && Carries(m, info, message)
    ensures Carries(m.Alloc(m.Read(info.data, info.dataSize)), info.(data := Heap(m.next)), message)
  {
  }

  lemma StartWorkers(s: Server, w: nat, a: Action, client: nat, size: nat, found: int)
    requires s.memory.Valid() && WorkersOk(s)
    requires Ready(s, Begin(w, client, size, found))
    ensures WorkersOk(Start(s, w, a, client, size, found))
  {
    var z := Start(s, w, a, client, size, found);
    var posts := Posts(a, client, s.memory.received[client][..size], found);
    AllocKeepsWorkers(s.memory, posts[0].message.bytes, s.workers, |s.users|);
    assert z.workers[w] == Posting(InfosOf(posts, s.memory.next), posts);
  }

  /** A step that only allocates and moves workers and users leaves the queue and the packet
      thread as they were. */
  lemma AllocKeepsContents(s: Server, z: Server, bytes: seq<Byte>)
    requires s.memory.Valid() && QueueOk(s) && ThreadOk(s) && TraceOk(s)
    requires z == s.(memory := s.memory.Alloc(bytes), users := z.users, workers := z.workers, calls := z.calls)
    requires |z.users| == |s.users|
    ensures QueueOk(z) && ThreadOk(z) && TraceOk(z)
  {
    forall i | 0 <= i < |z.queue|
      ensures Carries(z.memory, z.queue[i], z.posted[Popped(z) + i].message)
    {
      assert Carries(s.memory, s.queue[i], s.posted[Popped(s) + i].message);
    }
    assert s.thread.Sending? ==> Carries(s.memory, s.thread.info, s.posted[Popped(s) - 1].message);
    assert InHand(z) == InHand(s);
  }

  lemma StartInv(s0: Server, s: Server, w: nat, a: Action, client: nat, size: nat, found: int)
    requires Inv(s0, s) && Ready(s, Begin(w, client, size, found))
    ensures Inv(s0, Start(s, w, a, client, size, found))
  {
    StartOwnership(s0, s, w, a, client, size, found);
    StartWorkers(s, w, a, client, size, found);
    var z := Start(s, w, a, client, size, found);
    AllocKeepsContents(s, z, z.workers[w].due[0].message.bytes);
    AllocSize(s.memory, z.workers[w].due[0].message.bytes);
  }

  lemma PutContents(s0: Server, s: Server, w: nat)
    requires Inv(s0, s) && Ready(s, Enqueue(w))
    ensures Contents(Put(s, w)) && TraceOk(Put(s, w))
  {
    PutWorkers(s, w);
    PutQueue(s, w);
  }

  lemma PutWorkers(s: Server, w: nat)
    requires s.memory.Valid() && WorkersOk(s)
    requires Ready(s, Enqueue(w))
    ensures WorkersOk(Put(s, w))
  {
    var bytes := s.memory.Read(s.workers[w].infos[0].data, s.workers[w].infos[0].dataSize);
    AllocKeepsWorkers(s.memory, bytes, s.workers, |s.users|);
    assert WorkerOk(s.memory.Alloc(bytes), s.workers[w], |s.users|);
  }

  lemma PutQueue(s: Server, w: nat)
    requires s.memory.Valid() && WorkersOk(s) && QueueOk(s) && ThreadOk(s) && TraceOk(s)
    requires Ready(s, Enqueue(w))
    ensures QueueOk(Put(s, w)) && ThreadOk(Put(s, w)) && TraceOk(Put(s, w))
  {
    var z := Put(s, w);
    var info, message := s.workers[w].infos[0], s.workers[w].due[0].message;
    assert WorkerOk(s.memory, s.workers[w], |s.users|);
    CopyCarries(s.memory, info, message);
    forall i | 0 <= i < |s.queue|
      ensures Carries(z.memory, s.queue[i], z.posted[Popped(s) + i].message)
    {
      assert Carries(s.memory, s.queue[i], s.posted[Popped(s) + i].message);
    }
    assert z.posted[..Popped(z)] == s.posted[..Popped(s)];
  }

  lemma PutInv(s0: Server, s: Server, w: nat)
    requires Inv(s0, s) && Ready(s, Enqueue(w))
    ensures Inv(s0, Put(s, w))
  {
    PutOwnership(s0, s, w);
    PutContents(s0, s, w);
    AllocSize(s.memory, s.memory.Read(s.workers[w].infos[0].data, s.workers[w].infos[0].dataSize));
    assert Put(s, w).posted[..Popped(s)] == s.posted[..Popped(s)];
  }

  lemma TakeContents(s0: Server, s: Server)
    requires Inv(s0, s) && Ready(s, Advance) && s.thread.AtDequeue? && s.queue != []
    ensures Contents(Take(s))
  {
    AllocKeepsWorkers(s.memory, s.memory.Read(s.queue[0].data, s.queue[0].dataSize),
                      s.workers, |s.users|);
    TakeQueue(s);
    TakeThread(s);
  }

  lemma TakeQueue(s: Server)
    requires s.memory.Valid() && QueueOk(s)
    requires Ready(s, Advance) && s.thread.AtDequeue? && s.queue != []
    ensures QueueOk(Take(s))
  {
    var z := Take(s);
    forall i | 0 <= i < |z.queue|
      ensures Carries(z.memory, z.queue[i], z.posted[Popped(z) + i].message)
    {
      assert Carries(s.memory, s.queue[i + 1], s.posted[Popped(s) + (i + 1)].message);
    }
  }

  lemma TakeThread(s: Server)
    requires s.memory.Valid() && QueueOk(s)
    requires Ready(s, Advance) && s.thread.AtDequeue? && s.queue != []
    ensures ThreadOk(Take(s))
  {
    var message := s.posted[Popped(s) + 0].message;
    assert Carries(s.memory, s.queue[0], message);
    CopyCarries(s.memory, s.queue[0], message);
  }

  lemma TakeTrace(s: Server)
    requires s.memory.Valid() && QueueOk(s) && TraceOk(s)
    requires Ready(s, Advance) && s.thread.AtDequeue? && s.queue != []
    ensures TraceOk(Take(s))
  {
    var message := s.posted[Popped(s) + 0].message;
    assert Carries(s.memory, s.queue[0], message);
    CopyCarries(s.memory, s.queue[0], message);
    KeptOneMore(s.posted, Popped(s));
  }

  lemma TakeInv(s0: Server, s: Server)
    requires Inv(s0, s) && Ready(s, Advance) && s.thread.AtDequeue? && s.queue != []
    ensures Inv(s0, Take(s))
  {
    TakeOwnership(s0, s);
    TakeContents(s0, s);
    TakeTrace(s);
    TakeBooks(s0, s);
  }

  lemma TakeBooks(s0: Server, s: Server)
    requires Books(s0, s) && QueueOk(s)
    requires Ready(s, Advance) && s.thread.AtDequeue? && s.queue != []
    ensures Books(s0, Take(s))
  {
    assert Carries(s.memory, s.queue[0], s.posted[Popped(s) + 0].message);
    KeptOneMore(s.posted, Popped(s));
    AllocSize(s.memory, s.memory.Read(s.queue[0].data, s.queue[0].dataSize));
  }

  /** Releasing the packet in hand leaves the handlers' packets as they were. */
  lemma SendWorkers(s0: Server, s: Server)
    requires Ownership(s0, s) && WorkersOk(s)
    requires Ready(s, Advance) && s.thread.Sending?
    ensures WorkersOk(Send(s))
  {
    var z := Send(s);
    var b := s.thread.info.data.buffer;
    assert Owns(s, Held, b);
    forall v | 0 <= v < |z.workers|
      ensures WorkerOk(z.memory, z.workers[v], |z.users|)
    {
      assert WorkerOk(s.memory, s.workers[v], |s.users|);
      assert s.workers[v].Posting? ==> !Owns(s, Temp(v), b);
    }
  }

  lemma SendQueue(s0: Server, s: Server)
    requires Ownership(s0, s) && QueueOk(s) && Ready(s, Advance) && s.thread.Sending?
    ensures QueueOk(Send(s))
  {
    var z := Send(s);
    HeldIsOurs(s0, s);
    forall i | 0 <= i < |z.queue|
      ensures Carries(z.memory, z.queue[i], z.posted[Popped(z) + i].message)
    {
      assert Carries(s.memory, s.queue[i], s.posted[Popped(s) + i].message);
    }
  }

  lemma SendTrace(s: Server)
    requires ThreadOk(s) && TraceOk(s) && Ready(s, Advance) && s.thread.Sending?
    ensures TraceOk(Send(s))
  {
  }

  lemma SendInv(s0: Server, s: Server)
    requires Inv(s0, s) && Ready(s, Advance) && s.thread.Sending?
    ensures Inv(s0, Send(s))
  {
    SendBooks(s0, s);
    SendOwnership(s0, s);
    SendWorkers(s0, s);
    SendQueue(s0, s);
    SendTrace(s);
    SendKeepsSends(s);
  }

  lemma SendBooks(s0: Server, s: Server)
    requires Ownership(s0, s) && Books(s0, s) && Ready(s, Advance) && s.thread.Sending?
    ensures Books(s0, Send(s))
  {
    FreeSize(s.memory, s.thread.info.data.buffer);
    HeldIsOurs(s0, s);
  }

  lemma HeldIsOurs(s0: Server, s: Server)
    requires Ownership(s0, s) && s.thread.Sending?
    ensures var data := s.thread.info.data;
            data.Heap? && data.buffer in s.memory.live && s0.memory.next <= data.buffer
    ensures forall i :: 0 <= i < |s.queue| ==> s.queue[i].data != s.thread.info.data
  {
    assert InfoAt(s, Held) == Some(s.thread.info);
    forall i | 0 <= i < |s.queue|
      ensures s.queue[i].data != s.thread.info.data
    {
      var b := s.thread.info.data.buffer;
      assert Owns(s, Held, b);
      assert InfoAt(s, Queued(i)) == Some(s.queue[i]);
      assert !Owns(s, Queued(i), b);
    }
  }

  lemma NextInv(s0: Server, s: Server, step: Step)
    requires Inv(s0, s) && Ready(s, step)
    ensures Inv(s0, Next(s, step))
  {
    match step {
      case Receive(client, bytes) => ReceiveInv(s0, s, client, bytes);
      case Begin(w, client, size, found) =>
        match ActionOf(Kind(s.memory.received[client])) {
          case None =>
          case Some(a) => StartInv(s0, s, w, a, client, size, found);
        }
      case Enqueue(w) => PutInv(s0, s, w);
      case Advance =>
        if s.thread.AtDequeue? && s.queue != [] {
          TakeInv(s0, s);
        } else if s.thread.Sending? {
          SendInv(s0, s);
        } else {
          SameInv(s0, s, Next(s, step));
        }
      case Close => SameInv(s0, s, Next(s, step));
      case Connect(_, _) => SameInv(s0, s, Next(s, step));
    }
  }

  /** `z` differs from `s` in nothing that concerns packets. */
  ghost predicate SamePackets(s: Server, z: Server) {
    && z == s.(users := z.users, running := z.running, thread := z.thread)
    && |z.users| == |s.users|
    && (z.thread == s.thread || (!s.thread.Sending? && !z.thread.Sending?))
  }

  lemma SameInv(s0: Server, s: Server, z: Server)
    requires Inv(s0, s) && SamePackets(s, z)
    ensures Inv(s0, z)
  {
    SameOwnership(s0, s, z);
    SameContents(s, z);
    assert InHand(z) == InHand(s);
  }

  lemma SameContents(s: Server, z: Server)
    requires Contents(s) && SamePackets(s, z)
    ensures Contents(z)
  {
    forall v | 0 <= v < |z.workers|
      ensures WorkerOk(z.memory, z.workers[v], |z.users|)
    {
      assert WorkerOk(s.memory, s.workers[v], |s.users|);
    }
  }

  lemma SameOwnership(s0: Server, s: Server, z: Server)
    requires Ownership(s0, s) && SamePackets(s, z)
    ensures Ownership(s0, z)
  {
    forall o
      ensures InfoAt(z, o) == InfoAt(s, o)
    {
    }
    forall o, p, b | Owns(z, o, b) && Owns(z, p, b)
      ensures o == p
    {
      assert Owns(s, o, b) && Owns(s, p, b);
    }
  }

  lemma ReceiveWorkers(s0: Server, s: Server, client: nat, bytes: seq<Byte>)
    requires Inv(s0, s) && Ready(s, Receive(client, bytes))
    ensures WorkersOk(Next(s, Receive(client, bytes)))
  {
    var z := Next(s, Receive(client, bytes));
    forall v | 0 <= v < |z.workers|
      ensures WorkerOk(z.memory, z.workers[v], |z.users|)
    {
      assert WorkerOk(s.memory, s.workers[v], |s.users|);
    }
  }

  lemma ReceiveContents(s0: Server, s: Server, client: nat, bytes: seq<Byte>)
    requires Inv(s0, s) && Ready(s, Receive(client, bytes))
    ensures Contents(Next(s, Receive(client, bytes)))
  {
    ReceiveWorkers(s0, s, client, bytes);
  }

  lemma ReceiveOwnership(s0: Server, s: Server, client: nat, bytes: seq<Byte>)
    requires Ownership(s0, s) && Ready(s, Receive(client, bytes))
    ensures Ownership(s0, Next(s, Receive(client, bytes)))
  {
    var z := Next(s, Receive(client, bytes));
    forall o
      ensures InfoAt(z, o) == InfoAt(s, o)
    {
    }
    forall o, p, b | Owns(z, o, b) && Owns(z, p, b)
      ensures o == p
    {
      assert Owns(s, o, b) && Owns(s, p, b);
    }
  }

  lemma ReceiveInv(s0: Server, s: Server, client: nat, bytes: seq<Byte>)
    requires Inv(s0, s) && Ready(s, Receive(client, bytes))
    ensures Inv(s0, Next(s, Receive(client, bytes)))
  {
    ReceiveContents(s0, s, client, bytes);
    ReceiveOwnership(s0, s, client, bytes);
    ReceiveTrace(s0, s, client, bytes);
  }

  lemma ReceiveTrace(s0: Server, s: Server, client: nat, bytes: seq<Byte>)
    requires Inv(s0, s) && Ready(s, Receive(client, bytes))
    ensures TraceOk(Next(s, Receive(client, bytes))) && SendsOk(Next(s, Receive(client, bytes)))
  {
    assert InHand(Next(s, Receive(client, bytes))) == InHand(s);
  }

  lemma {:induction false} LeadsInv(s0: Server, s: Server, steps: seq<Step>, z: Server)
    requires Inv(s0, s) && Leads(s, steps, z)
    ensures Inv(s0, z)
    decreases |steps|
  {
    if steps != [] {
      NextInv(s0, s, steps[0]);
      LeadsInv(s0, Next(s, steps[0]), steps[1..], z);
    }
  }

  lemma ReachesInv(s0: Server, s: Server)
    requires Reaches(s0, s)
    ensures Inv(s0, s)
  {
    InitialInv(s0);
    var steps :| Leads(s0, steps, s);
    LeadsInv(s0, s0, steps, s);
  }

  // ---- Main results, over every run ----

  lemma InvIsReady(s0: Server, s: Server)
    requires Inv(s0, s) && s.thread != Exited
    ensures Ready(s, Advance)
  {
    if s.queue != [] {
      assert Carries(s.memory, s.queue[0], s.posted[Popped(s) + 0].message);
    }
    if s.thread.Sending? {
      assert PostOk(s.posted[Popped(s) - 1], |s.users|);
    }
  }

  /** Packets in the queue, in the packet thread's hand and in the handlers each have a live
      buffer of their own; none of these buffers is a client's receive buffer or was allocated
      by somebody else, and nobody else's buffer is touched. */
  lemma EveryPacketOwnsItsBuffer(s0: Server, s: Server)
    requires Reaches(s0, s)
    ensures Ownership(s0, s)
    ensures forall b :: b in s0.memory.live ==> b in s.memory.live && s.memory.live[b] == s0.memory.live[b]
  {
    ReachesInv(s0, s);
  }

  /** No read or release of a dead buffer: until it exits, the packet thread can always take its
      next step, and so can a handler that has packets to enqueue. */
  lemma NoDeadBufferIsUsed(s0: Server, s: Server, w: nat)
    requires Reaches(s0, s)
    ensures s.thread != Exited ==> Ready(s, Advance)
    ensures w < |s.workers| && s.workers[w].Posting? ==> Ready(s, Enqueue(w))
  {
    ReachesInv(s0, s);
    if s.thread != Exited {
      InvIsReady(s0, s);
    }
    if w < |s.workers| {
      assert WorkerOk(s.memory, s.workers[w], |s.users|);
    }
  }

  /** No buffer is released twice, none that is still in use, and none of anybody else's. */
  lemma NothingReleasedTwice(s0: Server, s: Server)
    requires Reaches(s0, s)
    ensures Distinct(s.released)
    ensures forall k, o :: 0 <= k < |s.released| ==> !Owns(s, o, s.released[k])
    ensures forall k :: 0 <= k < |s.released| ==> s.released[k] !in s0.memory.live
  {
    ReachesInv(s0, s);
    forall k, o | 0 <= k < |s.released|
      ensures !Owns(s, o, s.released[k])
    {
      assert s.released[k] !in s.memory.live;
    }
    forall k | 0 <= k < |s.released|
      ensures s.released[k] !in s0.memory.live
    {
      assert s0.memory.next <= s.released[k];
      assert s.released[k] !in s.memory.live;
    }
  }

  /** The messages that left the queue are sent in the order in which they were enqueued, each
      once, unless they are empty, and with the bytes they had when their handler began, however
      often the receive buffers were overwritten since. Each goes out by its send type, which is
      that of its handler, to the users there were at that time. */
  lemma DispatchTrace(s0: Server, s: Server)
    requires Reaches(s0, s)
    ensures 0 <= Popped(s) <= |s.posted|
    ensures s.dispatched + InHand(s) == Kept(s.posted[..Popped(s)])
    ensures |s.audiences| == |s.dispatched|
    ensures forall k :: 0 <= k < |s.dispatched| ==> s.dispatched[k].client < |s.audiences[k]|
    ensures s.sent == Casts(s.audiences, s.dispatched)
    ensures forall i :: 0 <= i < |s.posted| ==> PostOk(s.posted[i], |s.users|)
  {
    ReachesInv(s0, s);
  }

  /** The posts of `PROCESS_SERVER_EXIT`. */
  function Exits(posts: seq<Post>): seq<Post> {
    if posts == [] then []
    else Exits(posts[..|posts| - 1])
         + if posts[|posts| - 1].action.ServerExit? then [posts[|posts| - 1]] else []
  }

  /** The messages sent with `CLOSE`. */
  function Closing(messages: seq<Message>): seq<Message> {
    if messages == [] then []
    else Closing(messages[..|messages| - 1])
         + if messages[|messages| - 1].isClose && messages[|messages| - 1].sendType.Multi?
           then [messages[|messages| - 1]] else []
  }

  lemma ClosingOneMore(messages: seq<Message>, m: Message)
    ensures Closing(messages + [m]) ==
            Closing(messages) + if m.isClose && m.sendType.Multi? then [m] else []
  {
    assert (messages + [m])[..|messages|] == messages;
  }

  lemma ExitsOneMore(posts: seq<Post>, p: Post)
    ensures Kept(Exits(posts) + (if p.action.ServerExit? then [p] else [])) ==
            Kept(Exits(posts)) + if p.action.ServerExit? && p.message.bytes != [] then [p.message] else []
  {
    var e := Exits(posts);
    assert (e + [p])[..|e|] == e;
    assert e + [] == e;
  }

  lemma {:induction false} ClosingIsExits(posts: seq<Post>, users: nat)
    requires forall i :: 0 <= i < |posts| ==> PostOk(posts[i], users)
    ensures Closing(Kept(posts)) == Kept(Exits(posts))
  {
    if posts != [] {
      var n := |posts| - 1;
      ClosingIsExits(posts[..n], users);
      assert PostOk(posts[n], users);
      ExitsOneMore(posts[..n], posts[n]);
      ClosingOneMore(Kept(posts[..n]), posts[n].message);
      assert Kept(posts[..n]) + [] == Kept(posts[..n]);
    }
  }

  /** What is sent with `CLOSE` is what `PROCESS_SERVER_EXIT` enqueued, one for one, in order. */
  lemma ClosesMatchExits(s0: Server, s: Server)
    requires Reaches(s0, s)
    ensures 0 <= Popped(s) <= |s.posted|
    ensures Closing(s.dispatched + InHand(s)) == Kept(Exits(s.posted[..Popped(s)]))
  {
    ReachesInv(s0, s);
    ClosingIsExits(s.posted[..Popped(s)], |s.users|);
  }

  /** The exact number of live buffers, at every step. */
  lemma ExactAccounting(s0: Server, s: Server)
    requires Reaches(s0, s)
    ensures Accounted(s0, s)
  {
    ReachesInv(s0, s);
  }

  /** All requests are handled, all packets sent. */
  ghost predicate Quiet(s: Server) {
    && s.queue == [] && !s.thread.Sending?
    && forall w :: 0 <= w < |s.workers| ==> s.workers[w] == Idle
  }

  /** Then one buffer is left for each handler call, one for each packet sent and two for each
      packet without contents: everything is freed only if no handler was ever called. */
  lemma WhatIsLeftBehind(s0: Server, s: Server)
    requires Reaches(s0, s) && Quiet(s)
    ensures |s.memory.live| == |s0.memory.live| + |s.calls| + |s.dispatched| + 2 * (|s.posted| - |s.dispatched|)
    ensures |s.dispatched| <= |s.posted|
    ensures |s.memory.live| == |s0.memory.live| <==> s.calls == []
  {
    ReachesInv(s0, s);
    assert s.posted[..Popped(s)] == s.posted;
    assert s.dispatched + [] == s.dispatched;
  }

  // ---- What the handlers put in the queue, and where they put their users ----

  /** `post` carries the eight bytes of a server message with this text to `client` alone. */
  ghost predicate Answers(post: Post, client: nat, text: nat) {
    var b := post.message.bytes;
    && post.message.client == client && post.message.sendType == Uni && !post.message.isClose
    && |b| == 8 && LittleEndian(b[..2]) == 8 && LittleEndian(b[2..4]) == 51 && LittleEndian(b[4..]) == text
  }

  /** What each handler posts: a login is answered with text 2 or, when the name is taken, 1; a
      whisper goes to sender and receiver with the bytes that came, or is answered with text 3;
      everything else is passed on once with the bytes that came, by its send type, with the close
      flag exactly when the client leaves the server. */
  lemma {:induction false} PostsExactly(a: Action, client: nat, bytes: seq<Byte>, found: int)
    ensures var posts := Posts(a, client, bytes, found);
            && (forall k :: 0 <= k < |posts| ==> posts[k].action == a)
            && match a
               case ServerEnter => |posts| == 1 && Answers(posts[0], client, if found < 0 then 2 else 1)
               case ChatUnicast =>
                 if found < 0 then |posts| == 1 && Answers(posts[0], client, 3)
                 else && |posts| == 2
                      && posts[0].message == Message(client, Uni, false, bytes)
                      && posts[1].message == Message(found, Uni, false, bytes)
               case ChatBroadcast => |posts| == 1 && posts[0].message == Message(client, Broad, false, bytes)
               case _ => |posts| == 1 && posts[0].message == Message(client, Multi, a == ServerExit, bytes)
  {
    ServerMessageFields(1);
    ServerMessageFields(2);
    ServerMessageFields(3);
  }

  /** The message about someone who has just left room `r` reaches those who are still in it. */
  lemma {:induction false} RoomExitIsHeard(users: seq<User>, client: nat, bytes: seq<Byte>, c: nat)
    requires client < |users| && users[client].room != LOBBY
    ensures var after := users[client := Moved(users[client], RoomExit, 0, -1)];
            var message := Posts(RoomExit, client, bytes, -1)[0].message;
            && Copies(Cast(after, message), message, -1) && message.bytes == bytes
            && SentTo(Cast(after, message), c) ==
               if c < |users| && c != client && users[c].connected && users[c].room == users[client].room
               then 1 else 0
  {
    var after := users[client := Moved(users[client], RoomExit, 0, -1)];
    MultiCastReachesExactly(after, Posts(RoomExit, client, bytes, -1)[0].message, c);
  }

  /** The room of `c`, who began in `room`, by the calls alone: a login under a new name and an
      exit lead to the lobby, an entry leads into a room only from there. */
  function RoomAfter(room: int, calls: seq<Call>, c: nat): int
    requires forall k :: 0 <= k < |calls| ==> |calls[k].packet| == MAX_SOCKBUF
  {
    if calls == [] then room
    else
      var before, call := RoomAfter(room, calls[..|calls| - 1], c), calls[|calls| - 1];
      if call.client != c then before
      else match call.action
        case ServerEnter => if call.found < 0 then 0 else before
        case RoomExit => 0
        case RoomEnter => if before == 0 then RoomNo(call.packet) else before
        case _ => before
  }

  /** The room `c` left last. */
  function LeftAfter(room: int, left: int, calls: seq<Call>, c: nat): int
    requires forall k :: 0 <= k < |calls| ==> |calls[k].packet| == MAX_SOCKBUF
  {
    if calls == [] then left
    else
      var n := |calls| - 1;
      var before := LeftAfter(room, left, calls[..n], c);
      if calls[n].client == c && calls[n].action == RoomExit && RoomAfter(room, calls[..n], c) != 0
      then RoomAfter(room, calls[..n], c)
      else before
  }

  ghost predicate CallsSound(calls: seq<Call>) {
    forall k :: 0 <= k < |calls| ==> |calls[k].packet| == MAX_SOCKBUF && calls[k].size <= MAX_SOCKBUF
  }

  ghost predicate Placed(s0: Server, s: Server) {
    && CallsSound(s.calls) && |s.users| == |s0.users|
    && forall c :: 0 <= c < |s.users| ==>
         && s.users[c].room == RoomAfter(s0.users[c].room, s.calls, c)
         && s.users[c].prevRoom == LeftAfter(s0.users[c].room, s0.users[c].prevRoom, s.calls, c)
  }

  lemma {:induction false} PlacesOneMore(room: int, left: int, calls: seq<Call>, call: Call, c: nat)
    requires CallsSound(calls) && CallsSound([call]) && |call.packet| == MAX_SOCKBUF
    ensures CallsSound(calls + [call])
    ensures var user := User(true, RoomAfter(room, calls, c), LeftAfter(room, left, calls, c));
            var moved := if call.client == c then Moved(user, call.action, RoomNo(call.packet), call.found) else user;
            && RoomAfter(room, calls + [call], c) == moved.room
            && LeftAfter(room, left, calls + [call], c) == moved.prevRoom
  {
    var all := calls + [call];
    assert all[|calls|] == call && all[..|calls|] == calls;
    assert forall k :: 0 <= k < |calls| ==> calls[k] == all[k];
  }

  lemma {:induction false} StartPlaced(s0: Server, s: Server, w: nat, a: Action, client: nat, size: nat, found: int)
    requires Placed(s0, s) && Ready(s, Begin(w, client, size, found))
    ensures Placed(s0, Start(s, w, a, client, size, found))
  {
    var call := Call(client, a, s.memory.received[client], size, found);
    assert CallsSound([call]);
    forall c | 0 <= c < |s.users|
      ensures var z := Start(s, w, a, client, size, found);
              && z.users[c].room == RoomAfter(s0.users[c].room, z.calls, c)
              && z.users[c].prevRoom == LeftAfter(s0.users[c].room, s0.users[c].prevRoom, z.calls, c)
    {
      PlacesOneMore(s0.users[c].room, s0.users[c].prevRoom, s.calls, call, c);
    }
  }

  lemma {:induction false} LeadsPlaced(s0: Server, s: Server, steps: seq<Step>, z: Server)
    requires Placed(s0, s) && Leads(s, steps, z)
    ensures Placed(s0, z)
    decreases |steps|
  {
    if steps != [] {
      NextPlaced(s0, s, steps[0]);
      LeadsPlaced(s0, Next(s, steps[0]), steps[1..], z);
    }
  }

  lemma {:induction false} NextPlaced(s0: Server, s: Server, step: Step)
    requires Placed(s0, s) && Ready(s, step)
    ensures Placed(s0, Next(s, step))
  {
    if step.Begin? {
      var a := ActionOf(Kind(s.memory.received[step.client]));
      if a.Some? {
        StartPlaced(s0, s, step.worker, a.value, step.client, step.size, step.found);
      }
    }
  }

  /** In every interleaving each user is in the room, and has left the room last, that the calls
      of the handlers for it say, in the order in which they began. */
  lemma {:induction false} UsersAreWhereTheirCallsSay(s0: Server, s: Server)
    requires Reaches(s0, s)
    ensures Placed(s0, s)
  {
    var steps :| Leads(s0, steps, s);
    LeadsPlaced(s0, s0, steps, s);
  }

  /** Nothing but a connection made or broken changes whether a client is connected. */
  lemma {:induction false} OnlyConnectionsConnect(s: Server, step: Step, c: nat)
    requires Ready(s, step) && c < |s.users|
    ensures |Next(s, step).users| == |s.users|
    ensures Next(s, step).users[c].connected ==
            if step.Connect? && step.client == c then step.connected else s.users[c].connected
  {
  }

  // ---- Every call's posts are enqueued, and nothing else ----

  function PostsOf(call: Call): seq<Post>
    requires call.size <= |call.packet|
  {
    Posts(call.action, call.client, call.packet[..call.size], call.found)
  }

  /** How often the calls post `x`. */
  ghost function TimesPosted(calls: seq<Call>, x: Post): nat
    requires CallsSound(calls)
  {
    if calls == [] then 0
    else TimesPosted(calls[..|calls| - 1], x) + multiset(PostsOf(calls[|calls| - 1]))[x]
  }

  function DueOf(worker: Worker): seq<Post> {
    if worker.Posting? then worker.due else []
  }

  /** How often the handlers still have to enqueue it. */
  ghost function TimesDue(workers: seq<Worker>, x: Post): nat {
    if workers == [] then 0
    else TimesDue(workers[..|workers| - 1], x) + multiset(DueOf(workers[|workers| - 1]))[x]
  }

  lemma {:induction false} DueUpdate(workers: seq<Worker>, w: nat, worker: Worker, x: Post)
    requires w < |workers|
    ensures TimesDue(workers[w := worker], x) + multiset(DueOf(workers[w]))[x] ==
            TimesDue(workers, x) + multiset(DueOf(worker))[x]
  {
    var n := |workers| - 1;
    if w < n {
      assert workers[w := worker][..n] == workers[..n][w := worker];
      DueUpdate(workers[..n], w, worker, x);
    } else {
      assert workers[w := worker][..n] == workers[..n];
    }
  }

  lemma {:induction false} NothingDue(workers: seq<Worker>, x: Post)
    requires forall w :: 0 <= w < |workers| ==> workers[w].Idle?
    ensures TimesDue(workers, x) == 0
  {
    if workers != [] {
      NothingDue(workers[..|workers| - 1], x);
    }
  }

  ghost predicate Posted(s: Server, x: Post) {
    CallsSound(s.calls) && multiset(s.posted)[x] + TimesDue(s.workers, x) == TimesPosted(s.calls, x)
  }

  lemma {:induction false} TimesPostedOneMore(calls: seq<Call>, call: Call, x: Post)
    requires CallsSound(calls) && |call.packet| == MAX_SOCKBUF && call.size <= MAX_SOCKBUF
    ensures CallsSound(calls + [call])
    ensures TimesPosted(calls + [call], x) == TimesPosted(calls, x) + multiset(PostsOf(call))[x]
  {
    assert (calls + [call])[..|calls|] == calls;
  }

  lemma {:induction false} StartPosted(s: Server, w: nat, a: Action, client: nat, size: nat, found: int, x: Post)
    requires Posted(s, x) && Ready(s, Begin(w, client, size, found))
    ensures Posted(Start(s, w, a, client, size, found), x)
  {
    DueUpdate(s.workers, w, Start(s, w, a, client, size, found).workers[w], x);
    TimesPostedOneMore(s.calls, Call(client, a, s.memory.received[client], size, found), x);
  }

  lemma {:induction false} TakenFirst(due: seq<Post>, posted: seq<Post>, x: Post)
    requires due != []
    ensures multiset(due)[x] == multiset(due[1..])[x] + (if due[0] == x then 1 else 0)
    ensures multiset(posted + [due[0]])[x] == multiset(posted)[x] + if due[0] == x then 1 else 0
  {
    assert due == [due[0]] + due[1..];
  }

  lemma {:induction false} PutPosted(s: Server, w: nat, x: Post)
    requires Posted(s, x) && Ready(s, Enqueue(w))
    ensures Posted(Put(s, w), x)
  {
    DueUpdate(s.workers, w, Put(s, w).workers[w], x);
    TakenFirst(s.workers[w].due, s.posted, x);
  }

  lemma {:induction false} LeadsPosted(s: Server, steps: seq<Step>, z: Server, x: Post)
    requires Posted(s, x) && Leads(s, steps, z)
    ensures Posted(z, x)
    decreases |steps|
  {
    if steps != [] {
      NextPosted(s, steps[0], x);
      LeadsPosted(Next(s, steps[0]), steps[1..], z, x);
    }
  }

  lemma {:induction false} NextPosted(s: Server, step: Step, x: Post)
    requires Posted(s, x) && Ready(s, step)
    ensures Posted(Next(s, step), x)
  {
    if step.Begin? {
      var a := ActionOf(Kind(s.memory.received[step.client]));
      if a.Some? {
        StartPosted(s, step.worker, a.value, step.client, step.size, step.found, x);
      }
    } else if step.Enqueue? {
      PutPosted(s, step.worker, x);
    }
  }

  /** Every post was enqueued, or is still to be enqueued, as often as the calls of the handlers
      post it: none is lost, doubled or made up. */
  lemma {:induction false} EveryPostIsEnqueued(s0: Server, s: Server, x: Post)
    requires Reaches(s0, s)
    ensures Posted(s, x)
  {
    NothingDue(s0.workers, x);
    var steps :| Leads(s0, steps, s);
    LeadsPosted(s0, steps, s, x);
  }
}
