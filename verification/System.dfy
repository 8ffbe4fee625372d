/** Requests and sender threads together: the logic side decides what is pushed, the senders
    decide when it is sent. */
module Systems {
  import opened Options
  import opened Bytes
  import opened Packets
  import opened Packages
  import opened Pools
  import opened Chat
  import opened Views
  import Wires
  import opened Streams

  /** The requests served so far and the send server. */
  datatype Sys = Sys(ops: seq<Op>, pool: Pool<Packet>)

  /** A request is decided in one step; the packages it pushes enter the queue one by one, in
      any later steps. */
  datatype SysStep = Serve(op: Op) | PushNext | Sender(t: nat) | CloseSenders

  ghost predicate SysEnabled(s: Sys, step: SysStep)
    requires Run(s.ops)
  {
    match step
    case Serve(op) => Legal(After(s.ops), op) && Apply(After(s.ops), op).Done?
    case PushNext => |s.pool.pushed| < |Log(s.ops)|
    case Sender(t) => Enabled(s.pool, Advance(t))
    case CloseSenders => true
  }

  ghost function SysNext(s: Sys, step: SysStep): Sys
    requires Run(s.ops) && SysEnabled(s, step)
  {
    match step
    case Serve(op) => s.(ops := s.ops + [op])
    case PushNext => s.(pool := Next(s.pool, Push(Log(s.ops)[|s.pool.pushed|])))
    case Sender(t) => s.(pool := Next(s.pool, Advance(t)))
    case CloseSenders => s.(pool := Next(s.pool, Close))
  }

  ghost predicate SysLeads(s: Sys, steps: seq<SysStep>, z: Sys)
    decreases |steps|
  {
    if steps == [] then s == z
    else Run(s.ops) && SysEnabled(s, steps[0]) && SysLeads(SysNext(s, steps[0]), steps[1..], z)
  }

  function Start(n: nat): Sys {
    Sys([], Init(n))
  }

  /** What every reachable state of the system satisfies. */
  ghost predicate Sound(n: nat, s: Sys) {
    Run(s.ops) && Reachable(n, s.pool) && s.pool.pushed <= Log(s.ops)
  }

  lemma {:induction false} ReachesOneMore<P(!new)>(n: nat, s: Pool<P>, step: Step<P>)
    requires Reachable(n, s) && Enabled(s, step)
    ensures Reachable(n, Next(s, step))
  {
    var steps :| Leads(Init(n), steps, s);
    var z := Next(s, step);
    var last := [step];
    assert Leads(z, last[1..], z);
    LeadsConcat(Init(n), steps, s, last, z);
  }

  lemma {:induction false} SoundStep(n: nat, s: Sys, step: SysStep)
    requires Sound(n, s) && SysEnabled(s, step)
    ensures Sound(n, SysNext(s, step))
  {
    match step {
      case Serve(op) => Extend(s.ops, op);
      case PushNext => SoundPush(n, s);
      case Sender(t) => SoundSender(n, s, Advance(t));
      case CloseSenders => SoundSender(n, s, Step<Packet>.Close);
    }
  }

  lemma {:induction false} SoundPush(n: nat, s: Sys)
    requires Sound(n, s) && SysEnabled(s, PushNext)
    ensures Sound(n, SysNext(s, PushNext))
  {
    var log, k := Log(s.ops), |s.pool.pushed|;
    ReachesOneMore(n, s.pool, Push(log[k]));
    assert log[..k + 1] == log[..k] + [log[k]];
  }

  lemma {:induction false} SoundSender(n: nat, s: Sys, step: Step<Packet>)
    requires Sound(n, s) && Enabled(s.pool, step) && !step.Push?
    ensures Sound(n, s.(pool := Next(s.pool, step)))
  {
    ReachesOneMore(n, s.pool, step);
    SenderStep(s.pool, step);
  }

  lemma {:induction false} SysLeadsSound(n: nat, s: Sys, steps: seq<SysStep>, z: Sys)
    requires Sound(n, s) && SysLeads(s, steps, z)
    ensures Sound(n, z)
    decreases |steps|
  {
    if steps != [] {
      SoundStep(n, s, steps[0]);
      SysLeadsSound(n, SysNext(s, steps[0]), steps[1..], z);
    }
  }

  lemma {:induction false} StartSound(n: nat)
    ensures Sound(n, Start(n))
  {
    var none: seq<Step<Packet>> := [];
    assert Leads(Init(n), none, Init(n));
  }

  // ---- Prefix consistency ----

  lemma {:induction false} ToSessionNonEmpty(ps: seq<SendPackage>, u: Uid)
    ensures ToSession(NonEmpty(ps), u) == ToSession(ps, u)
  {
    if ps != [] {
      var n := |ps| - 1;
      ToSessionNonEmpty(ps[..n], u);
      ToSessionConcat(NonEmpty(ps[..n]), if ps[n].Empty() then [] else [ps[n]], u);
      if !ps[n].Empty() {
        assert [ps[n]][..0] == [];
      }
    }
  }

  /** Of the packets a request sends to one session, only the first can matter to the client. */
  ghost predicate FirstMatters(ps: seq<Packet>) {
    forall i :: 1 <= i < |ps| ==> Neutral(ps[i])
  }

  lemma {:induction false} OneMattersPerRequest(w: World, op: Op, u: Uid)
    requires Legal(w, op) && Apply(w, op).Done?
    ensures FirstMatters(ToSession(Apply(w, op).out, u))
  {
    if op.RoomEnter? {
      EntryNews(w, op, u);
    } else if op.ServerEnter? {
      GreetingNews(w, op, u);
    } else if op.RoomExit? {
      ExitNews(w, op, u);
    } else if op.ServerExit? || op.Disconnect? {
      RemovalOut(w, op, u);
    } else {
      OtherOutIsNeutral(w, op, u);
    }
  }

  lemma {:induction false} PrefixOfOne(me: Uid, c: ClientState, part: seq<Packet>, all: seq<Packet>)
    requires FirstMatters(all) && part <= all && part != []
    ensures ReceiveAll(me, c, part) == ReceiveAll(me, c, all)
  {
    assert part == [all[0]] + part[1..] && all == [all[0]] + all[1..];
    ReceiveConcat(me, c, [all[0]], part[1..]);
    ReceiveConcat(me, c, [all[0]], all[1..]);
    NeutralChangesNothing(me, ReceiveAll(me, c, [all[0]]), part[1..]);
    NeutralChangesNothing(me, ReceiveAll(me, c, [all[0]]), all[1..]);
  }

  lemma {:induction false} ToSessionPrefix(ps: seq<SendPackage>, qs: seq<SendPackage>, u: Uid)
    requires ps <= qs
    ensures ToSession(ps, u) <= ToSession(qs, u)
  {
    assert qs == ps + qs[|ps|..];
    ToSessionConcat(ps, qs[|ps|..], u);
  }

  /** The packets pushed to `u`'s session during a run. */
  ghost function Letters(ops: seq<Op>, u: Uid): seq<Packet>
    requires Run(ops)
  {
    ToSession(Log(ops), u)
  }

  lemma {:induction false} LettersGrow(ops: seq<Op>, u: Uid)
    requires Run(ops) && ops != []
    ensures var past := ops[..|ops| - 1];
            Run(past) && Letters(ops, u) == Letters(past, u) + ToSession(Apply(After(past), ops[|ops| - 1]).out, u)
  {
    var past := ops[..|ops| - 1];
    ToSessionConcat(Log(past), Apply(After(past), ops[|ops| - 1]).out, u);
  }

  /** How many requests a client that has got its first `n` packets has caught up with: all of
      those whose first packet for it has arrived, and those after them that have none. */
  ghost function Moment(ops: seq<Op>, n: nat, u: Uid): (k: nat)
    requires Run(ops)
    ensures k <= |ops|
    decreases |ops|
  {
    if ops != [] && n < |Letters(ops, u)| && n <= |Letters(ops[..|ops| - 1], u)|
    then Moment(ops[..|ops| - 1], n, u)
    else |ops|
  }

  /** `u` was connected after the first `k` requests and `c` is what it ought to see then. */
  ghost predicate RightAt(ops: seq<Op>, k: nat, u: Uid, c: ClientState) {
    k <= |ops| && Disciplined(ops[..k]) && u in After(ops[..k]).users && c == Expected(ops[..k], u)
  }

  /** A client that has got any prefix of what was pushed to it sees a state the server was in. */
  lemma {:induction false} PrefixView(ops: seq<Op>, ps: seq<Packet>, u: Uid)
    requires Disciplined(ops) && u in After(ops).users && ps <= Letters(ops, u)
    ensures RightAt(ops, Moment(ops, |ps|, u), u, View(u, ps))
    decreases |ops|
  {
    assert ops[..|ops|] == ops;
    if ps == Letters(ops, u) {
      ViewReconstruction(ops, u);
    } else {
      var past := ops[..|ops| - 1];
      LastFollows(ops);
      LettersGrow(ops, u);
      if |ps| <= |Letters(past, u)| {
        HadLetters(ops, u);
        PrefixView(past, ps, u);
        var k := Moment(past, |ps|, u);
        assert past[..k] == ops[..k];
      } else {
        PartView(ops, ps, u);
      }
    }
  }

  /** A client for which something was pushed last was connected before. */
  lemma {:induction false} HadLetters(ops: seq<Op>, u: Uid)
    requires Disciplined(ops) && ops != [] && u in After(ops).users && Letters(ops, u) != []
    ensures u in After(ops[..|ops| - 1]).users
  {
    var past, op := ops[..|ops| - 1], ops[|ops| - 1];
    LettersGrow(ops, u);
    if u !in After(past).users {
      NewcomersConnect(After(past), op, u);
      NewIdsAreClean(past, u);
    }
  }

  /** The same when some, and not all, of the packets of the last request are missing. */
  lemma {:induction false} PartView(ops: seq<Op>, ps: seq<Packet>, u: Uid)
    requires Disciplined(ops) && ops != [] && u in After(ops).users
    requires ps <= Letters(ops, u) && |Letters(ops[..|ops| - 1], u)| < |ps|
    ensures View(u, ps) == Expected(ops, u)
  {
    var past, op := ops[..|ops| - 1], ops[|ops| - 1];
    var before, all := Letters(past, u), ToSession(Apply(After(past), op).out, u);
    LettersGrow(ops, u);
    var part := ps[|before|..];
    assert ps == before + part && part <= all;
    OneMattersPerRequest(After(past), op, u);
    PrefixOfOne(u, View(u, before), part, all);
    ReceiveConcat(u, Login, before, part);
    ReceiveConcat(u, Login, before, all);
    ViewReconstruction(ops, u);
  }

  /** With one sender each session is sent a prefix of what was pushed to it, in order. */
  lemma {:induction false} OneSenderKeepsOrder(s: Sys, u: Uid)
    requires Sound(1, s)
    ensures exists m: nat :: m <= |Log(s.ops)| && ToSession(s.pool.done, u) == ToSession(Log(s.ops)[..m], u)
    ensures ToSession(s.pool.done, u) <= Letters(s.ops, u)
  {
    OneThreadIsFifo(s.pool);
    var m := Settled(s.pool);
    assert s.pool.pushed[..m] == Log(s.ops)[..m];
    ToSessionNonEmpty(s.pool.pushed[..m], u);
    ToSessionPrefix(Log(s.ops)[..m], Log(s.ops), u);
  }

  /** The request after which the server was as the client of `u` is shown it. */
  ghost function Shown(s: Sys, u: Uid): nat
    requires Run(s.ops)
  {
    Moment(s.ops, |ToSession(s.pool.done, u)|, u)
  }

  /** Prefix consistency: with one sender, at any moment of a disciplined run, what has been
      sent to a connected client shows it exactly the state it ought to have seen after some
      earlier request, `Shown`. */
  lemma {:induction false} PrefixConsistency(steps: seq<SysStep>, s: Sys, u: Uid)
    requires SysLeads(Start(1), steps, s)
    requires Disciplined(s.ops) && u in After(s.ops).users
    ensures RightAt(s.ops, Shown(s, u), u, View(u, ToSession(s.pool.done, u)))
  {
    StartSound(1);
    SysLeadsSound(1, Start(1), steps, s);
    OneSenderKeepsOrder(s, u);
    PrefixView(s.ops, ToSession(s.pool.done, u), u);
  }

  // ---- A screen never goes back ----

  /** More packets and more requests bring a client further. */
  lemma {:induction false} MomentsGrow(ops: seq<Op>, m: nat, all: seq<Op>, n: nat, u: Uid)
    requires Run(all) && ops <= all && Run(ops) && m <= n && m <= |Letters(ops, u)|
    ensures Moment(ops, m, u) <= Moment(all, n, u)
    decreases |all|
  {
    if |ops| < |all| {
      var past := all[..|all| - 1];
      LettersGrow(all, u);
      assert ops <= past;
      MomentsGrow(ops, m, past, n, u);
    } else if all != [] {
      var past := all[..|all| - 1];
      assert ops == all;
      if n <= |Letters(past, u)| {
        MomentsGrow(past, m, past, n, u);
      }
    }
  }

  /** What a step leaves of what was there. */
  ghost predicate GoesOn(s: Sys, z: Sys) {
    s.ops <= z.ops && s.pool.done <= z.pool.done
  }

  lemma {:induction false} StepGoesOn(s: Sys, step: SysStep)
    requires Run(s.ops) && SysEnabled(s, step)
    ensures GoesOn(s, SysNext(s, step))
  {
  }

  lemma {:induction false} LeadsGoesOn(s: Sys, steps: seq<SysStep>, z: Sys)
    requires SysLeads(s, steps, z)
    ensures GoesOn(s, z)
    decreases |steps|
  {
    if steps != [] {
      StepGoesOn(s, steps[0]);
      LeadsGoesOn(SysNext(s, steps[0]), steps[1..], z);
    }
  }

  /** The moments shown to a client follow each other in the order of the requests: with one
      sender a screen never goes back. */
  lemma {:induction false} ScreensNeverGoBack(steps: seq<SysStep>, s: Sys, more: seq<SysStep>, z: Sys, u: Uid)
    requires SysLeads(Start(1), steps, s) && SysLeads(s, more, z)
    ensures Run(s.ops) && Run(z.ops) && s.ops <= z.ops && Shown(s, u) <= Shown(z, u)
  {
    StartSound(1);
    SysLeadsSound(1, Start(1), steps, s);
    SysLeadsSound(1, s, more, z);
    LeadsGoesOn(s, more, z);
    OneSenderKeepsOrder(s, u);
    ToSessionPrefix(s.pool.done, z.pool.done, u);
    MomentsGrow(s.ops, |ToSession(s.pool.done, u)|, z.ops, |ToSession(z.pool.done, u)|, u);
  }

  // ---- Through the wire ----

  /** What the client's `GetPacket` makes of what the server's `SendPacket` sends. */
  function Arrival(p: Packet): Option<Packet> {
    var bytes := Wires.ServerBytes(p);
    if bytes.None? then None else Wires.Receive(bytes.value)
  }

  /** The packets that come out at the client's end. */
  function Arrivals(ps: seq<Packet>): seq<Packet> {
    if ps == [] then []
    else
      var a := Arrival(ps[|ps| - 1]);
      Arrivals(ps[..|ps| - 1]) + if a.Some? then [a.value] else []
  }

  /** `p` arrives as something, and with its name if it tells of an entry. */
  predicate Arrives(p: Packet) {
    Arrival(p).Some? && (p.SRoomEnter? ==> Wires.Deliverable(p))
  }

  predicate AllArrive(ps: seq<Packet>) {
    forall i :: 0 <= i < |ps| ==> Arrives(ps[i])
  }

  /** For packets without lists that only says that the wire image fits and, of an entry, that
      the name is one that survives. */
  lemma {:induction false} TextsArriveExactly(p: Packet)
    requires !Wires.List(p)
    ensures Arrives(p) <==> Wires.ServerBytes(p).Some? && (p.SRoomEnter? ==> StrOk(p.name))
  {
    Wires.EndToEnd(p);
    if Wires.ServerBytes(p).Some? {
      Wires.TextsArrive(p);
    }
  }

  /** Packets that do not concern the member list arrive as packets that do not, whatever their
      strings are; the others arrive as they were sent. */
  lemma {:induction false} ArrivalActs(me: Uid, c: ClientState, p: Packet)
    requires Arrives(p)
    ensures Receive(me, c, Arrival(p).value) == Receive(me, c, p)
  {
    Wires.EndToEnd(p);
    Wires.StreamContents(p);
    if Neutral(p) {
      Wires.ReceiveKeepsKind(p, Zeros(4));
      NeutralByKind(p, Arrival(p).value);
    }
  }

  lemma {:induction false} NeutralByKind(p: Packet, q: Packet)
    requires Neutral(p) && TypeOf(p) == TypeOf(q)
    ensures Neutral(q)
  {
  }

  lemma {:induction false} WireKeepsView(me: Uid, ps: seq<Packet>)
    requires AllArrive(ps)
    ensures View(me, Arrivals(ps)) == View(me, ps)
  {
    if ps != [] {
      var n := |ps| - 1;
      WireKeepsView(me, ps[..n]);
      ArrivalActs(me, View(me, ps[..n]), ps[n]);
      ReceiveConcat(me, Login, Arrivals(ps[..n]), [Arrival(ps[n]).value]);
      ReceiveOne(me, View(me, Arrivals(ps[..n])), Arrival(ps[n]).value);
    }
  }

  /** Prefix consistency for the bytes: when what was sent arrives as something and the names of
      those who entered survive the codec, the client's screen shows a state the server was in. */
  lemma {:induction false} ScreenShowsAServerState(steps: seq<SysStep>, s: Sys, u: Uid)
    requires SysLeads(Start(1), steps, s)
    requires Disciplined(s.ops) && u in After(s.ops).users
    requires AllArrive(ToSession(s.pool.done, u))
    ensures RightAt(s.ops, Shown(s, u), u, View(u, Arrivals(ToSession(s.pool.done, u))))
  {
    WireKeepsView(u, ToSession(s.pool.done, u));
    PrefixConsistency(steps, s, u);
  }

  // ---- After a removal ----

  /** `u` was connected once and is not any more. */
  ghost predicate Gone(s: Sys, u: Uid) {
    && Run(s.ops) && s.pool.pushed <= Log(s.ops)
    && u !in After(s.ops).users && u < After(s.ops).nextUid
  }

  /** What was decided for `u` and is not pushed yet. */
  ghost function Pending(s: Sys, u: Uid): nat
    requires Run(s.ops) && s.pool.pushed <= Log(s.ops)
  {
    |ToSession(Log(s.ops)[|s.pool.pushed|..], u)|
  }

  function PushedFor(s: Sys, u: Uid): nat {
    |ToSession(s.pool.pushed, u)|
  }

  function QueuedFor(s: Sys, u: Uid): nat {
    |ToSession(s.pool.queue, u)|
  }

  function OwnList(step: SysStep, u: Uid): nat {
    if step == Serve(RoomList(u)) then 1 else 0
  }

  /** How many room list requests of `u` are served. */
  function OwnLists(steps: seq<SysStep>, u: Uid): nat {
    if steps == [] then 0 else OwnList(steps[0], u) + OwnLists(steps[1..], u)
  }

  /** One step decides and pushes for `u` what its own room list request asks for. */
  ghost predicate OnlyOwnLists(s: Sys, z: Sys, u: Uid, n: nat)
    requires Gone(s, u) && Gone(z, u)
  {
    && PushedFor(z, u) + Pending(z, u) == PushedFor(s, u) + Pending(s, u) + n
    && QueuedFor(z, u) + Pending(z, u) <= QueuedFor(s, u) + Pending(s, u) + n
  }

  lemma {:induction false} GoneServe(s: Sys, op: Op, u: Uid)
    requires Gone(s, u) && SysEnabled(s, Serve(op))
    ensures Gone(SysNext(s, Serve(op)), u)
    ensures OnlyOwnLists(s, SysNext(s, Serve(op)), u, OwnList(Serve(op), u))
  {
    var out := Apply(After(s.ops), op).out;
    Extend(s.ops, op);
    GoneStaysGone(After(s.ops), op, u);
    OnlyUsersAreAddressed(After(s.ops), op, u);
    TailGrows(Log(s.ops), out, |s.pool.pushed|, u);
  }

  lemma {:induction false} PushShifts(log: seq<SendPackage>, k: nat, queue: seq<SendPackage>, u: Uid)
    requires k < |log|
    ensures log[..k] + [log[k]] == log[..k + 1]
    ensures |ToSession(log[k..], u)| == |ToSession([log[k]], u)| + |ToSession(log[k + 1..], u)|
    ensures |ToSession(queue + [log[k]], u)| == |ToSession(queue, u)| + |ToSession([log[k]], u)|
  {
    assert log[k..] == [log[k]] + log[k + 1..];
    ToSessionConcat([log[k]], log[k + 1..], u);
    ToSessionConcat(queue, [log[k]], u);
  }

  lemma {:induction false} GonePush(s: Sys, u: Uid)
    requires Gone(s, u) && SysEnabled(s, PushNext)
    ensures Gone(SysNext(s, PushNext), u)
    ensures OnlyOwnLists(s, SysNext(s, PushNext), u, 0)
  {
    var log, k := Log(s.ops), |s.pool.pushed|;
    var z := SysNext(s, PushNext);
    assert s.pool.pushed == log[..k];
    assert z.ops == s.ops && z.pool.pushed == log[..k] + [log[k]];
    assert z.pool.queue == s.pool.queue + [log[k]];
    PushShifts(log, k, s.pool.queue, u);
    PushShifts(log, k, log[..k], u);
  }

  lemma {:induction false} GoneSender(s: Sys, step: SysStep, u: Uid)
    requires Gone(s, u) && SysEnabled(s, step) && (step.Sender? || step.CloseSenders?)
    ensures Gone(SysNext(s, step), u)
    ensures OnlyOwnLists(s, SysNext(s, step), u, 0)
  {
    SenderStep(s.pool, if step.Sender? then Advance(step.t) else Step<Packet>.Close);
    if s.pool.queue != [] {
      PopShrinks(s.pool.queue, u);
    }
  }

  /** A step that pushes nothing at most pops. */
  lemma {:induction false} SenderStep(s: Pool<Packet>, step: Step<Packet>)
    requires Enabled(s, step) && !step.Push?
    ensures Next(s, step).pushed == s.pushed
    ensures Next(s, step).queue == s.queue || (s.queue != [] && Next(s, step).queue == s.queue[1..])
  {
  }

  lemma {:induction false} PopShrinks(queue: seq<SendPackage>, u: Uid)
    requires queue != []
    ensures |ToSession(queue[1..], u)| <= |ToSession(queue, u)|
  {
    assert queue == [queue[0]] + queue[1..];
    ToSessionConcat([queue[0]], queue[1..], u);
  }

  lemma {:induction false} GoneStep(s: Sys, step: SysStep, u: Uid)
    requires Gone(s, u) && SysEnabled(s, step)
    ensures Gone(SysNext(s, step), u)
    ensures OnlyOwnLists(s, SysNext(s, step), u, OwnList(step, u))
  {
    if step.Serve? {
      GoneServe(s, step.op, u);
    } else if step.PushNext? {
      GonePush(s, u);
    } else {
      GoneSender(s, step, u);
    }
  }

  lemma {:induction false} GoneStaysGone(w: World, op: Op, u: Uid)
    requires Apply(w, op).Done? && u !in w.users && u < w.nextUid
    ensures u !in Apply(w, op).world.users && u < Apply(w, op).world.nextUid
  {
  }

  /** After a removal, over every continuation, the packages decided for the removed user's
      session number exactly its own room list requests that are still served: one request can
      outlive its user in the job queue, and it needs nothing of the session but the pointer. So
      without such a request the number of packages queued for the session never grows. */
  lemma {:induction false} RemovedHearOnlyLists(s: Sys, steps: seq<SysStep>, z: Sys, u: Uid)
    requires Gone(s, u) && SysLeads(s, steps, z)
    ensures Gone(z, u)
    ensures PushedFor(z, u) + Pending(z, u) == PushedFor(s, u) + Pending(s, u) + OwnLists(steps, u)
    ensures QueuedFor(z, u) + Pending(z, u) <= QueuedFor(s, u) + Pending(s, u) + OwnLists(steps, u)
    decreases |steps|
  {
    if steps != [] {
      GoneStep(s, steps[0], u);
      RemovedHearOnlyLists(SysNext(s, steps[0]), steps[1..], z, u);
    }
  }

  /** A removal that completes pushes nothing for the user it removes, and in a run without a
      `CrossEnter` it completes. */
  lemma {:induction false} RemovalSilences(s: Sys, op: Op)
    requires Run(s.ops) && s.pool.pushed <= Log(s.ops)
    requires (op.ServerExit? || op.Disconnect?) && op.uid in After(s.ops).users && Legal(After(s.ops), op)
    ensures NoCrossEnter(s.ops) ==> SysEnabled(s, Serve(op))
    ensures SysEnabled(s, Serve(op)) ==>
              && Gone(SysNext(s, Serve(op)), op.uid)
              && Pending(SysNext(s, Serve(op)), op.uid) == Pending(s, op.uid)
  {
    if NoCrossEnter(s.ops) {
      RemovalPurgesExactly(s.ops, op);
    }
    if SysEnabled(s, Serve(op)) {
      RunsKnowIds(s.ops);
      RemovedIsGone(After(s.ops), op);
      Extend(s.ops, op);
      RemovalOut(After(s.ops), op, op.uid);
      TailGrows(Log(s.ops), Apply(After(s.ops), op).out, |s.pool.pushed|, op.uid);
    }
  }

  lemma {:induction false} RemovedIsGone(w: World, op: Op)
    requires (op.ServerExit? || op.Disconnect?) && op.uid in w.users && IdsKnown(w) && Apply(w, op).Done?
    ensures op.uid !in Apply(w, op).world.users && op.uid < Apply(w, op).world.nextUid
  {
  }
}
