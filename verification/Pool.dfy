/** Package.h: what waits in a queue. `SendPackage` and `RecvPackage` differ only in how the
    packet is owned. */
module Packages {
  import opened Options
  import opened Bytes

  datatype Package<+P> = Package(session: Option<U32>, packet: Option<P>) {
    predicate Empty() {
      session.None? || packet.None?
    }
  }

  /** The package a pop returns when the queue is empty. */
  function Sentinel<P>(): Package<P> {
    Package(None, None)
  }

  /** `PopPackage`: the package returned and the queue left. */
  function Pop<P>(queue: seq<Package<P>>): (Package<P>, seq<Package<P>>) {
    if queue == [] then (Sentinel(), []) else (queue[0], queue[1..])
  }

  /** The packages a thread acts on, in order. */
  function NonEmpty<P>(ps: seq<Package<P>>): (r: seq<Package<P>>)
    ensures |r| <= |ps|
  {
    if ps == [] then []
    else NonEmpty(ps[..|ps| - 1]) + (if ps[|ps| - 1].Empty() then [] else [ps[|ps| - 1]])
  }

  lemma NonEmptyOneMore<P>(ps: seq<Package<P>>, k: nat)
    requires k < |ps|
    ensures NonEmpty(ps[..k + 1]) == NonEmpty(ps[..k]) + if ps[k].Empty() then [] else [ps[k]]
  {
    assert ps[..k + 1][..k] == ps[..k];
  }
}

/** N threads running one loop over one shared queue, as in SendServer.h and LogicProcess.h:
    test the flag, pop, handle what was popped unless it is empty. */
module Pools {
  import opened Options
  import opened Sequences
  import opened Packages

  /** Where a thread is. `slot` is history: the position in `pushed` of the package it holds,
      `None` for the sentinel. */
  datatype Pc<P> =
    | AtTest
    | AtPop
    | Holding(package: Package<P>, slot: Option<nat>)
    | Exited

  /** `running`, `queue` and `threads` are the program's state. `pushed`, `handled` (with the
      packages as they were handled) and `dropped` are history, the last two as positions in
      `pushed`. */
  datatype Pool<P> = Pool(
    running: bool,
    queue: seq<Package<P>>,
    threads: seq<Pc<P>>,
    pushed: seq<Package<P>>,
    handled: seq<nat>,
    done: seq<Package<P>>,
    dropped: seq<nat>)

  datatype Step<P> = Push(package: Package<P>) | Advance(t: nat) | Close

  function Init<P>(n: nat): Pool<P> {
    Pool(true, [], seq(n, _ => AtTest), [], [], [], [])
  }

  predicate Enabled<P>(s: Pool<P>, step: Step<P>) {
    step.Advance? ==> step.t < |s.threads| && !s.threads[step.t].Exited?
  }

  function Next<P>(s: Pool<P>, step: Step<P>): Pool<P>
    requires Enabled(s, step)
  {
    match step
    case Push(package) => s.(queue := s.queue + [package], pushed := s.pushed + [package])
    case Close => s.(running := false)
    case Advance(t) =>
      match s.threads[t]
      case AtTest => s.(threads := s.threads[t := if s.running then AtPop else Exited])
      case AtPop =>
        var (package, rest) := Pop(s.queue);
        var at := |s.pushed| - |s.queue|;
        var slot := if s.queue == [] || at < 0 then None else Some(at);
        s.(queue := rest, threads := s.threads[t := Holding(package, slot)])
      case Holding(package, slot) =>
        var s' := s.(threads := s.threads[t := AtTest]);
        if slot.None? then s'
        else if package.Empty() then s'.(dropped := s.dropped + [slot.value])
        else s'.(handled := s.handled + [slot.value], done := s.done + [package])
  }

  /** `steps` leads from `s` to `z`. */
  ghost predicate Leads<P(!new)>(s: Pool<P>, steps: seq<Step<P>>, z: Pool<P>)
    decreases |steps|
  {
    if steps == [] then s == z
    else Enabled(s, steps[0]) && Leads(Next(s, steps[0]), steps[1..], z)
  }

  ghost predicate Reachable<P(!new)>(n: nat, s: Pool<P>) {
    exists steps :: Leads(Init(n), steps, s)
  }

  // ---- The invariant: every package that left the queue has exactly one fate ----

  function Popped<P>(s: Pool<P>): int {
    |s.pushed| - |s.queue|
  }

  predicate Holds<P>(pc: Pc<P>, i: nat) {
    pc.Holding? && pc.slot == Some(i)
  }

  ghost predicate QueueIsTail<P>(s: Pool<P>) {
    0 <= Popped(s) && s.queue == s.pushed[Popped(s)..]
  }

  ghost predicate HeldMatches<P>(s: Pool<P>)
    requires QueueIsTail(s)
  {
    forall t :: 0 <= t < |s.threads| && s.threads[t].Holding? ==>
      match s.threads[t].slot
      case None => s.threads[t].package == Sentinel()
      case Some(i) => i < Popped(s) && s.threads[t].package == s.pushed[i]
                      && i !in s.handled && i !in s.dropped
  }

  ghost predicate HeldOnce<P>(s: Pool<P>) {
    forall t, u, i {:trigger Holds(s.threads[t], i), Holds(s.threads[u], i)} |
      0 <= t < |s.threads| && 0 <= u < |s.threads| ::
      (Holds(s.threads[t], i) && Holds(s.threads[u], i) ==> t == u)
  }

  ghost predicate HandledMatches<P>(s: Pool<P>)
    requires QueueIsTail(s)
  {
    && |s.done| == |s.handled| && Distinct(s.handled)
    && forall k :: 0 <= k < |s.handled| ==>
         s.handled[k] < Popped(s) && s.done[k] == s.pushed[s.handled[k]] && !s.done[k].Empty()
  }

  ghost predicate DroppedMatches<P>(s: Pool<P>)
    requires QueueIsTail(s)
  {
    && Distinct(s.dropped)
    && forall k :: 0 <= k < |s.dropped| ==>
         s.dropped[k] < Popped(s) && s.pushed[s.dropped[k]].Empty() && s.dropped[k] !in s.handled
  }

  ghost predicate Held<P>(s: Pool<P>, i: nat) {
    exists t :: 0 <= t < |s.threads| && Holds(s.threads[t], i)
  }

  ghost predicate NoneLost<P>(s: Pool<P>) {
    forall i: nat :: i < Popped(s) ==> i in s.handled || i in s.dropped || Held(s, i)
  }

  ghost predicate Inv<P>(s: Pool<P>) {
    && QueueIsTail(s)
    && HeldMatches(s) && HeldOnce(s)
    && HandledMatches(s) && DroppedMatches(s)
    && NoneLost(s)
  }

  lemma InitInv<P>(n: nat)
    ensures Inv(Init<P>(n))
  {
  }

  lemma PushInv<P>(s: Pool<P>, package: Package<P>)
    requires Inv(s)
    ensures Inv(Next(s, Push(package)))
  {
    var s' := Next(s, Push(package));
    assert forall i :: Held(s, i) ==> Held(s', i);
  }

  lemma PopInv<P>(s: Pool<P>, t: nat)
    requires Inv(s) && t < |s.threads| && s.threads[t].AtPop?
    ensures Inv(Next(s, Advance(t)))
  {
    var s' := Next(s, Advance(t));
    forall i: nat | i < Popped(s') && i !in s'.handled && i !in s'.dropped
      ensures Held(s', i)
    {
      if i < Popped(s) {
        var u :| 0 <= u < |s.threads| && Holds(s.threads[u], i);
        assert Holds(s'.threads[u], i);
      } else {
        assert Holds(s'.threads[t], i);
      }
    }
  }

  /** A step that neither pops nor settles anything. */
  lemma IdleInv<P>(s: Pool<P>, t: nat)
    requires Inv(s) && t < |s.threads|
    requires s.threads[t].AtTest? || (s.threads[t].Holding? && s.threads[t].slot.None?)
    ensures Inv(Next(s, Advance(t)))
  {
    var s' := Next(s, Advance(t));
    forall i | Held(s, i)
      ensures Held(s', i)
    {
      var u :| 0 <= u < |s.threads| && Holds(s.threads[u], i);
      assert Holds(s'.threads[u], i);
    }
  }

  lemma SettleInv<P>(s: Pool<P>, t: nat)
    requires Inv(s) && t < |s.threads| && s.threads[t].Holding? && s.threads[t].slot.Some?
    ensures Inv(Next(s, Advance(t)))
  {
    var s' := Next(s, Advance(t));
    var i := s.threads[t].slot.value;
    assert Holds(s.threads[t], i);
    assert i in s'.handled || i in s'.dropped by {
      assert if s.threads[t].package.Empty()
        then s'.dropped[|s.dropped|] == i else s'.handled[|s.handled|] == i;
    }
    assert forall j: nat :: j in s'.handled <==> j in s.handled || (j == i && !s.pushed[i].Empty());
    assert forall j: nat :: j in s'.dropped <==> j in s.dropped || (j == i && s.pushed[i].Empty());
    forall j: nat | j < Popped(s') && j !in s'.handled && j !in s'.dropped
      ensures Held(s', j)
    {
      var u :| 0 <= u < |s.threads| && Holds(s.threads[u], j);
      assert Holds(s'.threads[u], j);
    }
    SettleHeld(s, t, i);
  }

  lemma SettleHeld<P>(s: Pool<P>, t: nat, i: nat)
    requires Inv(s) && t < |s.threads| && Holds(s.threads[t], i)
    ensures var s' := Next(s, Advance(t)); QueueIsTail(s') && HeldMatches(s') && HeldOnce(s')
  {
    var s' := Next(s, Advance(t));
    forall u | 0 <= u < |s'.threads| && s'.threads[u].Holding? && s'.threads[u].slot.Some?
      ensures s'.threads[u].slot.value != i
    {
      assert u != t && Holds(s.threads[u], s.threads[u].slot.value);
    }
  }

  lemma NextInv<P>(s: Pool<P>, step: Step<P>)
    requires Inv(s) && Enabled(s, step)
    ensures Inv(Next(s, step))
  {
    match step {
      case Push(package) => PushInv(s, package);
      case Close =>
        assert forall i :: Held(s, i) ==> Held(Next(s, step), i);
      case Advance(t) =>
        if s.threads[t].AtPop? {
          PopInv(s, t);
        } else if s.threads[t].Holding? && s.threads[t].slot.Some? {
          SettleInv(s, t);
        } else {
          IdleInv(s, t);
        }
    }
  }

  lemma {:induction false} LeadsInv<P(!new)>(s: Pool<P>, steps: seq<Step<P>>, z: Pool<P>)
    requires Inv(s) && Leads(s, steps, z)
    ensures Inv(z) && |z.threads| == |s.threads|
    decreases |steps|
  {
    if steps != [] {
      NextInv(s, steps[0]);
      LeadsInv(Next(s, steps[0]), steps[1..], z);
    }
  }

  lemma ReachableInv<P(!new)>(n: nat, s: Pool<P>)
    requires Reachable(n, s)
    ensures Inv(s) && |s.threads| == n
  {
    var steps :| Leads(Init(n), steps, s);
    InitInv<P>(n);
    LeadsInv(Init(n), steps, s);
  }

  // ---- Bounded reordering ----

  /** The packages pushed before position `i` that have not been handled or dropped yet. */
  ghost function Overtaken<P>(s: Pool<P>, i: nat): set<nat> {
    set j: nat | j < i && j !in s.handled && j !in s.dropped
  }

  ghost function Slots<P>(threads: seq<Pc<P>>): (r: set<nat>)
    ensures |r| <= |threads|
    ensures forall t, i :: 0 <= t < |threads| && Holds(threads[t], i) ==> i in r
  {
    if threads == [] then {}
    else
      var last := threads[|threads| - 1];
      var r := Slots(threads[..|threads| - 1]);
      if last.Holding? && last.slot.Some? then r + {last.slot.value} else r
  }

  /** Whenever a thread is about to handle the package at position `i`, at most N - 1 earlier
      packages are still unhandled: only the other threads can be sitting on one. */
  lemma BoundedReordering<P(!new)>(n: nat, s: Pool<P>, t: nat, i: nat)
    requires Reachable(n, s) && t < n
    requires t < |s.threads| && Holds(s.threads[t], i)
    ensures |Overtaken(s, i)| <= n - 1
  {
    ReachableInv(n, s);
    var others := s.threads[..t] + s.threads[t + 1..];
    forall j | j in Overtaken(s, i)
      ensures j in Slots(others)
    {
      assert Held(s, j);
      var u :| 0 <= u < |s.threads| && Holds(s.threads[u], j);
      assert u != t;
      assert others[if u < t then u else u - 1] == s.threads[u];
    }
    SubsetSize(Overtaken(s, i), Slots(others));
  }

  lemma {:induction false} SubsetSize(a: set<nat>, b: set<nat>)
    requires a <= b
    ensures |a| <= |b|
  {
    if a != {} {
      var x :| x in a;
      SubsetSize(a - {x}, b - {x});
    }
  }

  lemma {:induction false} LeadsConcat<P(!new)>(s: Pool<P>, a: seq<Step<P>>, m: Pool<P>, b: seq<Step<P>>, z: Pool<P>)
    requires Leads(s, a, m) && Leads(m, b, z)
    ensures Leads(s, a + b, z)
    decreases |a|
  {
    if a == [] {
      assert a + b == b;
    } else {
      assert (a + b)[0] == a[0] && (a + b)[1..] == a[1..] + b;
      LeadsConcat(Next(s, a[0]), a[1..], m, b, z);
    }
  }

  /** The pool in which the first `k` of `n` threads sit on one package each. */
  function Loaded<P>(n: nat, k: nat, p: Package<P>): Pool<P>
    requires k <= n
  {
    Pool(true, [], seq(n, (i: nat) => if i < k then Holding(p, Some(i)) else AtTest),
         seq(k, _ => p), [], [], [])
  }

  lemma {:induction false} LoadedIsReached<P(!new)>(n: nat, k: nat, p: Package<P>) returns (steps: seq<Step<P>>)
    requires k <= n
    ensures Leads(Init(n), steps, Loaded(n, k, p))
  {
    if k == 0 {
      steps := [];
      assert Init<P>(n).threads == Loaded(n, 0, p).threads;
      assert Init<P>(n).pushed == Loaded(n, 0, p).pushed;
    } else {
      var before := LoadedIsReached(n, k - 1, p);
      var s := Loaded(n, k - 1, p);
      var more := [Push(p), Advance(k - 1), Advance(k - 1)];
      var s1 := Next(s, more[0]);
      var s2 := Next(s1, more[1]);
      var s3 := Next(s2, more[2]);
      assert s3.threads == Loaded(n, k, p).threads;
      assert s3.pushed == Loaded(n, k, p).pushed;
      assert Leads(s3, more[3..], s3);
      assert more[2..][1..] == more[3..] && Leads(s2, more[2..], s3);
      assert more[1..][1..] == more[2..] && Leads(s1, more[1..], s3);
      LeadsConcat(Init(n), before, s, more, s3);
      steps := before + more;
    }
  }

  /** The bound is tight for every number of threads. */
  lemma ReorderingBoundIsTight<P(!new)>(n: nat, p: Package<P>) returns (s: Pool<P>)
    requires n > 0
    ensures Reachable(n, s) && |s.threads| == n && Holds(s.threads[n - 1], n - 1)
    ensures |Overtaken(s, n - 1)| == n - 1
  {
    s := Loaded(n, n, p);
    var steps := LoadedIsReached(n, n, p);
    assert Overtaken(s, n - 1) == Below(n - 1);
  }

  ghost function Below(k: nat): (r: set<nat>)
    ensures |r| == k && forall j: nat :: j in r <==> j < k
  {
    if k == 0 then {} else Below(k - 1) + {k - 1}
  }

  // ---- One thread: first in, first out ----

  /** How many packages the only thread has popped and finished with. */
  function Settled<P>(s: Pool<P>): int
    requires |s.threads| == 1
  {
    Popped(s) - (if s.threads[0].Holding? && s.threads[0].slot.Some? then 1 else 0)
  }

  ghost predicate InOrder<P>(s: Pool<P>) {
    && |s.threads| == 1 && QueueIsTail(s) && 0 <= Settled(s)
    && (s.threads[0].Holding? ==>
          match s.threads[0].slot
          case None => true
          case Some(i) => i == Popped(s) - 1 && s.threads[0].package == s.pushed[i])
    && s.done == NonEmpty(s.pushed[..Settled(s)])
  }

  lemma InitInOrder<P>()
    ensures InOrder(Init<P>(1))
  {
  }

  lemma PushInOrder<P>(s: Pool<P>, package: Package<P>)
    requires InOrder(s)
    ensures InOrder(Next(s, Push(package)))
  {
    var s' := Next(s, Push(package));
    assert s'.pushed[..Settled(s)] == s.pushed[..Settled(s)];
  }

  lemma AdvanceInOrder<P>(s: Pool<P>)
    requires InOrder(s) && !s.threads[0].Exited?
    ensures InOrder(Next(s, Advance(0)))
  {
    var s' := Next(s, Advance(0));
    match s.threads[0] {
      case AtTest =>
      case AtPop => assert Settled(s') == Settled(s);
      case Holding(package, slot) =>
        if slot.Some? {
          NonEmptyOneMore(s.pushed, Settled(s));
          assert s.done + [] == s.done;
        }
    }
  }

  lemma NextInOrder<P>(s: Pool<P>, step: Step<P>)
    requires InOrder(s) && Enabled(s, step)
    ensures InOrder(Next(s, step))
  {
    match step {
      case Push(package) => PushInOrder(s, package);
      case Close =>
      case Advance(_) => AdvanceInOrder(s);
    }
  }

  lemma {:induction false} LeadsInOrder<P(!new)>(s: Pool<P>, steps: seq<Step<P>>, z: Pool<P>)
    requires InOrder(s) && Leads(s, steps, z)
    ensures InOrder(z)
    decreases |steps|
  {
    if steps != [] {
      NextInOrder(s, steps[0]);
      LeadsInOrder(Next(s, steps[0]), steps[1..], z);
    }
  }

  /** One thread handles the non-empty packages in exactly the order they were pushed. */
  lemma OneThreadIsFifo<P(!new)>(s: Pool<P>)
    requires Reachable(1, s)
    ensures |s.threads| == 1 && 0 <= Settled(s) <= |s.pushed|
    ensures s.done == NonEmpty(s.pushed[..Settled(s)])
  {
    InitInOrder<P>();
    var steps :| Leads(Init(1), steps, s);
    LeadsInOrder(Init(1), steps, s);
  }

  // ---- Conservation ----

  ghost function InHand<P>(pc: Pc<P>): multiset<Package<P>> {
    if pc.Holding? && pc.slot.Some? then multiset{pc.package} else multiset{}
  }

  ghost function InFlight<P>(threads: seq<Pc<P>>): multiset<Package<P>> {
    if threads == [] then multiset{}
    else InFlight(threads[..|threads| - 1]) + InHand(threads[|threads| - 1])
  }

  /** The packages at the given positions. */
  function Picked<P>(pushed: seq<Package<P>>, at: seq<nat>): (r: seq<Package<P>>)
    ensures |r| == |at|
  {
    seq(|at|, k requires 0 <= k < |at| => if at[k] < |pushed| then pushed[at[k]] else Sentinel())
  }

  function One<P(==)>(pc: Pc<P>, x: Package<P>): nat {
    if pc.Holding? && pc.slot.Some? && pc.package == x then 1 else 0
  }

  /** How often `x` is in a thread's hand. */
  function InFlightCount<P(==)>(threads: seq<Pc<P>>, x: Package<P>): nat {
    if threads == [] then 0
    else InFlightCount(threads[..|threads| - 1], x) + One(threads[|threads| - 1], x)
  }

  lemma {:induction false} InFlightCounts<P>(threads: seq<Pc<P>>, x: Package<P>)
    ensures InFlight(threads)[x] == InFlightCount(threads, x)
  {
    if threads != [] {
      InFlightCounts(threads[..|threads| - 1], x);
    }
  }

  ghost function Times<P>(ps: seq<Package<P>>, x: Package<P>): nat {
    multiset(ps)[x]
  }

  /** Conservation, for one package value. */
  ghost predicate Conserved<P>(s: Pool<P>, x: Package<P>) {
    Times(s.pushed, x) == Times(s.done, x) + InFlightCount(s.threads, x)
                          + Times(Picked(s.pushed, s.dropped), x) + Times(s.queue, x)
  }

  lemma {:induction false} InFlightUpdate<P>(threads: seq<Pc<P>>, t: nat, pc: Pc<P>, x: Package<P>)
    requires t < |threads|
    ensures InFlightCount(threads[t := pc], x) + One(threads[t], x) == InFlightCount(threads, x) + One(pc, x)
  {
    var n := |threads| - 1;
    if t < n {
      InFlightUpdate(threads[..n], t, pc, x);
      assert threads[t := pc][..n] == threads[..n][t := pc];
    } else {
      assert threads[t := pc][..n] == threads[..n];
    }
  }

  lemma {:induction false} NothingInFlight<P>(threads: seq<Pc<P>>)
    requires forall t :: 0 <= t < |threads| ==> !threads[t].Holding?
    ensures InFlight(threads) == multiset{}
  {
    if threads != [] {
      NothingInFlight(threads[..|threads| - 1]);
    }
  }

  lemma PopConserved<P>(s: Pool<P>, t: nat, x: Package<P>)
    requires Inv(s) && Conserved(s, x) && t < |s.threads| && s.threads[t].AtPop?
    ensures Conserved(Next(s, Advance(t)), x)
  {
    var s' := Next(s, Advance(t));
    InFlightUpdate(s.threads, t, s'.threads[t], x);
    if s.queue != [] {
      assert s.queue == [s.queue[0]] + s.queue[1..];
    }
  }

  lemma HandleConserved<P>(s: Pool<P>, t: nat, x: Package<P>)
    requires Conserved(s, x) && t < |s.threads|
    requires s.threads[t].Holding? && (s.threads[t].slot.None? || !s.threads[t].package.Empty())
    ensures Conserved(Next(s, Advance(t)), x)
  {
    InFlightUpdate(s.threads, t, AtTest, x);
  }

  lemma DropConserved<P>(s: Pool<P>, t: nat, x: Package<P>)
    requires Inv(s) && Conserved(s, x) && t < |s.threads|
    requires s.threads[t].Holding? && s.threads[t].slot.Some? && s.threads[t].package.Empty()
    ensures Conserved(Next(s, Advance(t)), x)
  {
    InFlightUpdate(s.threads, t, AtTest, x);
    var pc := s.threads[t];
    assert Picked(s.pushed, s.dropped + [pc.slot.value]) == Picked(s.pushed, s.dropped) + [pc.package];
  }

  lemma NextConserved<P>(s: Pool<P>, step: Step<P>, x: Package<P>)
    requires Inv(s) && Conserved(s, x) && Enabled(s, step)
    ensures Conserved(Next(s, step), x)
  {
    var s' := Next(s, step);
    match step {
      case Push(package) =>
        assert Picked(s'.pushed, s'.dropped) == Picked(s.pushed, s.dropped);
      case Close =>
      case Advance(t) =>
        match s.threads[t] {
          case AtTest => InFlightUpdate(s.threads, t, s'.threads[t], x);
          case AtPop => PopConserved(s, t, x);
          case Holding(package, slot) =>
            if slot.Some? && package.Empty() {
              DropConserved(s, t, x);
            } else {
              HandleConserved(s, t, x);
            }
        }
    }
  }

  lemma {:induction false} LeadsConserved<P(!new)>(s: Pool<P>, steps: seq<Step<P>>, z: Pool<P>, x: Package<P>)
    requires Inv(s) && Conserved(s, x) && Leads(s, steps, z)
    ensures Conserved(z, x)
    decreases |steps|
  {
    if steps != [] {
      NextInv(s, steps[0]);
      NextConserved(s, steps[0], x);
      LeadsConserved(Next(s, steps[0]), steps[1..], z, x);
    }
  }

  /** At every moment the pushed packages are those handled, in a thread's hand, dropped as
      empty, or still queued; nothing is handled twice, and nothing empty is handled. */
  lemma Conservation<P(!new)>(n: nat, s: Pool<P>)
    requires Reachable(n, s)
    ensures multiset(s.pushed) == multiset(s.done) + InFlight(s.threads)
                                  + multiset(Picked(s.pushed, s.dropped)) + multiset(s.queue)
    ensures Distinct(s.handled) && |s.done| == |s.handled|
    ensures forall k :: 0 <= k < |s.done| ==> s.handled[k] < |s.pushed|
                                              && s.done[k] == s.pushed[s.handled[k]] && !s.done[k].Empty()
    ensures forall k :: 0 <= k < |s.dropped| ==> s.dropped[k] < |s.pushed| && s.pushed[s.dropped[k]].Empty()
  {
    var steps :| Leads(Init(n), steps, s);
    InitInv<P>(n);
    NothingInFlight(Init<P>(n).threads);
    LeadsInv(Init(n), steps, s);
    forall x
      ensures Conserved(s, x) && InFlight(s.threads)[x] == InFlightCount(s.threads, x)
    {
      InFlightCounts(Init<P>(n).threads, x);
      LeadsConserved(Init(n), steps, s, x);
      InFlightCounts(s.threads, x);
    }
  }

  // ---- Shutdown ----

  /** Every package sent has a session and a packet, so no thread goes through a null pointer, and
      only packages that lack one of them are passed over. */
  lemma SentAreComplete<P(!new)>(n: nat, s: Pool<P>)
    requires Reachable(n, s)
    ensures forall k :: 0 <= k < |s.done| ==> s.done[k].session.Some? && s.done[k].packet.Some?
    ensures forall k :: 0 <= k < |s.dropped| ==>
              s.dropped[k] < |s.pushed|
              && (s.pushed[s.dropped[k]].session.None? || s.pushed[s.dropped[k]].packet.None?)
  {
    ReachableInv(n, s);
  }

  /** How many steps a thread can still take once the flag is down. */
  function StepsLeft<P>(pc: Pc<P>): nat {
    match pc
    case AtPop => 3
    case Holding(_, _) => 2
    case AtTest => 1
    case Exited => 0
  }

  function Remaining<P>(threads: seq<Pc<P>>): nat {
    if threads == [] then 0
    else Remaining(threads[..|threads| - 1]) + StepsLeft(threads[|threads| - 1])
  }

  lemma {:induction false} RemainingUpdate<P>(threads: seq<Pc<P>>, t: nat, pc: Pc<P>)
    requires t < |threads|
    ensures Remaining(threads[t := pc]) + StepsLeft(threads[t]) == Remaining(threads) + StepsLeft(pc)
  {
    var n := |threads| - 1;
    if t < n {
      RemainingUpdate(threads[..n], t, pc);
      assert threads[t := pc][..n] == threads[..n][t := pc];
    } else {
      assert threads[t := pc][..n] == threads[..n];
    }
  }

  lemma {:induction false} RemainingBounds<P>(threads: seq<Pc<P>>)
    ensures Remaining(threads) <= 3 * |threads|
    ensures Remaining(threads) == 0 <==> forall t :: 0 <= t < |threads| ==> threads[t].Exited?
  {
    if threads != [] {
      RemainingBounds(threads[..|threads| - 1]);
      assert forall t :: 0 <= t < |threads| - 1 ==> threads[t] == threads[..|threads| - 1][t];
    }
  }

  /** The number of thread steps among `steps`. */
  function ThreadSteps<P>(steps: seq<Step<P>>): nat {
    if steps == [] then 0 else (if steps[0].Advance? then 1 else 0) + ThreadSteps(steps[1..])
  }

  /** Once the flag is down every thread step uses up the measure exactly, whatever is
      pushed meanwhile: all threads exit after `Remaining` more of them, and never later. */
  lemma {:induction false} ShutdownTerminates<P(!new)>(s: Pool<P>, steps: seq<Step<P>>, z: Pool<P>)
    requires !s.running && Leads(s, steps, z)
    ensures !z.running && Remaining(z.threads) + ThreadSteps(steps) == Remaining(s.threads)
    ensures ThreadSteps(steps) <= 3 * |s.threads|
    ensures ThreadSteps(steps) == Remaining(s.threads) <==>
            forall t :: 0 <= t < |z.threads| ==> z.threads[t].Exited?
    decreases |steps|
  {
    RemainingBounds(s.threads);
    RemainingBounds(z.threads);
    if steps != [] {
      var m := Next(s, steps[0]);
      if steps[0].Advance? {
        RemainingUpdate(s.threads, steps[0].t, m.threads[steps[0].t]);
      }
      ShutdownTerminates(m, steps[1..], z);
    }
  }

  /** When `Close` has joined the threads, every package that was popped has been handled or
      was empty; all the others are still in the queue. */
  lemma NothingLostByShutdown<P(!new)>(n: nat, s: Pool<P>)
    requires Reachable(n, s)
    requires forall t :: 0 <= t < |s.threads| ==> s.threads[t].Exited?
    ensures multiset(s.pushed) ==
            multiset(s.done) + multiset(Picked(s.pushed, s.dropped)) + multiset(s.queue)
    ensures forall i: nat :: i < |s.pushed| - |s.queue| ==> i in s.handled || i in s.dropped
  {
    Conservation(n, s);
    ReachableInv(n, s);
    NothingInFlight(s.threads);
    assert forall i :: !Held(s, i);
  }

  // ---- One pass of the loop ----

  /** Three steps of one thread with nobody in between: it pops at most one package and acts on
      it unless it is empty. This is what the loops of SendServer.h and LogicProcess.h do. */
  lemma PassIsARun<P(!new)>(s: Pool<P>, t: nat) returns (z: Pool<P>)
    requires s.running && t < |s.threads| && s.threads[t].AtTest? && |s.queue| <= |s.pushed|
    ensures Leads(s, [Advance(t), Advance(t), Advance(t)], z)
    ensures (z.running, z.threads, z.pushed) == (s.running, s.threads, s.pushed)
    ensures z.queue == Pop(s.queue).1
    ensures z.done == s.done + if Pop(s.queue).0.Empty() then [] else [Pop(s.queue).0]
  {
    var one := [Advance(t)];
    var two := [Advance(t), Advance(t)];
    var three := [Advance(t), Advance(t), Advance(t)];
    var a := Next(s, Advance(t));
    var b := Next(a, Advance(t));
    z := Next(b, Advance(t));
    assert three[1..] == two && two[1..] == one && one[1..] == [];
    assert Leads(z, one[1..], z);
    assert Leads(b, two[1..], z);
    assert Leads(a, three[1..], z);
    assert z.threads == s.threads;
  }
}
