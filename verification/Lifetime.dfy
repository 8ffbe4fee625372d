/** Package.h: a packet sent to many is one object behind `shared_ptr`s, one of them in the
    function that fans it out, one in every package. The counts are kept here step by step as
    the pointers are copied and destroyed. */
module Lifetimes {
  import opened Options
  import opened Packages
  import opened Pools
  import opened Sequences

  /** A packet object, by identity. */
  type Handle = nat

  /** `refs` counts the references of every packet ever made; `makers` are the packets whose
      fan-out still runs; `freed` is history: the packets deleted, in order. */
  datatype Life = Life(pool: Pool<Handle>, refs: map<Handle, nat>, makers: set<Handle>, freed: seq<Handle>)

  datatype LifeStep =
    | Make(h: Handle)
    | PushOne(package: Package<Handle>)
    | Return(h: Handle)
    | Thread(t: nat)
    | Stop

  predicate Allowed(s: Life, step: LifeStep) {
    match step
    case Make(h) => h !in s.refs
    case PushOne(package) => package.packet.Some? && package.packet.value in s.makers && package.packet.value in s.refs
    case Return(h) => h in s.makers && h in s.refs && s.refs[h] > 0
    case Thread(t) =>
      && Enabled(s.pool, Advance(t))
      && (InHandOf(s.pool.threads[t]).Some? ==>
            var h := InHandOf(s.pool.threads[t]).value; h in s.refs && s.refs[h] > 0)
    case Stop => true
  }

  /** The packet a thread's local package refers to. */
  function InHandOf(pc: Pc<Handle>): Option<Handle> {
    if pc.Holding? then pc.package.packet else None
  }

  /** A reference goes away; the last one deletes the packet. */
  function Unref(s: Life, h: Handle): Life
    requires h in s.refs && s.refs[h] > 0
  {
    s.(refs := s.refs[h := s.refs[h] - 1], freed := if s.refs[h] == 1 then s.freed + [h] else s.freed)
  }

  function LifeNext(s: Life, step: LifeStep): Life
    requires Allowed(s, step)
  {
    match step
    case Make(h) => s.(refs := s.refs[h := 1], makers := s.makers + {h})
    case PushOne(package) =>
      var h := package.packet.value;
      s.(pool := Next(s.pool, Push(package)), refs := s.refs[h := s.refs[h] + 1])
    case Return(h) => Unref(s.(makers := s.makers - {h}), h)
    case Thread(t) =>
      var hand := InHandOf(s.pool.threads[t]);
      var s' := s.(pool := Next(s.pool, Advance(t)));
      if hand.Some? then Unref(s', hand.value) else s'
    case Stop => s.(pool := Next(s.pool, Close))
  }

  ghost predicate LifeLeads(s: Life, steps: seq<LifeStep>, z: Life)
    decreases |steps|
  {
    if steps == [] then s == z
    else Allowed(s, steps[0]) && LifeLeads(LifeNext(s, steps[0]), steps[1..], z)
  }

  function Birth(n: nat): Life {
    Life(Init(n), map[], {}, [])
  }

  ghost predicate Lives(n: nat, s: Life) {
    exists steps :: LifeLeads(Birth(n), steps, s)
  }

  /** How many of these packages refer to `h`. */
  function Waiting(queue: seq<Package<Handle>>, h: Handle): nat {
    if queue == [] then 0
    else Waiting(queue[..|queue| - 1], h) + if queue[|queue| - 1].packet == Some(h) then 1 else 0
  }

  /** How many threads hold a package that refers to `h`. */
  function Holders(threads: seq<Pc<Handle>>, h: Handle): nat {
    if threads == [] then 0
    else Holders(threads[..|threads| - 1], h) + if InHandOf(threads[|threads| - 1]) == Some(h) then 1 else 0
  }

  lemma {:induction false} WaitingPop(queue: seq<Package<Handle>>, h: Handle)
    requires queue != []
    ensures Waiting(queue, h) == Waiting(queue[1..], h) + if queue[0].packet == Some(h) then 1 else 0
  {
    var n := |queue| - 1;
    if n == 0 {
      assert queue[..n] == [] && queue[1..] == [];
    } else {
      WaitingPop(queue[..n], h);
      assert queue[..n][1..] == queue[1..][..n - 1];
    }
  }

  lemma {:induction false} HoldersUpdate(threads: seq<Pc<Handle>>, t: nat, pc: Pc<Handle>, h: Handle)
    requires t < |threads|
    ensures Holders(threads[t := pc], h) + (if InHandOf(threads[t]) == Some(h) then 1 else 0) ==
            Holders(threads, h) + (if InHandOf(pc) == Some(h) then 1 else 0)
  {
    var n := |threads| - 1;
    if t < n {
      HoldersUpdate(threads[..n], t, pc, h);
      assert threads[t := pc][..n] == threads[..n][t := pc];
    } else {
      assert threads[t := pc][..n] == threads[..n];
    }
  }

  lemma {:induction false} NobodyHolds(threads: seq<Pc<Handle>>, h: Handle)
    requires forall t :: 0 <= t < |threads| ==> threads[t] == AtTest
    ensures Holders(threads, h) == 0
  {
    if threads != [] {
      NobodyHolds(threads[..|threads| - 1], h);
    }
  }

  /** The references `h` ought to have. */
  function Owed(s: Life, h: Handle): nat {
    Waiting(s.pool.queue, h) + Holders(s.pool.threads, h) + if h in s.makers then 1 else 0
  }

  ghost predicate CountsAgree(s: Life) {
    forall h :: Owed(s, h) == if h in s.refs then s.refs[h] else 0
  }

  ghost predicate FreedAgrees(s: Life) {
    && (forall h :: h in s.freed <==> h in s.refs && s.refs[h] == 0)
    && Distinct(s.freed)
  }

  lemma OwedAfterThread(s: Life, t: nat, h: Handle)
    requires Allowed(s, Thread(t))
    ensures Owed(LifeNext(s, Thread(t)), h) + (if InHandOf(s.pool.threads[t]) == Some(h) then 1 else 0) == Owed(s, h)
  {
    var z := Next(s.pool, Advance(t));
    HoldersUpdate(s.pool.threads, t, z.threads[t], h);
    if s.pool.threads[t].AtPop? && s.pool.queue != [] {
      WaitingPop(s.pool.queue, h);
    }
  }

  lemma OwedAfterPush(s: Life, package: Package<Handle>, h: Handle)
    requires Allowed(s, PushOne(package))
    ensures Owed(LifeNext(s, PushOne(package)), h) == Owed(s, h) + if package.packet == Some(h) then 1 else 0
  {
    var queue := s.pool.queue;
    assert (queue + [package])[..|queue|] == queue;
  }

  lemma CountsStep(s: Life, step: LifeStep)
    requires CountsAgree(s) && Allowed(s, step)
    ensures CountsAgree(LifeNext(s, step))
  {
    var z := LifeNext(s, step);
    forall h
      ensures Owed(z, h) == if h in z.refs then z.refs[h] else 0
    {
      assert Owed(s, h) == if h in s.refs then s.refs[h] else 0;
      match step {
        case Thread(t) => OwedAfterThread(s, t, h);
        case PushOne(package) => OwedAfterPush(s, package, h);
        case _ =>
      }
    }
  }

  lemma UnrefFreed(s: Life, h: Handle)
    requires FreedAgrees(s) && h in s.refs && s.refs[h] > 0
    ensures FreedAgrees(Unref(s, h))
  {
    assert h !in s.freed;
  }

  lemma FreedStep(s: Life, step: LifeStep)
    requires CountsAgree(s) && FreedAgrees(s) && Allowed(s, step)
    ensures FreedAgrees(LifeNext(s, step))
  {
    match step {
      case Return(h) => UnrefFreed(s.(makers := s.makers - {h}), h);
      case Thread(t) =>
        if InHandOf(s.pool.threads[t]).Some? {
          UnrefFreed(s.(pool := Next(s.pool, Advance(t))), InHandOf(s.pool.threads[t]).value);
        }
      case PushOne(package) => assert Owed(s, package.packet.value) > 0;
      case _ =>
    }
  }

  lemma {:induction false} LifeLeadsAgrees(s: Life, steps: seq<LifeStep>, z: Life)
    requires CountsAgree(s) && FreedAgrees(s) && LifeLeads(s, steps, z)
    ensures CountsAgree(z) && FreedAgrees(z)
    decreases |steps|
  {
    if steps != [] {
      CountsStep(s, steps[0]);
      FreedStep(s, steps[0]);
      LifeLeadsAgrees(LifeNext(s, steps[0]), steps[1..], z);
    }
  }

  lemma LivesAgrees(n: nat, s: Life)
    requires Lives(n, s)
    ensures CountsAgree(s) && FreedAgrees(s)
  {
    forall h
      ensures Owed(Birth(n), h) == 0
    {
      NobodyHolds(Birth(n).pool.threads, h);
    }
    var steps :| LifeLeads(Birth(n), steps, s);
    LifeLeadsAgrees(Birth(n), steps, s);
  }

  /** Once its fan-out has returned, a packet has as many references as packages still queued
      or in a thread's hand; it is deleted exactly when the last of these is done, and once. */
  lemma FreedExactlyWhenDone(n: nat, s: Life, h: Handle)
    requires Lives(n, s) && h in s.refs && h !in s.makers
    ensures s.refs[h] == Waiting(s.pool.queue, h) + Holders(s.pool.threads, h)
    ensures h in s.freed <==> Waiting(s.pool.queue, h) == 0 && Holders(s.pool.threads, h) == 0
    ensures Distinct(s.freed)
  {
    LivesAgrees(n, s);
    assert Owed(s, h) == s.refs[h];
  }

  /** No thread ever sends a deleted packet, and none of the counts it goes through is wrong: a
      thread that has not exited can always take its next step. */
  lemma NothingSentAfterDeletion(n: nat, s: Life, t: nat)
    requires Lives(n, s) && t < |s.pool.threads| && !s.pool.threads[t].Exited?
    ensures Allowed(s, Thread(t))
    ensures InHandOf(s.pool.threads[t]).Some? ==> InHandOf(s.pool.threads[t]).value !in s.freed
  {
    LivesAgrees(n, s);
    if InHandOf(s.pool.threads[t]).Some? {
      var h := InHandOf(s.pool.threads[t]).value;
      SomebodyHolds(s.pool.threads, t, h);
      assert Owed(s, h) > 0;
    }
  }

  lemma {:induction false} SomebodyHolds(threads: seq<Pc<Handle>>, t: nat, h: Handle)
    requires t < |threads| && InHandOf(threads[t]) == Some(h)
    ensures Holders(threads, h) > 0
  {
    if t < |threads| - 1 {
      SomebodyHolds(threads[..|threads| - 1], t, h);
    }
  }
}
