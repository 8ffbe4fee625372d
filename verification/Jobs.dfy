/** The job queue of LogicProcess: received packets are owned by raw pointers, deleted by the
    thread that processes them or by the draining destructor. */
module Jobs {
  import opened Options
  import opened Packages
  import opened Pools

  /** A packet pointer, by address. */
  type Pointer = nat
  type RecvPackage = Package<Pointer>

  /** The non-null packet pointers of some packages, in order. */
  function PointersOf(ps: seq<RecvPackage>): seq<Pointer> {
    if ps == [] then []
    else PointersOf(ps[..|ps| - 1])
         + if ps[|ps| - 1].packet.Some? then [ps[|ps| - 1].packet.value] else []
  }

  lemma {:induction false} PointersConcat(a: seq<RecvPackage>, b: seq<RecvPackage>)
    ensures PointersOf(a + b) == PointersOf(a) + PointersOf(b)
  {
    if b == [] {
      assert a + b == a;
    } else {
      var n := |b| - 1;
      assert (a + b)[..|a + b| - 1] == a + b[..n];
      PointersConcat(a, b[..n]);
    }
  }

  /** Where the packages lie that carry `p`. */
  function Carriers(ps: seq<RecvPackage>, p: Pointer): set<int> {
    set i | 0 <= i < |ps| && ps[i].packet == Some(p)
  }

  lemma {:induction false} CarriersOneMore(ps: seq<RecvPackage>, p: Pointer)
    requires ps != []
    ensures |Carriers(ps, p)| == |Carriers(ps[..|ps| - 1], p)| + if ps[|ps| - 1].packet == Some(p) then 1 else 0
  {
    var n := |ps| - 1;
    var fewer := Carriers(ps[..n], p);
    assert Carriers(ps, p) == fewer + if ps[n].packet == Some(p) then {n} else {};
  }

  lemma {:induction false} PointersOneMore(ps: seq<RecvPackage>, p: Pointer)
    requires ps != []
    ensures multiset(PointersOf(ps))[p] ==
            multiset(PointersOf(ps[..|ps| - 1]))[p] + if ps[|ps| - 1].packet == Some(p) then 1 else 0
  {
  }

  /** A packet pointer counts as often as packages carry it, with or without a session. */
  lemma {:induction false} PointersExactly(ps: seq<RecvPackage>, p: Pointer)
    ensures multiset(PointersOf(ps))[p] == |Carriers(ps, p)|
  {
    if ps == [] {
      assert Carriers(ps, p) == {};
    } else {
      PointersExactly(ps[..|ps| - 1], p);
      PointersOneMore(ps, p);
      CarriersOneMore(ps, p);
    }
  }

  function Rest<T>(b: seq<T>, j: nat): seq<T>
    requires j < |b|
  {
    b[..j] + b[j + 1..]
  }

  lemma {:induction false} TakeOut<T>(b: seq<T>, j: nat)
    requires j < |b|
    ensures multiset(b) == multiset(Rest(b, j)) + multiset{b[j]}
  {
    assert b == b[..j] + [b[j]] + b[j + 1..];
  }

  lemma {:induction false} Cancel<T>(x: multiset<T>, y: multiset<T>, m: multiset<T>)
    requires x + m == y + m
    ensures x == y
  {
    assert x == (x + m) - m;
    assert y == (y + m) - m;
  }

  lemma {:induction false} Rotate<T>(a: seq<T>, x: seq<T>, b: seq<T>)
    ensures multiset(a + (x + b)) == multiset(a + b) + multiset(x)
  {
  }

  lemma {:induction false} PointersAround(a: seq<RecvPackage>, x: seq<RecvPackage>, b: seq<RecvPackage>)
    ensures PointersOf(a + (x + b)) == PointersOf(a) + (PointersOf(x) + PointersOf(b))
    ensures PointersOf(a + b) == PointersOf(a) + PointersOf(b)
  {
    PointersConcat(a, x + b);
    PointersConcat(x, b);
    PointersConcat(a, b);
  }

  lemma {:induction false} PointersWithout(a: seq<RecvPackage>, x: seq<RecvPackage>, b: seq<RecvPackage>)
    ensures multiset(PointersOf(a + (x + b))) ==
            multiset(PointersOf(a + b)) + multiset(PointersOf(x))
  {
    PointersAround(a, x, b);
    Rotate(PointersOf(a), PointersOf(x), PointersOf(b));
  }

  lemma {:induction false} PointersTakeOut(b: seq<RecvPackage>, j: nat)
    requires j < |b|
    ensures multiset(PointersOf(b)) ==
            multiset(PointersOf(Rest(b, j))) + multiset(PointersOf([b[j]]))
  {
    var front, item, back := b[..j], [b[j]], b[j + 1..];
    assert b == front + (item + back);
    PointersWithout(front, item, back);
    assert Rest(b, j) == front + back;
  }

  lemma {:induction false} PermuteStep(a: seq<RecvPackage>, b: seq<RecvPackage>, j: nat)
    requires a != [] && j < |b| && a[0] == b[j]
    requires multiset(PointersOf(Rest(a, 0))) == multiset(PointersOf(Rest(b, j)))
    ensures multiset(PointersOf(a)) == multiset(PointersOf(b))
  {
    PointersTakeOut(a, 0);
    PointersTakeOut(b, j);
  }

  lemma {:induction false} RestSame(a: seq<RecvPackage>, b: seq<RecvPackage>, j: nat)
    requires multiset(a) == multiset(b) && a != [] && j < |b| && a[0] == b[j]
    ensures multiset(Rest(a, 0)) == multiset(Rest(b, j))
  {
    TakeOut(a, 0);
    TakeOut(b, j);
    Cancel(multiset(Rest(a, 0)), multiset(Rest(b, j)), multiset{a[0]});
  }

  /** The same packages in another order have the same pointers. */
  lemma {:induction false} PointersPermute(a: seq<RecvPackage>, b: seq<RecvPackage>)
    requires multiset(a) == multiset(b)
    ensures multiset(PointersOf(a)) == multiset(PointersOf(b))
    decreases |a|
  {
    if a == [] {
      assert |multiset(b)| == 0;
    } else {
      assert a[0] in multiset(b);
      var j :| 0 <= j < |b| && b[j] == a[0];
      RestSame(a, b, j);
      PointersPermute(Rest(a, 0), Rest(b, j));
      PermuteStep(a, b, j);
    }
  }

  /** What is deleted over a life of the server that ends with the pool in state `s`: each
      processed packet by its thread, each packet still queued by the destructor. */
  function Deleted(s: Pool<Pointer>): seq<Pointer> {
    PointersOf(s.done) + PointersOf(s.queue)
  }

  /** What is popped and never deleted: packets whose package has no session. */
  function Leaked(s: Pool<Pointer>): seq<Pointer> {
    PointersOf(Picked(s.pushed, s.dropped))
  }

  /** Every packet handed to the job queue is deleted or leaked, with the right multiplicity. */
  lemma {:induction false} DeletedOrLeaked(n: nat, s: Pool<Pointer>)
    requires Reachable(n, s)
    requires forall t :: 0 <= t < |s.threads| ==> s.threads[t].Exited?
    ensures multiset(PointersOf(s.pushed)) == multiset(Deleted(s)) + multiset(Leaked(s))
  {
    NothingLostByShutdown(n, s);
    var gone := Picked(s.pushed, s.dropped);
    PointersPermute(s.pushed, s.done + gone + s.queue);
    PointersConcat(s.done + gone, s.queue);
    PointersConcat(s.done, gone);
  }

  /** A worker pushes a package only with a session and a packet, and no packet twice. */
  ghost predicate WellPushed(pushed: seq<RecvPackage>) {
    && (forall i :: 0 <= i < |pushed| ==> !pushed[i].Empty())
    && (forall i, j :: 0 <= i < j < |pushed| ==> pushed[i].packet != pushed[j].packet)
  }

  ghost predicate Carries(ps: seq<RecvPackage>, p: Pointer) {
    exists i :: 0 <= i < |ps| && ps[i].packet == Some(p)
  }

  lemma {:induction false} CarriesOneMore(ps: seq<RecvPackage>, p: Pointer)
    requires ps != []
    ensures Carries(ps, p) <==> Carries(ps[..|ps| - 1], p) || ps[|ps| - 1].packet == Some(p)
  {
    var n := |ps| - 1;
    assert forall i :: 0 <= i < n ==> ps[..n][i] == ps[i];
  }

  lemma {:induction false} PointersDiffer(ps: seq<RecvPackage>, p: Pointer)
    requires WellPushed(ps)
    ensures multiset(PointersOf(ps))[p] == if Carries(ps, p) then 1 else 0
  {
    if ps != [] {
      PointersDiffer(ps[..|ps| - 1], p);
      CarriesOneMore(ps, p);
    }
  }

  lemma {:induction false} DroppedWasEmpty(n: nat, s: Pool<Pointer>)
    requires Reachable(n, s) && s.dropped != []
    ensures exists i :: 0 <= i < |s.pushed| && s.pushed[i].Empty()
  {
    Conservation(n, s);
    assert s.pushed[s.dropped[0]].Empty();
  }

  lemma {:induction false} NothingLeaked(n: nat, s: Pool<Pointer>)
    requires Reachable(n, s) && WellPushed(s.pushed)
    ensures Leaked(s) == []
  {
    if s.dropped != [] {
      DroppedWasEmpty(n, s);
      assert false;
    }
  }

  /** Then each packet is deleted exactly once, nothing else is, and nothing is leaked. */
  lemma {:induction false} EachDeletedExactlyOnce(n: nat, s: Pool<Pointer>, p: Pointer)
    requires Reachable(n, s) && WellPushed(s.pushed)
    requires forall t :: 0 <= t < |s.threads| ==> s.threads[t].Exited?
    ensures multiset(Deleted(s))[p] == if Carries(s.pushed, p) then 1 else 0
    ensures Leaked(s) == []
  {
    DeletedOrLeaked(n, s);
    NothingLeaked(n, s);
    PointersDiffer(s.pushed, p);
  }

  class JobQueue {
    var jobQueue: seq<RecvPackage>
    /** History: the pointers passed to `delete`, in order. */
    ghost var deleted: seq<Pointer>

    constructor ()
      ensures jobQueue == [] && deleted == []
    {
      jobQueue, deleted := [], [];
    }

    method PushPackage(package: RecvPackage)
      modifies this`jobQueue
      ensures jobQueue == old(jobQueue) + [package]
    {
      jobQueue := jobQueue + [package];
    }

    method PopPackage() returns (package: RecvPackage)
      modifies this`jobQueue
      ensures (package, jobQueue) == Pop(old(jobQueue))
    {
      if jobQueue == [] {
        return Sentinel();
      }
      package := jobQueue[0];
      jobQueue := jobQueue[1..];
    }

    method Delete(p: Pointer)
      modifies this`deleted
      ensures deleted == old(deleted) + [p]
    {
      deleted := deleted + [p];
    }

    /** One pass of `RunProcess`: the packet is deleted after its handler, unless the package
        is empty. */
    method RunOnce()
      modifies this
      ensures jobQueue == Pop(old(jobQueue)).1
      ensures var package := Pop(old(jobQueue)).0;
              deleted == old(deleted) + if package.Empty() then [] else [package.packet.value]
    {
      var package := PopPackage();
      if !package.Empty() {
        Delete(package.packet.value);
      }
    }

    /** The destructor. */
    method Destroy()
      modifies this
      ensures jobQueue == []
      ensures deleted == old(deleted) + PointersOf(old(jobQueue))
    {
      ghost var all := jobQueue;
      ghost var k := 0;
      assert all[..0] == [];
      while jobQueue != []
        invariant 0 <= k <= |all| && jobQueue == all[k..]
        invariant deleted == old(deleted) + PointersOf(all[..k])
        decreases |jobQueue|
      {
        var package := jobQueue[0];
        assert all[..k + 1][..k] == all[..k];
        jobQueue := jobQueue[1..];
        k := k + 1;
        if package.packet.Some? {
          Delete(package.packet.value);
        }
      }
      assert all[..k] == all;
    }
  }
}
