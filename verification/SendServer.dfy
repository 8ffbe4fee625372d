/** SendServer.h as an object: one queue, one flag, and the loop of a single sender thread. */
module SendServers {
  import opened Packages
  import opened Chat

  /** What other threads do between two tests of the flag. */
  datatype Act = Pushed(package: SendPackage) | Closed

  /** The packages that a script of such acts pushes. */
  function PushedBy(acts: seq<Act>): seq<SendPackage> {
    if acts == [] then []
    else PushedBy(acts[..|acts| - 1])
         + match acts[|acts| - 1] { case Pushed(p) => [p] case Closed => [] }
  }

  function AllPushed(script: seq<seq<Act>>): seq<SendPackage> {
    if script == [] then [] else AllPushed(script[..|script| - 1]) + PushedBy(script[|script| - 1])
  }

  /** How many packages a queue of `n` holds after these turns, each followed by one pop. */
  function Backlog(n: nat, script: seq<seq<Act>>): nat {
    if script == [] then n
    else
      var waiting := Backlog(n, script[..|script| - 1]) + |PushedBy(script[|script| - 1])|;
      if waiting == 0 then 0 else waiting - 1
  }

  /** The same when the last turn may have found the flag down and popped nothing. */
  function Waiting(n: nat, script: seq<seq<Act>>, running: bool): nat {
    if running || script == [] then Backlog(n, script)
    else Backlog(n, script[..|script| - 1]) + |PushedBy(script[|script| - 1])|
  }

  lemma OneMoreTurn(n: nat, script: seq<seq<Act>>, k: nat, running: bool)
    requires k < |script|
    ensures AllPushed(script[..k + 1]) == AllPushed(script[..k]) + PushedBy(script[k])
    ensures Waiting(n, script[..k + 1], running) ==
            var all := Waiting(n, script[..k], true) + |PushedBy(script[k])|;
            if running && all > 0 then all - 1 else all
  {
    assert script[..k + 1][..k] == script[..k];
  }

  predicate Closes(acts: seq<Act>) {
    exists i :: 0 <= i < |acts| && acts[i].Closed?
  }

  class SendServer {
    var packages: seq<SendPackage>
    var bRun: bool

    constructor ()
      ensures packages == [] && bRun
    {
      packages, bRun := [], true;
    }

    method Close()
      modifies this`bRun
      ensures !bRun
    {
      bRun := false;
    }

    method PopPackage() returns (package: SendPackage)
      modifies this`packages
      ensures (package, packages) == Pop(old(packages))
    {
      if packages == [] {
        return Sentinel();
      }
      package := packages[0];
      packages := packages[1..];
    }

    method PushPackage(package: SendPackage)
      modifies this`packages
      ensures packages == old(packages) + [package]
    {
      packages := packages + [package];
    }

    /** The other threads' turn. */
    method Perform(acts: seq<Act>)
      modifies this
      ensures packages == old(packages) + PushedBy(acts)
      ensures bRun <==> old(bRun) && !Closes(acts)
    {
      var i := 0;
      assert acts[..0] == [];
      while i < |acts|
        invariant 0 <= i <= |acts|
        invariant packages == old(packages) + PushedBy(acts[..i])
        invariant bRun <==> old(bRun) && !Closes(acts[..i])
      {
        assert acts[..i + 1][..i] == acts[..i];
        assert Closes(acts[..i + 1]) <==> Closes(acts[..i]) || acts[i].Closed? by {
          assert acts[..i + 1][i] == acts[i];
          assert forall j :: 0 <= j < i ==> acts[..i + 1][j] == acts[..i][j];
        }
        match acts[i] {
          case Pushed(p) => PushPackage(p);
          case Closed => Close();
        }
        i := i + 1;
      }
      assert acts[..i] == acts;
    }

    /** The loop body: pop, and send unless the package is empty. */
    method Pass() returns (sent: seq<SendPackage>)
      modifies this`packages
      ensures packages == old(packages)[if old(packages) == [] then 0 else 1..]
      ensures sent == NonEmpty(old(packages)[..if old(packages) == [] then 0 else 1])
    {
      var package := PopPackage();
      sent := if package.Empty() then [] else [package];
      if old(packages) != [] {
        NonEmptyOneMore(old(packages), 0);
      }
    }

    /** The same after others, for the sender that has served `popped` of the packages `all`. */
    method PassOn(before: seq<SendPackage>, ghost all: seq<SendPackage>, ghost popped: nat)
      returns (sent: seq<SendPackage>, ghost more: nat)
      requires Served(all, popped, before)
      modifies this`packages
      ensures Served(all, more, sent)
      ensures |packages| == if old(packages) == [] then 0 else |old(packages)| - 1
    {
      var now := Pass();
      ServedPass(all, popped);
      more := if popped < |all| then popped + 1 else popped;
      sent := before + now;
    }

    /** The others' turn, the test of the flag, and a pass when it is up. */
    method Turn(acts: seq<Act>, before: seq<SendPackage>, ghost all: seq<SendPackage>, ghost popped: nat)
      returns (sent: seq<SendPackage>, ghost more: nat)
      requires Served(all, popped, before)
      modifies this
      ensures Served(all + PushedBy(acts), more, sent)
      ensures bRun <==> old(bRun) && !Closes(acts)
      ensures var waiting := |old(packages)| + |PushedBy(acts)|;
              |packages| == if bRun && waiting > 0 then waiting - 1 else waiting
    {
      Perform(acts);
      ServedMore(all, PushedBy(acts), popped);
      sent, more := before, popped;
      if bRun {
        sent, more := PassOn(before, all + PushedBy(acts), popped);
      }
    }

    /** `Run` by the only sender thread, while the others follow `script`: entry k happens
        just before the k-th test of the flag. `sent` is what `SendPacket` was called with,
        `popped` how many packages were taken off the queue. The thread serves the queue in
        order, one package for every test it passes, loses nothing but empty packages, and
        leaves early only when told to. */
    method Run(script: seq<seq<Act>>) returns (sent: seq<SendPackage>, rounds: nat, ghost popped: nat)
      modifies this
      ensures rounds <= |script|
      ensures Served(old(packages) + AllPushed(script[..rounds]), popped, sent)
      ensures bRun <==> old(bRun) && forall i :: 0 <= i < rounds ==> !Closes(script[i])
      ensures rounds < |script| ==> !bRun
      ensures |packages| == Waiting(|old(packages)|, script[..rounds], bRun)
    {
      sent, rounds, popped := [], 0, 0;
      ghost var all := packages;
      assert script[..0] == [] && all[..0] == [] && all + [] == all;
      var running := true;
      while running && rounds < |script|
        invariant rounds <= |script| && all == old(packages) + AllPushed(script[..rounds])
        invariant Served(all, popped, sent)
        invariant bRun <==> old(bRun) && forall i :: 0 <= i < rounds ==> !Closes(script[i])
        invariant if running then rounds > 0 ==> bRun else !bRun && rounds > 0
        invariant |packages| == Waiting(|old(packages)|, script[..rounds], running)
        decreases |script| - rounds, running
      {
        sent, popped := Turn(script[rounds], sent, all, popped);
        OneMoreTurn(|old(packages)|, script, rounds, bRun);
        all := all + PushedBy(script[rounds]);
        rounds := rounds + 1;
        running := bRun;
      }
    }

    /** Of the packages `all` in queue order, the first `popped` have been served. */
    ghost predicate Served(all: seq<SendPackage>, popped: nat, sent: seq<SendPackage>)
      reads this
    {
      popped <= |all| && sent == NonEmpty(all[..popped]) && packages == all[popped..]
    }
  }

  lemma ServedMore(all: seq<SendPackage>, more: seq<SendPackage>, popped: nat)
    requires popped <= |all|
    ensures (all + more)[..popped] == all[..popped] && (all + more)[popped..] == all[popped..] + more
  {
  }

  lemma ServedPass(all: seq<SendPackage>, popped: nat)
    requires popped <= |all|
    ensures var k := if all[popped..] == [] then 0 else 1;
            && NonEmpty(all[..popped]) + NonEmpty(all[popped..][..k]) == NonEmpty(all[..popped + k])
            && all[popped..][k..] == all[popped + k..]
  {
    if popped < |all| {
      NonEmptyOneMore(all, popped);
      NonEmptyOneMore(all[popped..], 0);
    } else {
      assert all[popped..][..0] == [];
    }
  }
}
