/** The completion queue of memrpc/src/server/rpc_server.cpp:308-367 as the object that the
    server's threads update.  Each method is shown to be a run of the machine in
    `CompletionQueue`, whose theorems therefore hold of the object. */
module ResponseQueue {
  import opened Runs
  import opened ClientTypes
  import opened CompletionQueue

  class Completions {
    const capacity: nat
    var running: bool
    var queued: seq<nat>
    var pendingCount: nat
    var accepted: nat
    var completions: seq<Completion>

    /** The machine state with these fields, the mutex free, for given other threads. */
    ghost function View(writer: Writer, stop: Stop, published: seq<nat>): (q: Queue)
      reads this
    {
      Queue(capacity, queued, pendingCount, false, accepted, writer, stop, published, completions)
    }

    constructor (capacity: nat)
      ensures View(WIdle, Running, []) == Empty(capacity) && running
    {
      this.capacity, running, queued, pendingCount, accepted, completions := capacity, true, [], 0, 0, [];
    }

    /** `EnqueueCompletion`, with the flag read at its test. */
    method Enqueue(ghost writer: Writer, ghost stop: Stop, ghost published: seq<nat>) returns (ok: bool)
      requires running <==> stop.Running?
      modifies this
      ensures ok ==>
        Exec(Step, old(View(writer, stop, published)), [TestEnqueue, PushItem]) == Some(View(writer, stop, published))
      ensures !ok ==>
        Exec(Step, old(View(writer, stop, published)), [TestEnqueue]) == Some(View(writer, stop, published))
      ensures ok <==> running && old(pendingCount) < capacity
      ensures ok ==> queued == old(queued) + [old(accepted)]
      ensures running == old(running)
    {
      ghost var before := View(writer, stop, published);
      if !running || pendingCount >= capacity {
        RunOfOne(before, TestEnqueue);
        return false;
      }
      queued := queued + [accepted];
      accepted := accepted + 1;
      pendingCount := pendingCount + 1;
      RunOfTwo(before, TestEnqueue, PushItem);
      ok := true;
    }

    /** `WaitAndPopCompletionItem` once its wait is over; no item means that the writer leaves. */
    method Pop(ghost stop: Stop, ghost published: seq<nat>) returns (item: Option<nat>)
      requires running <==> stop.Running?
      requires !running || queued != []
      modifies this
      ensures item.Some? ==>
        Step(old(View(WIdle, stop, published)), PopItem) == Some(View(WPushing(item.value), stop, published))
      ensures item.None? ==> Step(old(View(WIdle, stop, published)), ExitWriter) == Some(View(WExited, stop, published))
      ensures running == old(running)
    {
      if !running && queued == [] {
        return None;
      }
      item := Some(queued[0]);
      queued := queued[1..];
    }

    /** `OnCompletionItemFinished`. */
    method Finish(item: nat, ghost stop: Stop, ghost published: seq<nat>)
      modifies this
      ensures Step(old(View(WCompleted(item), stop, published)), FinishItem) == Some(View(WIdle, stop, published))
      ensures queued == old(queued) && running == old(running)
    {
      if pendingCount > 0 {
        pendingCount := pendingCount - 1;
      }
    }

    /** `FailPendingCompletionItems`: everything left is completed once, in order, as failed. */
    method FailPending(ghost published: seq<nat>) returns (ghost run: seq<Label>)
      requires !running
      modifies this
      ensures Exec(Step, old(View(WExited, Joined, published)), run) == Some(View(WExited, Failing([]), published))
      ensures queued == [] && pendingCount == 0 && completions == old(completions) + AllFailed(old(queued))
    {
      ghost var start := View(WExited, Joined, published);
      var left := queued;
      queued := [];
      pendingCount := 0;
      run := [TakeLeft];
      RunOfOne(start, TakeLeft);
      ghost var n := 0;
      while left != []
        invariant n <= |old(queued)| && left == old(queued)[n..]
        invariant queued == [] && pendingCount == 0 && accepted == old(accepted)
        invariant Exec(Step, start, run) == Some(View(WExited, Failing(left), published))
        invariant completions == old(completions) + AllFailed(old(queued)[..n])
        decreases |left|
      {
        ghost var before := View(WExited, Failing(left), published);
        completions := completions + [Completion(left[0], PeerDisconnected)];
        left := left[1..];
        RunOfOne(before, FailLeft);
        ExecConcat(Step, start, run, [FailLeft]);
        run := run + [FailLeft];
        n := n + 1;
      }
      assert old(queued)[..n] == old(queued);
    }
  }

  function AllFailed(items: seq<nat>): (r: seq<Completion>) {
    seq(|items|, i requires 0 <= i < |items| => Completion(items[i], PeerDisconnected))
  }

  lemma RunOfOne(q: Queue, l: Label)
    ensures Exec(Step, q, [l]) == Step(q, l)
  {
    if Step(q, l).Some? {
      assert [l][1..] == [];
    }
  }

  lemma RunOfTwo(q: Queue, first: Label, second: Label)
    requires Step(q, first).Some?
    ensures Exec(Step, q, [first, second]) == Step(Step(q, first).value, second)
  {
    RunOfOne(Step(q, first).value, second);
    assert [first, second][1..] == [second];
  }
}
