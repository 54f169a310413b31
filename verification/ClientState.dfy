/** The two components of memrpc/src/client/rpc_client.cpp that the client's threads update in
    place, each method being one section under the component's own mutex: `ClientRequestStore`
    (183-247) and `ClientRecoveryState` (524-750).

    Each method is tied to the step of `ClientModel` that it carries out.  `In(k)` and `In(c)`
    are the calls and the core of the transition system with this object in place; the ghost
    parameters say what the rest of the client looks like at the call.
 */
module ClientState {
  import opened Runs
  import opened ClientTypes
  import opened ClientModel
  import opened ClientLifecycle

  /** `taken` lists the entries of `entries`, each once, in some order. */
  ghost predicate Lists(taken: seq<(nat, Pending)>, entries: map<nat, Pending>) {
    && (forall i | 0 <= i < |taken| :: taken[i].0 in entries && entries[taken[i].0] == taken[i].1)
    && (forall id | id in entries :: exists i :: 0 <= i < |taken| && taken[i].0 == id)
    && (forall i, j | 0 <= i < j < |taken| :: taken[i].0 != taken[j].0)
  }

  lemma ListsSnoc(taken: seq<(nat, Pending)>, entries: map<nat, Pending>, id: nat, pending: Pending)
    requires Lists(taken, entries) && id !in entries
    ensures Lists(taken + [(id, pending)], entries[id := pending])
  {
    var more := taken + [(id, pending)];
    var all := entries[id := pending];
    forall k | k in all ensures exists i :: 0 <= i < |more| && more[i].0 == k {
      if k == id {
        assert more[|taken|].0 == k;
      } else {
        var i :| 0 <= i < |taken| && taken[i].0 == k;
        assert more[i].0 == k;
      }
    }
  }

  /** The entries of a store in the order of a walk over it. */
  method Listing(pending: map<nat, Pending>) returns (listed: seq<(nat, Pending)>)
    ensures Lists(listed, pending)
  {
    listed := [];
    var left := pending;
    ghost var done: map<nat, Pending> := map[];
    while left != map[]
      invariant Lists(listed, done)
      invariant forall k :: k in pending <==> k in left || k in done
      invariant forall k | k in done :: done[k] == pending[k] && k !in left
      invariant forall k | k in left :: left[k] == pending[k]
      decreases |left|
    {
      assert exists k :: k in left;
      var id :| id in left;
      ListsSnoc(listed, done, id, left[id]);
      listed := listed + [(id, left[id])];
      done := done[id := left[id]];
      left := left - {id};
    }
    assert done == pending;
  }

  class RequestStore {
    var pending: map<nat, Pending>

    constructor ()
      ensures pending == map[]
    {
      pending := map[];
    }

    /** The calls with this store. */
    ghost function In(k: Calls): (r: Calls)
      reads this
    {
      k.(pending := pending)
    }

    /** The submit worker stores the request it is about to push: the step `PutPending`. */
    method Put(id: nat, request: Pending, ghost k: Calls, ghost now: nat, ghost timeout: nat)
      modifies this
      ensures pending == old(pending)[id := request]
      ensures k.worker == WHolding(id) && request.session != 0
              && request.deadline == (if timeout == 0 then 0 else now + timeout) ==>
        Submit(request.session, now, old(In(k)), PutPending(timeout)) == Some(In(k.(worker := WPushing(id))))
    {
      pending := pending[id := request];
    }

    /** A request is handed to one taker only: afterwards it is no longer in the store.  The
        response worker takes it for a reply, `TakeReply`, and the submit worker takes it back
        after a failed push, `PushDone(false)`. */
    method Take(id: nat, ghost k: Calls, ghost session: nat, ghost now: nat, ghost status: Status)
      returns (request: Option<Pending>)
      modifies this
      ensures request.Some? <==> id in old(pending)
      ensures request.Some? ==> request.value == old(pending)[id]
      ensures id !in pending && pending == old(pending) - {id}
      ensures k.responder.RIdle? ==>
        Receive(now, old(In(k)), TakeReply(id, status))
        == Some(In(if request.Some? then k.(responder := RHolding(id, status)) else k))
      ensures k.worker == WPushing(id) ==>
        Submit(session, now, old(In(k)), PushDone(false)) == Some(In(k.(worker := WHolding(id))))
    {
      if id !in pending {
        assert pending == pending - {id};
        return None;
      }
      request := Some(pending[id]);
      pending := pending - {id};
    }

    /** A section drains the store, or the shutdown takes what is left in it: the steps of the
        frames `DrainForRestart` and `DrainForDeath`, and `TakePending`. */
    method TakeAll(ghost k: Calls, ghost f: Frame, ghost l: Label) returns (drained: seq<(nat, Pending)>)
      modifies this
      ensures Lists(drained, old(pending)) && pending == map[]
      ensures l.RunFrame? && (f.DrainForDeath? || (f.DrainForRestart? && !f.action.KeepCurrentState?)) ==>
        RunCalls(f, old(In(k)), l) == In(k)
      ensures AdministerCalls(old(In(k)), TakePending) == In(k.(leftPending := old(pending)))
    {
      drained := Listing(pending);
      pending := map[];
    }

    /** Takes exactly the requests whose deadline has passed and leaves the others: the step
        `TakeExpired` of the watchdog. */
    method TakeExpired(now: nat, ghost k: Calls) returns (expired: seq<(nat, Pending)>)
      modifies this
      ensures Lists(expired, Expired(old(pending), now))
      ensures pending == old(pending) - Expired(old(pending), now).Keys
      ensures forall i | 0 <= i < |expired| :: expired[i].1.deadline != 0 && now >= expired[i].1.deadline
      ensures forall id | id in pending :: pending[id].deadline == 0 || now < pending[id].deadline
      ensures k.watchdog == TWatching(map[]) ==>
        Receive(now, old(In(k)), Label.TakeExpired) == Some(In(k.(watchdog := TWatching(Expired(old(pending), now)))))
    {
      expired := RemoveExpired(now);
    }

    method RemoveExpired(now: nat) returns (expired: seq<(nat, Pending)>)
      modifies this
      ensures Lists(expired, Expired(old(pending), now))
      ensures pending == old(pending) - Expired(old(pending), now).Keys
    {
      expired := [];
      var left := pending.Keys;
      ghost var done: map<nat, Pending> := map[];
      while left != {}
        invariant left <= pending.Keys
        invariant Lists(expired, done)
        invariant forall k :: k in done <==> k in Expired(old(pending), now) && k !in left
        invariant forall k | k in done :: done[k] == old(pending)[k]
        invariant forall k :: k in pending <==> k in old(pending) && k !in done
        invariant forall k | k in pending :: pending[k] == old(pending)[k]
        decreases |left|
      {
        var id :| id in left;
        var deadline := pending[id].deadline;
        if deadline != 0 && now >= deadline {
          ListsSnoc(expired, done, id, pending[id]);
          expired := expired + [(id, pending[id])];
          done := done[id := pending[id]];
          pending := pending - {id};
        }
        left := left - {id};
      }
      assert done == Expired(old(pending), now);
    }
  }

  /** A section holds the lifecycle mutex and its top frame is about to run. */
  predicate At(c: Core, l: Label) {
    c.section.Held? && l.RunFrame?
  }

  datatype WindowChange = Keep | Clear | Set

  class RecoveryState {
    var lifecycle: Lifecycle
    var cooldownUntil: nat
    var generation: nat

    ghost function Value(): (r: Recovery)
      reads this
    {
      Recovery(lifecycle, cooldownUntil)
    }

    constructor ()
      ensures Value() == Recovery(Unstarted, 0) && generation == 0
    {
      lifecycle, cooldownUntil, generation := Unstarted, 0, 0;
    }

    /** The core with this recovery state. */
    ghost function In(c: Core): (r: Core)
      reads this
    {
      c.(recovery := Value())
    }

    method TransitionLifecycle(state: Lifecycle, change: WindowChange, until: nat) returns (previous: Lifecycle)
      modifies this
      ensures previous == old(lifecycle) && lifecycle == state && generation == old(generation)
      ensures cooldownUntil == (match change case Keep => old(cooldownUntil) case Clear => 0 case Set => until)
    {
      previous := lifecycle;
      match change {
        case Keep =>
        case Clear => cooldownUntil := 0;
        case Set => cooldownUntil := until;
      }
      lifecycle := state;
    }

    /** With the window over and no session, this is the step of `Ensure` that goes on to ask
        the bootstrap; `observed` is the lifecycle that the section read. */
    method BeginSessionOpen(observed: Lifecycle, ghost c: Core, ghost l: Label, ghost sessionFree: bool)
      modifies this
      ensures generation == old(generation)
      ensures observed == old(lifecycle) && At(c, l) && c.section.top.Ensure?
              && PreShutdown(c) && c.session == 0 && c.now >= old(cooldownUntil) ==>
        RunEnsure(old(In(c)), l, sessionFree) == Some(Goto(In(c), OpenSession))
    {
      if !observed.Recovering? && !observed.Unstarted? {
        var _ := TransitionLifecycle(Recovering, Keep, 0);
      }
    }

    /** `FinalizeSessionOpen`, `EnterIdleClosed`, `EnterNoSession` and `EnterTerminalClosed`: the
        window closes with the transition, and waiters are notified.  These are the frames
        `FinalizeOpen`, `EnterIdle`, `DecideDeath` when policy ignores the death, and
        `EnterClosed`. */
    method Enter(state: Lifecycle, ghost c: Core, ghost l: Label, ghost free: bool, ghost pending: map<nat, Pending>)
      modifies this
      ensures Value() == Recovery(state, 0) && generation == old(generation) + 1
      ensures At(c, l) && c.section.top.FinalizeOpen? && state.Active? ==>
        RunEnsure(old(In(c)), l, free) == Some(ClientModel.Pop(In(c)))
      ensures At(c, l) && c.section.top.EnterIdle? && state.IdleClosed? ==>
        RunDecision(old(In(c)), l, free) == Some(ClientModel.Pop(In(c)))
      ensures At(c, l) && c.section.top.DecideDeath? && c.section.top.decision.Ignore?
              && c.control.Open? && state.NoSession? ==>
        RunClosing(old(In(c)), l, free, pending) == Some(ClientModel.Pop(In(c)))
      ensures At(c, l) && c.section.top.EnterClosed? && state.Terminated? ==>
        RunClosing(old(In(c)), l, free, pending) == Some(ClientModel.Pop(In(c)).(shutdown := SSectionDone))
    {
      var _ := TransitionLifecycle(state, Clear, 0);
      generation := generation + 1;
    }

    /** `StartRecovery`, the frame `BeginRecovery`. */
    method Start(delay: nat, now: nat, ghost c: Core, ghost l: Label, ghost sessionFree: bool)
      modifies this
      ensures Value() == StartRecovery(delay, now) && generation == old(generation) + 1
      ensures At(c, l) && c.section.top.BeginRecovery? && c.section.top.delay == delay
              && c.control.Open? && c.now == now ==>
        RunDecision(old(In(c)), l, sessionFree) ==
        Some(Goto(In(c), CloseForRestart(c.section.top.observed, delay, c.section.top.action)))
    {
      var state := if delay == 0 then Recovering else Cooldown;
      var _ := TransitionLifecycle(state, Set, now + delay);
      generation := generation + 1;
    }

    /** An open that fails gives a recovery up, and leaves any other state alone: the frame
        `OpenFailed`. */
    method HandleSessionOpenFailure(ghost c: Core, ghost l: Label, ghost sessionFree: bool)
      modifies this
      ensures At(c, l) && c.section.top.OpenFailed? ==>
        RunEnsure(old(In(c)), l, sessionFree) == Some(ClientModel.Pop(In(c)))
      ensures !old(lifecycle).Recovering? && !old(lifecycle).Cooldown? ==> generation == old(generation)
    {
      if lifecycle.Recovering? || lifecycle.Cooldown? {
        Enter(NoSession, c, l, sessionFree, map[]);
      }
    }

    /** While the window is open, `Ensure` gives up before it asks for a session. */
    method CooldownActive(now: nat, ghost c: Core, ghost l: Label, ghost sessionFree: bool) returns (active: bool)
      ensures active <==> now < cooldownUntil
      ensures active && At(c, l) && c.section.top.Ensure? && c.now == now ==>
        RunEnsure(In(c), l, sessionFree) == Some(ClientModel.Pop(In(c)))
    {
      active := now < cooldownUntil;
    }
  }
}
