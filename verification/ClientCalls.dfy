/** The way of a call through the client: it is queued in the order of acceptance, submitted in
    that order, and nobody resolves or holds a call that was not accepted
    (memrpc/src/client/rpc_client.cpp:908-924, 1524-1542, 2125-2193, 2318-2331). */
module ClientCalls {
  import opened Runs
  import opened ClientTypes
  import opened ClientModel
  import opened ClientLifecycle
  import opened ClientFutures
  import opened ClientStatuses

  // --- Only accepted calls ---------------------------------------------------------------------------

  lemma FrameHandsBack(c: Core, l: Label, sessionFree: bool, pending: map<nat, Pending>, id: nat)
    requires CoreInv(c) && l.RunFrame? && RunCore(c, l, sessionFree, pending).Some?
    requires id in FrameHand(RunCore(c, l, sessionFree, pending).value.section)
    ensures id in FrameHand(c.section) || id in pending
  {
    var n := RunCore(c, l, sessionFree, pending).value.section;
    SectionFromDrain(c, l, sessionFree, pending, id,
                     if n.top.ResolvingDeath? then CrashedDuringExecution else PeerDisconnected);
  }

  lemma FrameResolvesHeld(c: Core, k: Calls, l: Label, sessionFree: bool, id: nat)
    requires CoreInv(c) && l.RunFrame? && RunCore(c, l, sessionFree, k.pending).Some?
    requires id in RunCalls(c.section.top, k, l).replies
    ensures id in k.replies || id in FrameHand(c.section)
  {
    if id !in k.replies {
      HandIsHeld(c, l, sessionFree, k.pending);
      RepliesFromSection(c.section.top, k, l, id);
    }
  }

  lemma FrameAccountsBack(s: Client, l: Label, id: nat)
    requires Inv(s) && l.RunFrame? && Step(s, l).Some? && Accounted(Step(s, l).value, id)
    ensures Accounted(s, id)
  {
    var n, free := Step(s, l).value, !s.calls.worker.WPushing?;
    FrameLeavesRest(s.calls, s.core.section.top, l);
    PendingShrinks(s.calls, s.core.section.top, l);
    if id in FrameHand(n.core.section) {
      FrameHandsBack(s.core, l, free, s.calls.pending, id);
    } else if id in n.calls.replies {
      FrameResolvesHeld(s.core, s.calls, l, free, id);
    }
  }

  lemma PendingShrinks(k: Calls, f: Frame, l: Label)
    requires l.RunFrame?
    ensures RunCalls(f, k, l).pending.Keys <= k.pending.Keys
  {
  }

  lemma InvokeAccountsBack(s: Client, l: Label, id: nat)
    requires InvokeLabel(l) && Step(s, l).Some? && Accounted(Step(s, l).value, id)
    ensures Accounted(s, id) || (l.EnqueueInvoke? && id in Step(s, l).value.calls.accepted)
  {
  }

  lemma SubmitAccountsBack(s: Client, l: Label, id: nat)
    requires SubmitLabel(l) && Step(s, l).Some? && Accounted(Step(s, l).value, id)
    ensures Accounted(s, id)
  {
  }

  lemma ReceiveAccountsBack(s: Client, l: Label, id: nat)
    requires ReceiveLabel(l) && Step(s, l).Some? && Accounted(Step(s, l).value, id)
    ensures Accounted(s, id)
  {
  }

  lemma AdminAccountsBack(s: Client, l: Label, id: nat)
    requires !LockLabel(l) && !l.RunFrame? && !InvokeLabel(l) && !SubmitLabel(l) && !ReceiveLabel(l)
    requires Step(s, l).Some? && Accounted(Step(s, l).value, id)
    ensures Accounted(s, id)
  {
    assert Step(s, l).value.core.section == s.core.section;
  }

  lemma LockAccountsBack(s: Client, l: Label, id: nat)
    requires LockLabel(l) && Step(s, l).Some? && Accounted(Step(s, l).value, id)
    ensures Accounted(s, id)
  {
    assert id !in FrameHand(Enter(s.core, l).value.section);
  }

  lemma AcceptedGrows(s: Client, l: Label)
    requires Step(s, l).Some?
    ensures s.calls.accepted <= Step(s, l).value.calls.accepted
  {
    if l.RunFrame? {
      FrameLeavesRest(s.calls, s.core.section.top, l);
    }
  }

  ghost predicate OnlyAccepted(s: Client) {
    Inv(s) && forall id | Accounted(s, id) :: id in s.calls.accepted
  }

  lemma StepOnlyAccepted(s: Client, l: Label)
    requires OnlyAccepted(s) && Step(s, l).Some?
    ensures OnlyAccepted(Step(s, l).value)
  {
    var n := Step(s, l).value;
    StepKeeps(s, l);
    AcceptedGrows(s, l);
    forall id | Accounted(n, id) ensures id in n.calls.accepted {
      if l.RunFrame? {
        FrameAccountsBack(s, l, id);
      } else if LockLabel(l) {
        LockAccountsBack(s, l, id);
      } else if InvokeLabel(l) {
        InvokeAccountsBack(s, l, id);
      } else if SubmitLabel(l) {
        SubmitAccountsBack(s, l, id);
      } else if ReceiveLabel(l) {
        ReceiveAccountsBack(s, l, id);
      } else {
        AdminAccountsBack(s, l, id);
      }
    }
  }

  /** In every reachable state a call is resolved or in somebody's hands if and only if it was
      accepted. */
  lemma AccountedExactlyAccepted(s: Client, id: nat)
    requires Reachable(s)
    ensures Accounted(s, id) <==> id in s.calls.accepted
  {
    ReachableLosesNone(s);
    var eager: bool, now: nat, run: seq<Label> :| Exec(Step, ClientModel.Started(eager, now), run) == Some(s);
    StartedOk(eager, now);
    forall x: Client, l: Label | OnlyAccepted(x) && Step(x, l).Some? ensures OnlyAccepted(Step(x, l).value) {
      StepOnlyAccepted(x, l);
    }
    Invariant(Step, OnlyAccepted, ClientModel.Started(eager, now), run);
  }

  // --- Order ------------------------------------------------------------------------------------------

  /** Calls are numbered from 1 in the order of acceptance; the queue holds the latest ones, oldest
      first, and the submit worker is at the one just before them. */
  ghost predicate InOrder(k: Calls) {
    && |k.queue| < k.nextId
    && (forall id :: id in k.accepted <==> 1 <= id < k.nextId)
    && (forall i | 0 <= i < |k.queue| :: k.queue[i] == k.nextId - |k.queue| + i)
    && (k.worker.WHolding? || k.worker.WPushing? || k.worker.WResolving? ==> k.worker.id == k.nextId - |k.queue| - 1)
  }

  ghost predicate Ordered(s: Client) {
    Inv(s) && Disposed(s) && InOrder(s.calls)
  }

  lemma InvokeInOrder(control: Control, k: Calls, l: Label)
    requires InOrder(k) && Invoke(control, k, l).Some?
    ensures InOrder(Invoke(control, k, l).value)
  {
  }

  lemma SubmitInOrder(session: nat, now: nat, k: Calls, l: Label)
    requires InOrder(k) && Submit(session, now, k, l).Some?
    ensures InOrder(Submit(session, now, k, l).value)
  {
  }

  lemma WorkInOrder(s: Client, l: Label)
    requires InOrder(s.calls) && (InvokeLabel(l) || SubmitLabel(l)) && Step(s, l).Some?
    ensures InOrder(Step(s, l).value.calls)
  {
    if InvokeLabel(l) {
      InvokeInOrder(s.core.control, s.calls, l);
    } else {
      SubmitInOrder(s.core.session, s.core.now, s.calls, l);
    }
  }

  lemma RestInOrder(s: Client, l: Label)
    requires Ordered(s) && !InvokeLabel(l) && !SubmitLabel(l) && Step(s, l).Some?
    ensures InOrder(Step(s, l).value.calls)
  {
    if l.RunFrame? {
      FrameLeavesRest(s.calls, s.core.section.top, l);
    } else if l.TakeQueue? {
      assert s.calls.worker.WExited?;
    }
  }

  /** In every reachable state the accepted calls are those numbered below the next number, the queue
      holds the latest of them in order, and the submit worker is at the one right before: calls
      are submitted first come, first served. */
  lemma CallsInOrder(s: Client)
    requires Reachable(s)
    ensures InOrder(s.calls)
  {
    var eager: bool, now: nat, run: seq<Label> :| Exec(Step, ClientModel.Started(eager, now), run) == Some(s);
    StartedOk(eager, now);
    forall x: Client, l: Label | Ordered(x) && Step(x, l).Some? ensures Ordered(Step(x, l).value) {
      StepKeeps(x, l);
      DisposedStep(x, l);
      if InvokeLabel(l) || SubmitLabel(l) {
        WorkInOrder(x, l);
      } else {
        RestInOrder(x, l);
      }
    }
    Invariant(Step, Ordered, ClientModel.Started(eager, now), run);
  }

  // --- A call from end to end ---------------------------------------------------------------------------

  lemma CallIsTaken(s: Client) returns (t: Client)
    requires Reachable(s) && s.core.control == Open
    requires !s.calls.admitting && s.calls.queue == [] && s.calls.worker.WIdle?
    ensures Reachable(t) && t.core == s.core
    ensures t.calls == s.calls.(nextId := s.calls.nextId + 1, accepted := s.calls.accepted + {s.calls.nextId},
                                worker := WHolding(s.calls.nextId))
  {
    var a := Step(s, AdmitInvoke).value;
    ReachableThen(s, AdmitInvoke, a);
    var b := Step(a, EnqueueInvoke).value;
    ReachableThen(a, EnqueueInvoke, b);
    t := Step(b, Dequeue).value;
    ReachableThen(b, Dequeue, t);
  }

  /** The submit worker takes the call that was accepted and stores it for the live session. */
  lemma CallIsStored(s: Client, timeout: nat) returns (t: Client)
    requires Reachable(s) && s.core.control == Open && s.core.session != 0
    requires !s.calls.admitting && s.calls.queue == [] && s.calls.worker.WIdle?
    ensures Reachable(t) && t.core == s.core && t.calls.responder == s.calls.responder
    ensures t.calls.worker.WIdle? && t.calls.replies == s.calls.replies && s.calls.nextId in t.calls.accepted
    ensures var deadline := if timeout == 0 then 0 else s.core.now + timeout;
      t.calls.pending == s.calls.pending[s.calls.nextId := Pending(s.core.session, deadline)]
  {
    var c := CallIsTaken(s);
    var d := Step(c, PutPending(timeout)).value;
    ReachableThen(c, PutPending(timeout), d);
    t := Step(d, PushDone(true)).value;
    ReachableThen(d, PushDone(true), t);
  }

  /** On an open client with a live session and idle workers, a new call goes through the queue, the
      store and the ring, and the status of its reply is the one its future gets; the store is
      left as it was. */
  lemma CallCompletes(s: Client, timeout: nat, status: Status) returns (t: Client)
    requires Reachable(s) && s.core.control == Open && s.core.session != 0
    requires !s.calls.admitting && s.calls.queue == [] && s.calls.worker.WIdle? && s.calls.responder.RIdle?
    ensures Reachable(t) && t.core == s.core && t.calls.pending == s.calls.pending
    ensures t.calls.replies == s.calls.replies[s.calls.nextId := status]
  {
    var id := s.calls.nextId;
    AccountedExactlyAccepted(s, id);
    CallsInOrder(s);
    var a := CallIsStored(s, timeout);
    var b := Step(a, TakeReply(id, status)).value;
    ReachableThen(a, TakeReply(id, status), b);
    t := Step(b, ResolveReply).value;
    ReachableThen(b, ResolveReply, t);
    assert s.calls.pending[id := a.calls.pending[id]] - {id} == s.calls.pending;
  }

  // --- Opening ------------------------------------------------------------------------------------------

  ghost predicate StartedWhenOpen(s: Client) {
    s.core.control != Uninitialized && PreShutdown(s.core) ==> s.core.recovery.lifecycle != Unstarted
  }

  lemma StaysStarted(s: Client, l: Label)
    requires Step(s, l).Some? && s.core.recovery.lifecycle != Unstarted
    ensures Step(s, l).value.core.recovery.lifecycle != Unstarted
  {
    if l.RunFrame? {
      FrameStaysStarted(s.core, l, !s.calls.worker.WPushing?, s.calls.pending);
    }
  }

  lemma FrameStaysStarted(c: Core, l: Label, free: bool, pending: map<nat, Pending>)
    requires l.RunFrame? && RunCore(c, l, free, pending).Some? && c.recovery.lifecycle != Unstarted
    ensures RunCore(c, l, free, pending).value.recovery.lifecycle != Unstarted
  {
  }

  /** A client in eager mode is not open before its first session was: in every reachable state an
      open client has left the lifecycle's first state. */
  lemma OpenIsStarted(s: Client)
    requires Reachable(s) && s.core.control == Open
    ensures s.core.recovery.lifecycle != Unstarted
  {
    var eager: bool, now: nat, run: seq<Label> :| Exec(Step, ClientModel.Started(eager, now), run) == Some(s);
    StartedOk(eager, now);
    forall x: Client, l: Label | (Inv(x) && StartedWhenOpen(x)) && Step(x, l).Some?
      ensures Inv(Step(x, l).value) && StartedWhenOpen(Step(x, l).value)
    {
      StepKeeps(x, l);
      ControlStepForward(x, l);
      if x.core.recovery.lifecycle != Unstarted {
        StaysStarted(x, l);
      } else {
        OpensOnlyStarted(x, l);
      }
    }
    Invariant(Step, (x: Client) => Inv(x) && StartedWhenOpen(x), ClientModel.Started(eager, now), run);
  }

  lemma OpensOnlyStarted(s: Client, l: Label)
    requires Step(s, l).Some? && s.core.control != Open && s.core.recovery.lifecycle == Unstarted
    ensures Step(s, l).value.core.control != Open
  {
    if l.RunFrame? {
      FramesKeepControl(s.core, l, !s.calls.worker.WPushing?, s.calls.pending);
    }
  }
}
