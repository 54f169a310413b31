/** No future is ever lost: every accepted call is resolved or in somebody's hands, the first
    resolution stands, and once the client is closed every accepted call is resolved. */
module ClientFutures {
  import opened Runs
  import opened ClientTypes
  import opened ClientModel
  import opened ClientLifecycle

  /** The requests that a section holds after draining the store. */
  function FrameHand(section: Section): (hand: map<nat, Pending>) {
    if section.Free? then map[] else
    match section.top
    case Failing(_, _, hand) => hand
    case FailResolve(_, _, hand, _) => hand
    case Resolving(_, _, hand) => hand
    case ResolvingDeath(_, _, hand) => hand
    case _ => map[]
  }

  /** The future is resolved, or queued, pending, or in the hands of a thread other than the
      submit worker. */
  predicate SafeElsewhere(s: Client, id: nat) {
    || id in s.calls.replies
    || id in s.calls.queue
    || id in s.calls.pending
    || (s.calls.responder.RHolding? && s.calls.responder.id == id)
    || (s.calls.watchdog.TWatching? && id in s.calls.watchdog.hand)
    || id in FrameHand(s.core.section)
    || id in s.calls.leftPending
    || id in s.calls.leftQueue
  }

  predicate WorkerHolds(w: Worker, id: nat) {
    match w
    case WHolding(x) => x == id
    case WPushing(x) => x == id
    case WResolving(x, _) => x == id
    case _ => false
  }

  predicate Accounted(s: Client, id: nat) {
    SafeElsewhere(s, id) || WorkerHolds(s.calls.worker, id)
  }

  predicate Stopped(c: Core) {
    c.shutdown.SStopped? || Joined(c)
  }

  predicate Joined(c: Core) {
    c.shutdown.SJoined? || PendingGone(c)
  }

  predicate PendingGone(c: Core) {
    c.shutdown.SPendingTaken? || QueueGone(c)
  }

  predicate QueueGone(c: Core) {
    c.shutdown.SQueueTaken? || c.shutdown.SDone?
  }

  /** What each phase of the shutdown has already disposed of. */
  ghost predicate Disposed(s: Client) {
    && (s.calls.running <==> !Stopped(s.core))
    && (Joined(s.core) ==> s.calls.worker.WExited? && s.calls.responder.RExited? && s.calls.watchdog.TExited?)
    && (PendingGone(s.core) ==> s.calls.pending == map[])
    && (QueueGone(s.core) ==> s.calls.queue == [] && !s.calls.admitting)
    && (!s.core.shutdown.SPendingTaken? ==> s.calls.leftPending == map[])
    && (!s.core.shutdown.SQueueTaken? ==> s.calls.leftQueue == [])
  }

  ghost predicate NoneLost(s: Client) {
    && Inv(s) && Disposed(s)
    && (forall id | id in s.calls.accepted :: Accounted(s, id))
    && (s.calls.worker.WPushing? ==> SafeElsewhere(s, s.calls.worker.id))
  }

  // --- Shutdown phases -----------------------------------------------------------------------

  lemma DisposedFrame(s: Client, l: Label)
    requires Inv(s) && Disposed(s) && l.RunFrame? && Step(s, l).Some?
    ensures Disposed(Step(s, l).value)
  {
    var n := Step(s, l).value;
    if s.core.section.top.EnterClosed? {
      assert n.core.shutdown.SSectionDone?;
    } else {
      FrameKeepsShutdown(s.core, l, !s.calls.worker.WPushing?, s.calls.pending);
    }
  }

  lemma FrameKeepsShutdown(c: Core, l: Label, sessionFree: bool, pending: map<nat, Pending>)
    requires l.RunFrame? && RunCore(c, l, sessionFree, pending).Some? && !c.section.top.EnterClosed?
    ensures RunCore(c, l, sessionFree, pending).value.shutdown == c.shutdown
  {
  }

  lemma DisposedWork(s: Client, l: Label)
    requires Inv(s) && Disposed(s) && (InvokeLabel(l) || SubmitLabel(l) || ReceiveLabel(l)) && Step(s, l).Some?
    ensures Disposed(Step(s, l).value)
  {
  }

  lemma DisposedAdmin(s: Client, l: Label)
    requires Inv(s) && Disposed(s) && Step(s, l).Some?
    requires !l.RunFrame? && !InvokeLabel(l) && !SubmitLabel(l) && !ReceiveLabel(l)
    ensures Disposed(Step(s, l).value)
  {
    if LockLabel(l) {
      assert Stopped(Enter(s.core, l).value) == Stopped(s.core);
    }
  }

  lemma DisposedStep(s: Client, l: Label)
    requires Inv(s) && Disposed(s) && Step(s, l).Some?
    ensures Disposed(Step(s, l).value)
  {
    if l.RunFrame? {
      DisposedFrame(s, l);
    } else if InvokeLabel(l) || SubmitLabel(l) || ReceiveLabel(l) {
      DisposedWork(s, l);
    } else {
      DisposedAdmin(s, l);
    }
  }

  // --- Hands ---------------------------------------------------------------------------------

  lemma DrainKeepsHand(c: Core, k: Calls, l: Label, sessionFree: bool, id: nat)
    requires CoreInv(c) && l.RunFrame? && c.section.Held? && RunDrain(c, l, sessionFree, k.pending).Some?
    requires id in FrameHand(c.section)
    ensures id in FrameHand(RunDrain(c, l, sessionFree, k.pending).value.section)
            || id in RunCalls(c.section.top, k, l).replies
  {
    match c.section.top
    case Failing(_, _, _) =>
    case FailResolve(_, _, _, _) =>
    case Resolving(_, _, _) =>
  }

  lemma DeathKeepsHand(c: Core, k: Calls, l: Label, sessionFree: bool, id: nat)
    requires l.RunFrame? && c.section.Held? && RunClosing(c, l, sessionFree, k.pending).Some?
    requires id in FrameHand(c.section)
    ensures id in FrameHand(RunClosing(c, l, sessionFree, k.pending).value.section)
            || id in RunCalls(c.section.top, k, l).replies
  {
  }

  /** A section keeps what it holds until it has resolved it. */
  lemma FrameKeepsHand(c: Core, k: Calls, l: Label, sessionFree: bool, id: nat)
    requires CoreInv(c) && l.RunFrame? && RunCore(c, l, sessionFree, k.pending).Some?
    requires id in FrameHand(c.section)
    ensures id in FrameHand(RunCore(c, l, sessionFree, k.pending).value.section)
            || id in RunCalls(c.section.top, k, l).replies
  {
    if DrainFrame(c.section.top) {
      DrainKeepsHand(c, k, l, sessionFree, id);
    } else {
      DeathKeepsHand(c, k, l, sessionFree, id);
    }
  }

  /** A section that drains the store takes every pending request into its hand. */
  lemma FrameTakesPending(c: Core, k: Calls, l: Label, sessionFree: bool, id: nat)
    requires l.RunFrame? && RunCore(c, l, sessionFree, k.pending).Some?
    requires id in k.pending
    ensures id in FrameHand(RunCore(c, l, sessionFree, k.pending).value.section)
            || id in RunCalls(c.section.top, k, l).pending
  {
    match c.section.top
    case DrainForRestart(_, _, _) =>
    case DrainForDeath(_, _) =>
    case _ => assert RunCalls(c.section.top, k, l).pending == k.pending;
  }

  /** Apart from its own hand and the store, a section touches only the futures, and there it
      only adds. */
  lemma FrameLeavesRest(k: Calls, f: Frame, l: Label)
    requires l.RunFrame?
    ensures var n := RunCalls(f, k, l);
      && k.replies.Keys <= n.replies.Keys
      && n == k.(replies := n.replies, pending := n.pending)
  {
  }

  lemma FrameKeepsSafe(s: Client, l: Label, id: nat)
    requires Inv(s) && l.RunFrame? && Step(s, l).Some? && SafeElsewhere(s, id)
    ensures SafeElsewhere(Step(s, l).value, id)
  {
    var free := !s.calls.worker.WPushing?;
    FrameLeavesRest(s.calls, s.core.section.top, l);
    if id in FrameHand(s.core.section) {
      FrameKeepsHand(s.core, s.calls, l, free, id);
    } else if id in s.calls.pending {
      FrameTakesPending(s.core, s.calls, l, free, id);
    }
  }

  lemma ReceiveKeepsSafe(s: Client, l: Label, id: nat)
    requires Inv(s) && ReceiveLabel(l) && Step(s, l).Some? && SafeElsewhere(s, id)
    ensures SafeElsewhere(Step(s, l).value, id)
  {
  }

  lemma AdminKeepsSafe(s: Client, l: Label, id: nat)
    requires Inv(s) && Step(s, l).Some? && SafeElsewhere(s, id)
    requires !LockLabel(l) && !l.RunFrame? && !InvokeLabel(l) && !SubmitLabel(l) && !ReceiveLabel(l)
    requires Disposed(s)
    ensures SafeElsewhere(Step(s, l).value, id)
  {
    var n := Step(s, l).value;
    assert n.core.section == s.core.section;
    if l.FailQueued? {
      assert s.calls.leftQueue == [s.calls.leftQueue[0]] + n.calls.leftQueue;
    }
  }

  /** Entering a section takes nothing from anybody. */
  lemma LockKeepsSafe(s: Client, l: Label, id: nat)
    requires LockLabel(l) && Step(s, l).Some? && SafeElsewhere(s, id)
    ensures SafeElsewhere(Step(s, l).value, id)
  {
    assert s.core.section.Free?;
  }

  lemma InvokeKeepsSafe(s: Client, l: Label, id: nat)
    requires InvokeLabel(l) && Step(s, l).Some? && SafeElsewhere(s, id)
    ensures SafeElsewhere(Step(s, l).value, id)
  {
  }

  /** The submit worker takes a future from elsewhere only into its own hands. */
  lemma SubmitKeepsAccounted(s: Client, l: Label, id: nat)
    requires SubmitLabel(l) && Step(s, l).Some? && SafeElsewhere(s, id)
    ensures Accounted(Step(s, l).value, id)
    ensures l.PutPending? || l.WorkerFail? || l.WorkerResolve? || l.WorkerExit? ==> SafeElsewhere(Step(s, l).value, id)
  {
  }

  lemma WorkerUntouched(s: Client, l: Label)
    requires Step(s, l).Some? && !SubmitLabel(l)
    ensures Step(s, l).value.calls.worker == s.calls.worker
  {
  }

  lemma WorkerKeepsOwn(s: Client, l: Label, id: nat)
    requires Step(s, l).Some? && WorkerHolds(s.calls.worker, id)
    requires s.calls.worker.WPushing? ==> SafeElsewhere(s, id)
    ensures Accounted(Step(s, l).value, id)
  {
    if SubmitLabel(l) {
      if s.calls.worker.WPushing? {
        SubmitKeepsAccounted(s, l, id);
      }
    } else {
      WorkerUntouched(s, l);
    }
  }

  lemma SafeStep(s: Client, l: Label, id: nat)
    requires Inv(s) && Disposed(s) && Step(s, l).Some? && SafeElsewhere(s, id)
    ensures Accounted(Step(s, l).value, id)
    ensures !SubmitLabel(l) ==> SafeElsewhere(Step(s, l).value, id)
  {
    if LockLabel(l) {
      LockKeepsSafe(s, l, id);
    } else if l.RunFrame? {
      FrameKeepsSafe(s, l, id);
    } else if InvokeLabel(l) {
      InvokeKeepsSafe(s, l, id);
    } else if SubmitLabel(l) {
      SubmitKeepsAccounted(s, l, id);
    } else if ReceiveLabel(l) {
      ReceiveKeepsSafe(s, l, id);
    } else {
      AdminKeepsSafe(s, l, id);
    }
  }

  /** The ids that a step adds to the accepted calls are queued. */
  lemma AcceptedStep(s: Client, l: Label, id: nat)
    requires Step(s, l).Some? && id in Step(s, l).value.calls.accepted
    ensures id in s.calls.accepted || id in Step(s, l).value.calls.queue
  {
  }

  /** While a push is under way the request is in the store or was taken from it by a resolver. */
  lemma PushingStep(s: Client, l: Label)
    requires NoneLost(s) && Step(s, l).Some? && Step(s, l).value.calls.worker.WPushing?
    ensures SafeElsewhere(Step(s, l).value, Step(s, l).value.calls.worker.id)
  {
    var n := Step(s, l).value;
    if SubmitLabel(l) {
      assert l.PutPending?;
      assert n.calls.worker.id in n.calls.pending;
    } else {
      WorkerUntouched(s, l);
      SafeStep(s, l, s.calls.worker.id);
    }
  }

  lemma StepLosesNone(s: Client, l: Label)
    requires NoneLost(s) && Step(s, l).Some?
    ensures NoneLost(Step(s, l).value)
  {
    var n := Step(s, l).value;
    StepKeeps(s, l);
    DisposedStep(s, l);
    forall id | id in n.calls.accepted ensures Accounted(n, id) {
      AcceptedStep(s, l, id);
      if id in s.calls.accepted {
        if SafeElsewhere(s, id) {
          SafeStep(s, l, id);
        } else {
          WorkerKeepsOwn(s, l, id);
        }
      }
    }
    if n.calls.worker.WPushing? {
      PushingStep(s, l);
    }
  }

  lemma ReachableLosesNone(s: Client)
    requires Reachable(s)
    ensures NoneLost(s)
  {
    var eager: bool, now: nat, run: seq<Label> :| Exec(Step, ClientModel.Started(eager, now), run) == Some(s);
    StartedOk(eager, now);
    forall x: Client, l: Label | NoneLost(x) && Step(x, l).Some? ensures NoneLost(Step(x, l).value) {
      StepLosesNone(x, l);
    }
    Invariant(Step, NoneLost, ClientModel.Started(eager, now), run);
  }

  // --- Main results ---------------------------------------------------------------------------

  /** In every reachable state each accepted call's future is resolved, or held by the submit
      queue, the submit worker, the store, or a thread that is about to resolve it. */
  lemma NoFutureIsLost(s: Client, id: nat)
    requires Reachable(s) && id in s.calls.accepted
    ensures Accounted(s, id)
  {
    ReachableLosesNone(s);
  }

  ghost predicate AllResolved(s: Client) {
    s.calls.accepted <= s.calls.replies.Keys
  }

  /** Once the control word says `Closed`, every accepted future is resolved. */
  lemma ShutdownResolvesAll(s: Client)
    requires Reachable(s) && s.core.control == Closed
    ensures AllResolved(s)
  {
    ReachableLosesNone(s);
    forall id | id in s.calls.accepted ensures id in s.calls.replies {
      assert Accounted(s, id);
    }
  }

  ghost predicate Extends(before: map<nat, Status>, after: map<nat, Status>) {
    forall id | id in before :: id in after && after[id] == before[id]
  }

  lemma FrameExtends(k: Calls, f: Frame, l: Label)
    requires l.RunFrame?
    ensures Extends(k.replies, RunCalls(f, k, l).replies)
  {
  }

  lemma WorkExtends(s: Client, l: Label)
    requires InvokeLabel(l) || SubmitLabel(l) || ReceiveLabel(l)
    requires CallsStep(s, l).Some?
    ensures Extends(s.calls.replies, CallsStep(s, l).value.replies)
  {
  }

  lemma RepliesStep(s: Client, l: Label)
    requires Step(s, l).Some?
    ensures Extends(s.calls.replies, Step(s, l).value.calls.replies)
  {
    if l.RunFrame? {
      FrameExtends(s.calls, s.core.section.top, l);
    } else if InvokeLabel(l) || SubmitLabel(l) || ReceiveLabel(l) {
      WorkExtends(s, l);
    } else if !LockLabel(l) {
      assert Extends(s.calls.replies, AdministerCalls(s.calls, l).replies);
    }
  }

  /** The first resolution of a future never changes. */
  lemma {:induction false} FirstResolutionStands(s: Client, run: seq<Label>, t: Client, id: nat)
    requires Exec(Step, s, run) == Some(t) && id in s.calls.replies
    ensures id in t.calls.replies && t.calls.replies[id] == s.calls.replies[id]
    decreases |run|
  {
    if run != [] {
      RepliesStep(s, run[0]);
      FirstResolutionStands(Step(s, run[0]).value, run[1..], t, id);
    }
  }

  /** A call is accepted by an open client and not yet resolved. */
  lemma AcceptCall(s: Client) returns (t: Client)
    requires Reachable(s) && s.core.control == Open && !s.calls.admitting && s.calls.nextId !in s.calls.replies
    ensures Reachable(t) && t.core == s.core
    ensures s.calls.nextId in t.calls.accepted && s.calls.nextId !in t.calls.replies
  {
    var m := Step(s, AdmitInvoke).value;
    ReachableThen(s, AdmitInvoke, m);
    t := Step(m, EnqueueInvoke).value;
    ReachableThen(m, EnqueueInvoke, t);
  }

  /** A reachable client that is closing and has an accepted future still unresolved. */
  lemma ClosingWithUnresolvedCall(now: nat) returns (s: Client, id: nat)
    ensures Reachable(s) && s.core.control == Closing
    ensures id in s.calls.accepted && id !in s.calls.replies
  {
    var s0 := ClientModel.Started(false, now);
    ReachableStarted(false, now);
    var s1 := Step(s0, FinishInit).value;
    ReachableThen(s0, FinishInit, s1);
    id := s1.calls.nextId;
    var s2 := AcceptCall(s1);
    s := Step(s2, BeginShutdown).value;
    ReachableThen(s2, BeginShutdown, s);
  }

  /** What the control word tells a caller about the futures once a shutdown has begun: they are
      sure to be resolved if and only if it says `Closed`. */
  lemma ResolvedExactlyWhenClosed(c: Control)
    requires c.Closing? || c.Closed?
    ensures (forall s | Reachable(s) && s.core.control == c :: AllResolved(s)) <==> c == Closed
  {
    if c.Closed? {
      forall s | Reachable(s) && s.core.control == c ensures AllResolved(s) {
        ShutdownResolvesAll(s);
      }
    } else {
      var s, id := ClosingWithUnresolvedCall(0);
      assert !AllResolved(s);
    }
  }
}
