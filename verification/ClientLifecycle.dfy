/** What every step of the client keeps about its session, its recovery machine and its
    shutdown, and what follows over whole runs. */
module ClientLifecycle {
  import opened Runs
  import opened ClientTypes
  import opened ClientModel

  ghost predicate TagsUsed(used: set<nat>, hand: map<nat, Pending>) {
    forall id | id in hand :: hand[id].session in used
  }

  /** What a frame may rely on, whatever the control state. */
  ghost predicate Shape(c: Core, f: Frame) {
    match f
    case Decide(_, o, _) => c.session == o || c.session == 0
    case CloseForIdle(o) => c.session == o || c.session == 0
    case EnterIdle => c.session == 0
    case BeginRecovery(o, _, _) => c.session == o || c.session == 0
    case CloseForRestart(o, _, _) => c.session == o || c.session == 0
    case DrainForRestart(o, _, _) => c.session == 0
    case Failing(_, _, hand) => c.session == 0 && TagsUsed(c.used, hand)
    case FailResolve(_, _, hand, which) => c.session == 0 && TagsUsed(c.used, hand) && which in hand
    case Resolving(_, _, _) => c.session == 0
    case Reconnect(_) => c.session == 0
    case Ensure => true
    case OpenSession => c.session == 0 && c.recovery.cooldownUntil <= c.now
    case FinalizeOpen => c.session != 0
    case OpenFailed => c.session == 0
    case CloseForDeath(o, _) => c.session == o && o != 0
    case DrainForDeath(o, _) => c.session == 0 && o != 0
    case ResolvingDeath(_, _, _) => c.session == 0
    case DecideDeath(_, _) => c.session == 0
    case CloseForTransport => true
    case CloseForShutdown => true
    case EnterClosed => c.session == 0
  }

  /** The session is dead or one that the bootstrap handed out, and the section that holds the
      lifecycle mutex has a single frame: recovery never re-enters itself. */
  ghost predicate Structure(c: Core) {
    && 0 !in c.used
    && (c.session != 0 ==> c.session in c.used)
    && (c.section.Held? ==> c.section.rest.Free?)
    && (c.section.Held? ==> Shape(c, c.section.top))
  }

  predicate PreShutdown(c: Core) {
    c.control.Uninitialized? || c.control.Open?
  }

  predicate SectionFinished(c: Core) {
    !c.shutdown.SNone? && !c.shutdown.SBegan? && !c.shutdown.SSection?
  }

  predicate ShutdownFrame(f: Frame) {
    f.CloseForShutdown? || f.EnterClosed?
  }

  /** Control state, shutdown progress and the terminal lifecycle state move together. */
  ghost predicate Phases(c: Core) {
    && (PreShutdown(c) <==> c.shutdown.SNone?)
    && (c.control.Closed? <==> c.shutdown.SDone?)
    && (c.shutdown.SSection? <==> c.section.Held? && ShutdownFrame(c.section.top))
    && (SectionFinished(c) <==> c.recovery.lifecycle.Terminated?)
    && (SectionFinished(c) ==> c.session == 0)
    && (SectionFinished(c) && c.section.Held? ==> c.section.top.Ensure? || c.section.top.CloseForTransport?)
  }

  /** The lifecycle invariant that holds whenever the lifecycle mutex is free. */
  predicate Stable(c: Core) {
    && (c.session != 0 ==> c.recovery.lifecycle.Active?)
    && (c.recovery.cooldownUntil != 0 ==> c.recovery.lifecycle.Cooldown? && c.session == 0)
    && !c.recovery.lifecycle.Recovering?
  }

  /** The lifecycle right after a recovery with this delay was started. */
  predicate RecoveryStarted(c: Core, delay: nat) {
    if delay == 0 then c.recovery.lifecycle.Recovering? && c.recovery.cooldownUntil <= c.now
    else c.recovery.lifecycle.Cooldown?
  }

  /** The lifecycle while a session is being opened. */
  predicate Opening(c: Core) {
    || c.recovery.lifecycle.Recovering?
    || (c.recovery.lifecycle.Unstarted? && c.recovery.cooldownUntil == 0)
  }

  ghost predicate Midway(c: Core, f: Frame) {
    match f
    case CloseForRestart(_, delay, _) => RecoveryStarted(c, delay)
    case DrainForRestart(_, delay, _) => RecoveryStarted(c, delay)
    case Failing(_, delay, _) => RecoveryStarted(c, delay)
    case FailResolve(_, delay, _, _) => RecoveryStarted(c, delay)
    case Resolving(_, delay, _) => RecoveryStarted(c, delay)
    case Reconnect(delay) => RecoveryStarted(c, delay)
    case Ensure => Stable(c) || (c.session == 0 && RecoveryStarted(c, 0))
    case OpenSession => Opening(c)
    case FinalizeOpen => true
    case OpenFailed => Opening(c)
    case EnterIdle => true
    case _ => Stable(c)
  }

  ghost predicate Settled(c: Core) {
    PreShutdown(c) ==> if c.section.Free? then Stable(c) else Midway(c, c.section.top)
  }

  ghost predicate CoreInv(c: Core) {
    Structure(c) && Phases(c) && Settled(c)
  }

  ghost predicate Inv(s: Client) {
    CoreInv(s.core) && TagsUsed(s.core.used, s.calls.pending)
  }

  // --- Preservation ---------------------------------------------------------------------------

  lemma EnterKeeps(c: Core, l: Label)
    requires CoreInv(c) && Enter(c, l).Some?
    ensures CoreInv(Enter(c, l).value)
  {
  }

  lemma DecisionKeeps(c: Core, l: Label, sessionFree: bool)
    requires CoreInv(c) && l.RunFrame? && c.section.Held? && RunDecision(c, l, sessionFree).Some?
    ensures CoreInv(RunDecision(c, l, sessionFree).value)
  {
    match c.section.top
    case Decide(_, _, _) =>
    case CloseForIdle(_) =>
    case EnterIdle =>
    case BeginRecovery(_, _, _) =>
  }

  lemma DrainKeeps(c: Core, l: Label, sessionFree: bool, pending: map<nat, Pending>)
    requires CoreInv(c) && l.RunFrame? && c.section.Held?
    requires RunDrain(c, l, sessionFree, pending).Some? && TagsUsed(c.used, pending)
    ensures CoreInv(RunDrain(c, l, sessionFree, pending).value)
  {
    match c.section.top
    case CloseForRestart(_, _, _) =>
    case DrainForRestart(_, _, _) =>
    case Failing(_, _, _) =>
    case FailResolve(_, _, _, _) =>
    case Resolving(_, _, _) =>
    case Reconnect(_) =>
  }

  lemma EnsureKeeps(c: Core, l: Label, sessionFree: bool)
    requires CoreInv(c) && l.RunFrame? && c.section.Held? && RunEnsure(c, l, sessionFree).Some?
    ensures CoreInv(RunEnsure(c, l, sessionFree).value)
  {
    match c.section.top
    case Ensure =>
    case OpenSession =>
    case FinalizeOpen =>
    case OpenFailed =>
  }

  lemma ClosingKeeps(c: Core, l: Label, sessionFree: bool, pending: map<nat, Pending>)
    requires CoreInv(c) && l.RunFrame? && c.section.Held?
    requires RunClosing(c, l, sessionFree, pending).Some? && TagsUsed(c.used, pending)
    ensures CoreInv(RunClosing(c, l, sessionFree, pending).value)
  {
    match c.section.top
    case CloseForDeath(_, _) =>
    case DrainForDeath(_, _) =>
    case ResolvingDeath(_, _, _) =>
    case DecideDeath(_, _) =>
    case CloseForTransport =>
    case CloseForShutdown =>
    case EnterClosed =>
  }

  lemma AdministerKeeps(c: Core, k: Calls, l: Label)
    requires CoreInv(c) && Administer(c, k, l).Some?
    ensures CoreInv(Administer(c, k, l).value)
  {
  }

  lemma CoreStepKeeps(s: Client, l: Label)
    requires Inv(s) && CoreStep(s, l).Some?
    ensures CoreInv(CoreStep(s, l).value)
  {
    var c, free, pending := s.core, !s.calls.worker.WPushing?, s.calls.pending;
    if LockLabel(l) {
      EnterKeeps(c, l);
    } else if l.RunFrame? {
      if DecisionFrame(c.section.top) {
        DecisionKeeps(c, l, free);
      } else if DrainFrame(c.section.top) {
        DrainKeeps(c, l, free, pending);
      } else if EnsureFrame(c.section.top) {
        EnsureKeeps(c, l, free);
      } else {
        ClosingKeeps(c, l, free, pending);
      }
    } else if !(InvokeLabel(l) || SubmitLabel(l) || ReceiveLabel(l)) {
      AdministerKeeps(c, s.calls, l);
    }
  }

  lemma UsedGrows(s: Client, l: Label)
    requires CoreStep(s, l).Some?
    ensures s.core.used <= CoreStep(s, l).value.used
  {
  }

  lemma TagsKeep(s: Client, l: Label)
    requires Inv(s) && CallsStep(s, l).Some?
    ensures TagsUsed(s.core.used, CallsStep(s, l).value.pending)
  {
  }

  lemma StepKeeps(s: Client, l: Label)
    requires Inv(s) && Step(s, l).Some?
    ensures Inv(Step(s, l).value)
  {
    CoreStepKeeps(s, l);
    UsedGrows(s, l);
    TagsKeep(s, l);
  }

  lemma StartedOk(eager: bool, now: nat)
    ensures Inv(ClientModel.Started(eager, now))
  {
  }

  lemma StepsPreserve()
    ensures Preserved(Step, Inv)
  {
    forall s: Client, l: Label | Inv(s) && Step(s, l).Some? ensures Inv(Step(s, l).value) {
      StepKeeps(s, l);
    }
  }

  /** A state that some run of the client reaches. */
  ghost predicate Reachable(s: Client) {
    exists eager: bool, now: nat, run: seq<Label> :: Exec(Step, ClientModel.Started(eager, now), run) == Some(s)
  }

  lemma ReachableStarted(eager: bool, now: nat)
    ensures Reachable(ClientModel.Started(eager, now))
  {
    assert Exec(Step, ClientModel.Started(eager, now), []) == Some(ClientModel.Started(eager, now));
  }

  lemma ReachableThen(s: Client, l: Label, t: Client)
    requires Reachable(s) && Step(s, l) == Some(t)
    ensures Reachable(t)
  {
    var eager: bool, now: nat, run: seq<Label> :| Exec(Step, ClientModel.Started(eager, now), run) == Some(s);
    ExecConcat(Step, ClientModel.Started(eager, now), run, [l]);
    assert Exec(Step, s, [l]) == Some(t) by {
      assert Exec(Step, t, [l][1..]) == Some(t);
    }
  }

  lemma ReachableOk(s: Client)
    requires Reachable(s)
    ensures Inv(s)
  {
    var eager: bool, now: nat, run: seq<Label> :| Exec(Step, ClientModel.Started(eager, now), run) == Some(s);
    StartedOk(eager, now);
    StepsPreserve();
    Invariant(Step, Inv, ClientModel.Started(eager, now), run);
  }

  lemma RunFromOk(s: Client, run: seq<Label>)
    requires Inv(s) && Exec(Step, s, run).Some?
    ensures Inv(Exec(Step, s, run).value)
  {
    StepsPreserve();
    Invariant(Step, Inv, s, run);
  }

  // --- Main results -----------------------------------------------------------------------------

  /** Whenever the lifecycle mutex is free and no shutdown has begun: a live session means
      `Active`, a cooldown window means `Cooldown` without a session, and `Recovering` does not
      outlive the section that entered it. */
  lemma LifecycleInvariant(s: Client)
    requires Reachable(s) && s.core.section.Free? && PreShutdown(s.core)
    ensures s.core.session != 0 ==> s.core.recovery.lifecycle == Active
    ensures s.core.recovery.cooldownUntil != 0 ==> s.core.recovery.lifecycle == Cooldown && s.core.session == 0
    ensures s.core.recovery.lifecycle != Recovering && s.core.recovery.lifecycle != Terminated
  {
    ReachableOk(s);
  }

  /** Failure handling that re-enters while a recovery drains the store never starts a second
      recovery: its request belongs to a session that is already closed. */
  lemma RecoveryNeverNests(s: Client)
    requires Reachable(s) && s.core.section.Held?
    ensures s.core.section.rest == Free
    ensures s.core.section.top.Failing? ==>
      s.core.session == 0 && forall id | id in s.core.section.top.hand :: s.core.section.top.hand[id].session != 0
  {
    ReachableOk(s);
  }

  /** So the failure handling that a recovery runs for each request it drained is as stale as an
      event for an old session: whatever policy decides, it leaves session, lifecycle, cooldown
      window and store alone, and the recovery goes on. */
  lemma ReentrantFailureIgnored(s: Client, l: Label)
    requires Reachable(s) && s.core.section.Held? && (s.core.section.top.Failing? || s.core.section.top.FailResolve?)
    requires l.RunFrame? && Step(s, l).Some?
    ensures var n := Step(s, l).value;
      && n.core == s.core.(section := n.core.section) && n.calls.pending == s.calls.pending
      && n.core.section.Held? && n.core.section.rest == Free
      && (n.core.section.top.Failing? || n.core.section.top.FailResolve? || n.core.section.top.Reconnect?)
  {
    RecoveryNeverNests(s);
  }

  lemma StaleEvent(s: Client, observed: nat, l: Label)
    requires s.core.section.Free? && observed != s.core.session
    requires || (l.LockFailure? && l.observed == observed)
             || (l.LockIdle? && l.observed == observed)
             || (l.LockExternal? && l.observed == observed)
             || (l.LockDeath? && l.observed == observed)
    ensures Step(s, l) == Some(s)
  {
  }

  /** The event names a session other than `current`. */
  predicate EventForOther(l: Label, current: nat) {
    || (l.LockExternal? && l.requested != 0 && l.requested != current)
    || (l.LockDeath? && l.dead != 0 && l.dead != current)
  }

  lemma MismatchedEvent(s: Client, l: Label)
    requires s.core.section.Free? && EventForOther(l, s.core.session)
    ensures Step(s, l) == Some(s)
  {
  }

  /** The event was observed for session `o`, or names it. */
  predicate EventFor(l: Label, o: nat) {
    match l
    case LockFailure(observed, _) => observed == o
    case LockIdle(observed, _) => observed == o
    case LockExternal(observed, requested, _) => observed == o || requested == o
    case LockDeath(observed, dead, _) => observed == o || dead == o
    case _ => false
  }

  /** Session `o` was handed out once and is over. */
  predicate Over(c: Core, o: nat) {
    o in c.used && o != c.session
  }

  lemma FrameKeepsOver(c: Core, l: Label, sessionFree: bool, pending: map<nat, Pending>, o: nat)
    requires l.RunFrame? && RunCore(c, l, sessionFree, pending).Some? && o != 0 && Over(c, o)
    ensures Over(RunCore(c, l, sessionFree, pending).value, o)
  {
    if EnsureFrame(c.section.top) {
      assert Over(RunEnsure(c, l, sessionFree).value, o);
    }
  }

  lemma StepKeepsOver(s: Client, l: Label, o: nat)
    requires o != 0 && Over(s.core, o) && Step(s, l).Some?
    ensures Over(Step(s, l).value.core, o)
  {
    if l.RunFrame? {
      FrameKeepsOver(s.core, l, !s.calls.worker.WPushing?, s.calls.pending, o);
    } else if LockLabel(l) {
      assert Over(Enter(s.core, l).value, o);
    } else if !(InvokeLabel(l) || SubmitLabel(l) || ReceiveLabel(l)) {
      assert Over(Administer(s.core, s.calls, l).value, o);
    }
  }

  /** Once a session is over it stays over, in every continuation, and no failure, idle, external
      or death event that was observed for it or names it changes anything any more: neither
      session, lifecycle, cooldown window, store nor queue.  It does not matter what ended it. */
  lemma {:induction false} StaleEventsIgnored(s: Client, run: seq<Label>, t: Client, o: nat, l: Label)
    requires Reachable(s) && Over(s.core, o) && Exec(Step, s, run) == Some(t)
    requires EventFor(l, o) && t.core.section.Free?
    ensures Over(t.core, o) && Step(t, l) == Some(t)
    decreases |run|
  {
    ReachableOk(s);
    if run != [] {
      StepKeepsOver(s, run[0], o);
      ReachableThen(s, run[0], Step(s, run[0]).value);
      StaleEventsIgnored(Step(s, run[0]).value, run[1..], t, o, l);
    } else if EventForOther(l, t.core.session) {
      MismatchedEvent(t, l);
    } else {
      StaleEvent(t, o, l);
    }
  }

  function ControlRank(c: Control): (n: nat) {
    match c case Uninitialized => 0 case Open => 1 case Closing => 2 case Closed => 3
  }

  lemma {:induction false} ControlForward(s: Client, run: seq<Label>)
    requires Inv(s) && Exec(Step, s, run).Some?
    ensures ControlRank(s.core.control) <= ControlRank(Exec(Step, s, run).value.core.control)
    decreases |run|
  {
    if run != [] {
      var m := Step(s, run[0]).value;
      StepKeeps(s, run[0]);
      ControlStepForward(s, run[0]);
      ControlForward(m, run[1..]);
    }
  }

  lemma FramesKeepControl(c: Core, l: Label, sessionFree: bool, pending: map<nat, Pending>)
    requires l.RunFrame? && RunCore(c, l, sessionFree, pending).Some?
    ensures RunCore(c, l, sessionFree, pending).value.control == c.control
  {
  }

  lemma ControlStepForward(s: Client, l: Label)
    requires Inv(s) && Step(s, l).Some?
    ensures ControlRank(s.core.control) <= ControlRank(Step(s, l).value.core.control)
  {
    if l.RunFrame? {
      FramesKeepControl(s.core, l, !s.calls.worker.WPushing?, s.calls.pending);
    } else if LockLabel(l) {
      assert Enter(s.core, l).value.control == s.core.control;
    } else if !(InvokeLabel(l) || SubmitLabel(l) || ReceiveLabel(l)) {
      assert ControlRank(s.core.control) <= ControlRank(Administer(s.core, s.calls, l).value.control);
    }
  }

  /** Closed is absorbing: once the lifecycle is `Terminated`, no event, failure, timeout or
      recovery request changes it, opens a session or publishes a session id, ever. */
  lemma ClosedIsAbsorbing(s: Client, run: seq<Label>, t: Client)
    requires Reachable(s) && s.core.recovery.lifecycle == Terminated
    requires Exec(Step, s, run) == Some(t)
    ensures t.core.recovery.lifecycle == Terminated && t.core.session == 0 && t.core.used == s.core.used
    ensures ControlRank(Closing) <= ControlRank(t.core.control)
  {
    ReachableOk(s);
    RunFromOk(s, run);
    TerminatedRun(s, run);
  }

  lemma TerminatedStep(s: Client, l: Label)
    requires Inv(s) && s.core.recovery.lifecycle.Terminated? && Step(s, l).Some?
    ensures Inv(Step(s, l).value)
    ensures Step(s, l).value.core.recovery.lifecycle.Terminated? && Step(s, l).value.core.used == s.core.used
  {
    StepKeeps(s, l);
  }

  lemma {:induction false} TerminatedRun(s: Client, run: seq<Label>)
    requires Inv(s) && s.core.recovery.lifecycle.Terminated? && Exec(Step, s, run).Some?
    ensures var t := Exec(Step, s, run).value; t.core.recovery.lifecycle.Terminated? && t.core.used == s.core.used
    decreases |run|
  {
    if run != [] {
      TerminatedStep(s, run[0]);
      TerminatedRun(Step(s, run[0]).value, run[1..]);
    }
  }
}
