/** Draining is complete: after a section that closed a session has drained the store, no
    pending request belongs to that session, and none can be added later, although pushes
    take only the session mutex and drains only the store's own lock. */
module ClientDraining {
  import opened Runs
  import opened ClientTypes
  import opened ClientModel
  import opened ClientLifecycle

  /** The session a frame is working on, 0 if none. */
  function ObservedOf(f: Frame): (o: nat) {
    match f
    case Decide(_, o, _) => o
    case BeginRecovery(o, _, _) => o
    case CloseForRestart(o, _, _) => o
    case DrainForRestart(o, _, _) => o
    case CloseForDeath(o, _) => o
    case DrainForDeath(o, _) => o
    case ResolvingDeath(o, _, _) => o
    case DecideDeath(o, _) => o
    case _ => 0
  }

  ghost predicate NoneTagged(pending: map<nat, Pending>, drained: set<nat>) {
    forall id | id in pending :: pending[id].session !in drained
  }

  /** Drained sessions are old sessions, not the live one. */
  ghost predicate CoreDrained(c: Core) {
    && c.drained <= c.used + {0}
    && (c.session != 0 ==> c.session !in c.drained)
    && (c.section.Held? ==> ObservedOf(c.section.top) in c.used + {0})
  }

  ghost predicate Drained(s: Client) {
    Inv(s) && CoreDrained(s.core) && NoneTagged(s.calls.pending, s.core.drained)
  }

  lemma DecisionKeepsDrained(c: Core, l: Label, sessionFree: bool)
    requires CoreInv(c) && CoreDrained(c) && l.RunFrame? && c.section.Held? && RunDecision(c, l, sessionFree).Some?
    ensures CoreDrained(RunDecision(c, l, sessionFree).value)
  {
  }

  lemma DrainKeepsDrained(c: Core, l: Label, sessionFree: bool, pending: map<nat, Pending>)
    requires CoreInv(c) && CoreDrained(c) && l.RunFrame? && c.section.Held?
    requires RunDrain(c, l, sessionFree, pending).Some?
    ensures CoreDrained(RunDrain(c, l, sessionFree, pending).value)
  {
  }

  lemma EnsureKeepsDrained(c: Core, l: Label, sessionFree: bool)
    requires CoreInv(c) && CoreDrained(c) && l.RunFrame? && c.section.Held? && RunEnsure(c, l, sessionFree).Some?
    ensures CoreDrained(RunEnsure(c, l, sessionFree).value)
  {
  }

  lemma ClosingKeepsDrained(c: Core, l: Label, sessionFree: bool, pending: map<nat, Pending>)
    requires CoreInv(c) && CoreDrained(c) && l.RunFrame? && c.section.Held?
    requires RunClosing(c, l, sessionFree, pending).Some?
    ensures CoreDrained(RunClosing(c, l, sessionFree, pending).value)
  {
  }

  lemma FrameKeepsDrained(c: Core, l: Label, sessionFree: bool, pending: map<nat, Pending>)
    requires CoreInv(c) && CoreDrained(c) && l.RunFrame? && RunCore(c, l, sessionFree, pending).Some?
    ensures CoreDrained(RunCore(c, l, sessionFree, pending).value)
  {
    if DecisionFrame(c.section.top) {
      DecisionKeepsDrained(c, l, sessionFree);
    } else if DrainFrame(c.section.top) {
      DrainKeepsDrained(c, l, sessionFree, pending);
    } else if EnsureFrame(c.section.top) {
      EnsureKeepsDrained(c, l, sessionFree);
    } else {
      ClosingKeepsDrained(c, l, sessionFree, pending);
    }
  }

  lemma CoreKeepsDrained(s: Client, l: Label)
    requires Drained(s) && CoreStep(s, l).Some?
    ensures CoreDrained(CoreStep(s, l).value)
  {
    if l.RunFrame? {
      FrameKeepsDrained(s.core, l, !s.calls.worker.WPushing?, s.calls.pending);
    } else if LockLabel(l) {
      assert CoreDrained(Enter(s.core, l).value);
    } else if !(InvokeLabel(l) || SubmitLabel(l) || ReceiveLabel(l)) {
      assert CoreDrained(Administer(s.core, s.calls, l).value);
    }
  }

  lemma FrameGrowsDrained(c: Core, l: Label, sessionFree: bool, k: Calls)
    requires l.RunFrame? && RunCore(c, l, sessionFree, k.pending).Some?
    ensures c.drained <= RunCore(c, l, sessionFree, k.pending).value.drained
    ensures RunCore(c, l, sessionFree, k.pending).value.drained == c.drained
            || RunCalls(c.section.top, k, l).pending == map[]
  {
    match c.section.top
    case DrainForRestart(_, _, _) =>
    case DrainForDeath(_, _) =>
    case _ => FrameKeepsDrainedSet(c, l, sessionFree, k.pending);
  }

  lemma FrameKeepsDrainedSet(c: Core, l: Label, sessionFree: bool, pending: map<nat, Pending>)
    requires l.RunFrame? && RunCore(c, l, sessionFree, pending).Some?
    requires !c.section.top.DrainForRestart? && !c.section.top.DrainForDeath?
    ensures RunCore(c, l, sessionFree, pending).value.drained == c.drained
  {
  }

  /** A step adds to the drained sessions only by draining the store. */
  lemma DrainedGrowsEmpty(s: Client, l: Label)
    requires Step(s, l).Some?
    ensures s.core.drained <= Step(s, l).value.core.drained
    ensures Step(s, l).value.core.drained == s.core.drained || Step(s, l).value.calls.pending == map[]
  {
    if l.RunFrame? {
      FrameGrowsDrained(s.core, l, !s.calls.worker.WPushing?, s.calls);
    } else if LockLabel(l) {
      assert Enter(s.core, l).value.drained == s.core.drained;
    } else if !(InvokeLabel(l) || SubmitLabel(l) || ReceiveLabel(l)) {
      assert Administer(s.core, s.calls, l).value.drained == s.core.drained;
    }
  }

  /** A step adds a pending request only to the live session. */
  lemma PendingStep(s: Client, l: Label)
    requires CallsStep(s, l).Some?
    ensures forall id | id in CallsStep(s, l).value.pending ::
      var p := CallsStep(s, l).value.pending[id];
      (id in s.calls.pending && p == s.calls.pending[id]) || (p.session == s.core.session && p.session != 0)
  {
  }

  lemma StepKeepsDrained(s: Client, l: Label)
    requires Drained(s) && Step(s, l).Some?
    ensures Drained(Step(s, l).value)
  {
    StepKeeps(s, l);
    CoreKeepsDrained(s, l);
    DrainedGrowsEmpty(s, l);
    PendingStep(s, l);
  }

  lemma {:induction false} RunKeepsDrained(s: Client, run: seq<Label>)
    requires Drained(s) && Exec(Step, s, run).Some?
    ensures Drained(Exec(Step, s, run).value) && s.core.drained <= Exec(Step, s, run).value.core.drained
    decreases |run|
  {
    if run != [] {
      StepKeepsDrained(s, run[0]);
      DrainedGrowsEmpty(s, run[0]);
      RunKeepsDrained(Step(s, run[0]).value, run[1..]);
    }
  }

  lemma ReachableDrained(s: Client)
    requires Reachable(s)
    ensures Drained(s)
  {
    var eager: bool, now: nat, run: seq<Label> :| Exec(Step, ClientModel.Started(eager, now), run) == Some(s);
    StartedOk(eager, now);
    RunKeepsDrained(ClientModel.Started(eager, now), run);
  }

  /** The frame is about to drain the store for session `o`. */
  predicate DrainsFor(f: Frame, o: nat) {
    || (f.DrainForRestart? && f.observed == o && !f.action.KeepCurrentState?)
    || (f.DrainForDeath? && f.observed == o)
  }

  /** From the step in which a restart or an engine-death section drains the store for session
      `o` onwards, over every continuation of the run, no pending request is tagged `o` and `o`
      is never the live session again. */
  lemma DrainingIsComplete(s: Client, l: Label, run: seq<Label>, t: Client, o: nat)
    requires Reachable(s) && s.core.section.Held? && DrainsFor(s.core.section.top, o) && o != 0
    requires l.RunFrame? && Step(s, l).Some? && Exec(Step, Step(s, l).value, run) == Some(t)
    ensures forall id | id in t.calls.pending :: t.calls.pending[id].session != o
    ensures t.core.session != o
  {
    ReachableDrained(s);
    var m := Step(s, l).value;
    StepKeepsDrained(s, l);
    assert o in m.core.drained;
    RunKeepsDrained(m, run);
  }

  lemma CloseLeadsToDrain(s: Client, l: Label)
    requires s.core.section.Held? && l.RunFrame? && Step(s, l).Some?
    requires s.core.section.top.CloseForDeath?
             || (s.core.section.top.CloseForRestart? && !s.core.section.top.action.KeepCurrentState?)
    ensures var n := Step(s, l).value;
      n.core.section.Held? && DrainsFor(n.core.section.top, s.core.section.top.observed)
  {
  }

  /** The frame is about to close session `o` and to dispose of its requests. */
  predicate ClosesFor(f: Frame, o: nat) {
    || (f.CloseForRestart? && f.observed == o && !f.action.KeepCurrentState?)
    || (f.CloseForDeath? && f.observed == o)
  }

  /** Session `o` has been drained, or the section at work is on its way to draining it. */
  ghost predicate Committed(s: Client, o: nat) {
    && Drained(s)
    && (o in s.core.drained
        || (s.core.section.Held? && (ClosesFor(s.core.section.top, o) || DrainsFor(s.core.section.top, o))))
  }

  /** Only running its top frame moves a section on. */
  lemma OthersKeepSection(s: Client, l: Label)
    requires s.core.section.Held? && !l.RunFrame? && Step(s, l).Some?
    ensures Step(s, l).value.core.section == s.core.section
  {
    if !LockLabel(l) && !InvokeLabel(l) && !SubmitLabel(l) && !ReceiveLabel(l) {
      assert Administer(s.core, s.calls, l).value.section == s.core.section;
    }
  }

  lemma DrainStep(s: Client, l: Label, o: nat)
    requires s.core.section.Held? && DrainsFor(s.core.section.top, o) && l.RunFrame? && Step(s, l).Some?
    ensures o in Step(s, l).value.core.drained
  {
  }

  lemma StepKeepsCommitted(s: Client, l: Label, o: nat)
    requires Committed(s, o) && Step(s, l).Some?
    ensures Committed(Step(s, l).value, o)
  {
    StepKeepsDrained(s, l);
    DrainedGrowsEmpty(s, l);
    if o !in s.core.drained {
      if !l.RunFrame? {
        OthersKeepSection(s, l);
      } else if DrainsFor(s.core.section.top, o) {
        DrainStep(s, l, o);
      } else {
        CloseLeadsToDrain(s, l);
      }
    }
  }

  lemma {:induction false} RunKeepsCommitted(s: Client, run: seq<Label>, o: nat)
    requires Committed(s, o) && Exec(Step, s, run).Some?
    ensures Committed(Exec(Step, s, run).value, o)
    decreases |run|
  {
    if run != [] {
      StepKeepsCommitted(s, run[0], o);
      RunKeepsCommitted(Step(s, run[0]).value, run[1..], o);
    }
  }

  /** When a restart or an engine-death section that closed session `o` has ended, and at every
      later moment when the lifecycle mutex is free, no pending request is tagged `o` and `o` is
      not the live session. */
  lemma ClosedSessionIsDrained(s: Client, run: seq<Label>, t: Client, o: nat)
    requires Reachable(s) && s.core.section.Held? && ClosesFor(s.core.section.top, o) && o != 0
    requires Exec(Step, s, run) == Some(t) && t.core.section.Free?
    ensures forall id | id in t.calls.pending :: t.calls.pending[id].session != o
    ensures t.core.session != o
  {
    ReachableDrained(s);
    RunKeepsCommitted(s, run, o);
  }
}
