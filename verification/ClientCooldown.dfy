/** The cooldown gate over whole runs. */
module ClientCooldown {
  import opened Runs
  import opened ClientTypes
  import opened ClientModel
  import opened ClientLifecycle

  /** The step starts a recovery: it sets the cooldown window. */
  predicate StartsRecovery(s: Client, l: Label) {
    l.RunFrame? && s.core.section.Held? && s.core.section.top.BeginRecovery? && s.core.control.Open?
  }

  /** The step asks the bootstrap for a session. */
  predicate AsksBootstrap(s: Client, l: Label) {
    l.RunFrame? && s.core.section.Held? && s.core.section.top.OpenSession?
  }

  /** The step clears the window: an idle close, or an engine death that policy leaves alone. */
  predicate ClearsWindow(s: Client, l: Label) {
    && l.RunFrame? && s.core.section.Held?
    && (s.core.section.top.EnterIdle?
        || (s.core.section.top.DecideDeath? && s.core.section.top.decision.Ignore? && s.core.control.Open?))
  }

  /** No step of the run starts a recovery, asks the bootstrap or clears the window. */
  ghost predicate Undisturbed(s: Client, run: seq<Label>)
    decreases |run|
  {
    run != [] ==>
      && !StartsRecovery(s, run[0]) && !AsksBootstrap(s, run[0]) && !ClearsWindow(s, run[0])
      && (Step(s, run[0]).Some? ==> Undisturbed(Step(s, run[0]).value, run[1..]))
  }

  /** The window still ends at `gate`, or the client has shut down for good. */
  ghost predicate Gated(s: Client, gate: nat) {
    && Inv(s)
    && (s.core.recovery.lifecycle.Terminated?
        || (s.core.recovery.cooldownUntil == gate
            && (s.core.section.Held? ==> !s.core.section.top.FinalizeOpen? && !s.core.section.top.OpenFailed?)))
  }

  lemma GatedStep(s: Client, l: Label, gate: nat)
    requires Gated(s, gate) && Step(s, l).Some?
    requires !StartsRecovery(s, l) && !AsksBootstrap(s, l) && !ClearsWindow(s, l)
    ensures Gated(Step(s, l).value, gate)
  {
    StepKeeps(s, l);
    if s.core.recovery.lifecycle.Terminated? {
      TerminatedStep(s, l);
    } else if l.RunFrame? {
      GatedFrame(s.core, l, !s.calls.worker.WPushing?, s.calls.pending, gate);
    }
  }

  lemma GatedFrame(c: Core, l: Label, sessionFree: bool, pending: map<nat, Pending>, gate: nat)
    requires l.RunFrame? && RunCore(c, l, sessionFree, pending).Some? && CoreInv(c)
    requires c.recovery.cooldownUntil == gate && !c.section.top.FinalizeOpen? && !c.section.top.OpenFailed?
    requires !c.section.top.OpenSession? && !c.section.top.EnterIdle?
    requires c.section.top.BeginRecovery? ==> !c.control.Open?
    requires c.section.top.DecideDeath? && c.section.top.decision.Ignore? ==> !c.control.Open?
    ensures var n := RunCore(c, l, sessionFree, pending).value;
      || n.recovery.lifecycle.Terminated?
      || (n.recovery.cooldownUntil == gate
          && (n.section.Held? ==> !n.section.top.FinalizeOpen? && !n.section.top.OpenFailed?))
  {
  }

  lemma {:induction false} GatedRun(s: Client, run: seq<Label>, gate: nat)
    requires Gated(s, gate) && Undisturbed(s, run) && Exec(Step, s, run).Some?
    ensures Gated(Exec(Step, s, run).value, gate)
    decreases |run|
  {
    if run != [] {
      GatedStep(s, run[0], gate);
      GatedRun(Step(s, run[0]).value, run[1..], gate);
    }
  }

  /** After a restart decision with delay `d` at time `t`, the first later request to the
      bootstrap happens at or after `t + d`, unless another recovery replaced the window or an
      idle close or an ignored engine death cleared it. */
  lemma CooldownGate(s: Client, l: Label, run: seq<Label>, t: Client, ask: Label)
    requires Reachable(s) && StartsRecovery(s, l) && Step(s, l).Some?
    requires Undisturbed(Step(s, l).value, run) && Exec(Step, Step(s, l).value, run) == Some(t)
    requires AsksBootstrap(t, ask)
    ensures t.core.now >= s.core.now + s.core.section.top.delay
  {
    ReachableOk(s);
    StepKeeps(s, l);
    var gate := s.core.now + s.core.section.top.delay;
    GatedRun(Step(s, l).value, run, gate);
  }
}
