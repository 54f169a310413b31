/** What a section under the lifecycle mutex comes to, as a whole.

    A failure, an idle period, an external request or an engine death takes the mutex with a
    decision and runs frame by frame while all other threads go on.  This module says what each
    of them has done to session, lifecycle, cooldown window and pending requests when it lets
    go, in terms of the event and of the state it met, and not of the frames in between
    (memrpc/src/client/rpc_client.cpp:1656-1830, 1888-1992).
 */
module ClientOutcomes {
  import opened Runs
  import opened ClientTypes
  import opened ClientModel
  import opened ClientLifecycle
  import opened ClientDraining
  import opened ClientCooldown

  /** What a section is out to do. */
  datatype Goal =
    | Apply(decision: Decision, dead: bool)
    | Connect
    | Disconnect
    | Terminate

  /** What an event that finds the mutex free sets out to do; nothing if it is stale, names another
      session or comes when the client is not open. */
  function GoalOf(c: Core, l: Label): (g: Option<Goal>) {
    match l
    case LockFailure(o, d) => if c.control.Open? && o == c.session then Some(Apply(d, false)) else None
    case LockIdle(o, d) => if c.control.Open? && o == c.session then Some(Apply(d, false)) else None
    case LockExternal(o, requested, delay) =>
      if c.control.Open? && o == c.session && requested in {0, o} then Some(Apply(Restart(delay), false)) else None
    case LockDeath(o, dead, d) =>
      if c.control.Open? && o == c.session && o != 0 && dead in {0, o} then Some(Apply(d, true)) else None
    case LockEnsure => Some(Connect)
    case LockTransport => Some(Disconnect)
    case LockShutdown => Some(Terminate)
    case _ => None
  }

  /** A new session is live. */
  predicate Opened(b: Core, c: Core) {
    c.session != 0 && c.session !in b.used && c.session in c.used && c.recovery == Recovery(Active, 0)
  }

  predicate GaveUp(c: Core) {
    c.session == 0 && c.recovery == Recovery(NoSession, 0)
  }

  /** A recovery with this delay was started at some moment between `b` and `c`. */
  predicate StartedBetween(b: Core, c: Core, delay: nat) {
    && c.recovery.lifecycle == (if delay == 0 then Recovering else Cooldown)
    && b.now + delay <= c.recovery.cooldownUntil <= c.now + delay
  }

  /** What a section that met the core `b` has made of it when it ends. */
  predicate Outcome(b: Core, g: Goal, c: Core) {
    match g
    case Apply(decision, dead) =>
      && (dead || decision.Restart? ==> b.session in c.drained)
      && (match decision
          case Ignore =>
            if dead then GaveUp(c) else c.session == b.session && c.recovery == b.recovery
          case ManualShutdown =>
            c.session == (if dead then 0 else b.session) && c.recovery == b.recovery
          case IdleClose => c.session == 0 && c.recovery == Recovery(IdleClosed, 0)
          case Restart(delay) =>
            if delay == 0 then Opened(b, c) || GaveUp(c)
            else c.session == 0 && StartedBetween(b, c, delay))
    case Connect =>
      if c.recovery == b.recovery && c.session == b.session
      then b.session != 0 || b.now < b.recovery.cooldownUntil || b.recovery.lifecycle.Unstarted? || GaveUp(c)
      else b.session == 0 && b.recovery.cooldownUntil <= c.now && (Opened(b, c) || GaveUp(c))
    case Disconnect => c.session == 0 && c.recovery == b.recovery
    case Terminate => c.session == 0 && c.recovery == Recovery(Terminated, 0)
  }

  /** A shutdown has begun that the section gives way to. */
  predicate Overtaken(g: Goal, c: Core) {
    match g
    case Apply(_, _) => !c.control.Open?
    case Connect => !PreShutdown(c)
    case _ => false
  }

  /** What holds on the way, frame by frame. */
  predicate Deciding(b: Core, d: Decision, dead: bool, c: Core, f: Frame) {
    var here := if dead then 0 else b.session;
    var drained := b.session in c.drained;
    match f
    case Decide(e, o, a) =>
      e == d && o == b.session && c.session == here && c.recovery == b.recovery && a.KeepCurrentState? == dead
      && (dead ==> drained && !d.Ignore?)
    case CloseForIdle(o) => d.IdleClose? && o == b.session && c.session == here && (dead ==> drained)
    case EnterIdle => d.IdleClose? && c.session == 0 && (dead ==> drained)
    case BeginRecovery(o, delay, a) =>
      d == Restart(delay) && o == b.session && c.session == here && a.KeepCurrentState? == dead && (dead ==> drained)
    case CloseForDeath(o, e) => dead && e == d && o == b.session == c.session && c.recovery == b.recovery
    case DrainForDeath(o, e) => dead && e == d && o == b.session && c.session == 0 && c.recovery == b.recovery
    case ResolvingDeath(o, e, _) =>
      dead && e == d && o == b.session && c.session == 0 && c.recovery == b.recovery && drained
    case DecideDeath(o, e) =>
      dead && e == d && o == b.session && c.session == 0 && c.recovery == b.recovery && drained
    case _ => Restarting(b, d, dead, c, f)
  }

  predicate Restarting(b: Core, d: Decision, dead: bool, c: Core, f: Frame) {
    var drained := b.session in c.drained;
    match f
    case CloseForRestart(o, delay, a) =>
      d == Restart(delay) && o == b.session && c.session in {0, b.session} && StartedBetween(b, c, delay)
      && a.KeepCurrentState? == dead && (dead ==> drained)
    case DrainForRestart(o, delay, a) =>
      d == Restart(delay) && o == b.session && c.session == 0 && StartedBetween(b, c, delay)
      && a.KeepCurrentState? == dead && (dead ==> drained)
    case Failing(_, delay, _) => d == Restart(delay) && c.session == 0 && StartedBetween(b, c, delay) && drained
    case FailResolve(_, delay, _, _) => d == Restart(delay) && c.session == 0 && StartedBetween(b, c, delay) && drained
    case Resolving(_, delay, _) => d == Restart(delay) && c.session == 0 && StartedBetween(b, c, delay) && drained
    case Reconnect(delay) => d == Restart(delay) && c.session == 0 && StartedBetween(b, c, delay) && drained
    case Ensure => d == Restart(0) && c.session == 0 && StartedBetween(b, c, 0) && drained
    case OpenSession => d == Restart(0) && c.session == 0 && c.recovery.lifecycle.Recovering? && drained
    case OpenFailed => d == Restart(0) && c.session == 0 && c.recovery.lifecycle.Recovering? && drained
    case FinalizeOpen => d == Restart(0) && c.session != 0 && c.session !in b.used && c.session in c.used && drained
    case _ => false
  }

  predicate Connecting(b: Core, c: Core, f: Frame) {
    var asked := b.session == 0 && b.recovery.cooldownUntil <= c.now;
    var during := if b.recovery.lifecycle.Unstarted? then b.recovery else b.recovery.(lifecycle := Recovering);
    match f
    case Ensure => c.session == b.session && c.recovery == b.recovery
    case OpenSession => asked && c.session == 0 && c.recovery == during
    case OpenFailed => asked && c.session == 0 && c.recovery == during
    case FinalizeOpen => asked && c.session != 0 && c.session !in b.used && c.session in c.used
    case _ => false
  }

  predicate Doing(b: Core, g: Goal, c: Core, f: Frame) {
    match g
    case Apply(d, dead) => Deciding(b, d, dead, c, f)
    case Connect => Connecting(b, c, f)
    case Disconnect => f.CloseForTransport? && c.recovery == b.recovery
    case Terminate => f.CloseForShutdown? || (f.EnterClosed? && c.session == 0)
  }

  /** The section is on its way, or has come to its end. */
  ghost predicate OnCourse(b: Core, g: Goal, c: Core) {
    && CoreInv(c) && b.now <= c.now && b.used <= c.used
    && (Overtaken(g, c) || (if c.section.Held? then Doing(b, g, c, c.section.top) else Outcome(b, g, c)))
  }

  lemma EventOnCourse(s: Client, l: Label)
    requires Inv(s) && s.core.section.Free? && Step(s, l).Some? && GoalOf(s.core, l).Some?
    ensures OnCourse(s.core, GoalOf(s.core, l).value, Step(s, l).value.core)
    ensures Step(s, l).value.core.section.Held?
  {
    StepKeeps(s, l);
  }

  lemma DecisionOnCourse(b: Core, g: Goal, c: Core, l: Label, free: bool)
    requires OnCourse(b, g, c) && !Overtaken(g, c) && c.section.Held? && l.RunFrame?
    requires RunDecision(c, l, free).Some? && CoreInv(RunDecision(c, l, free).value)
    ensures OnCourse(b, g, RunDecision(c, l, free).value)
  {
  }

  lemma DrainOnCourse(b: Core, g: Goal, c: Core, l: Label, free: bool, pending: map<nat, Pending>)
    requires OnCourse(b, g, c) && !Overtaken(g, c) && c.section.Held? && l.RunFrame?
    requires RunDrain(c, l, free, pending).Some? && CoreInv(RunDrain(c, l, free, pending).value)
    ensures OnCourse(b, g, RunDrain(c, l, free, pending).value)
  {
  }

  lemma EnsureOnCourse(b: Core, g: Goal, c: Core, l: Label, free: bool)
    requires OnCourse(b, g, c) && !Overtaken(g, c) && c.section.Held? && l.RunFrame?
    requires RunEnsure(c, l, free).Some? && CoreInv(RunEnsure(c, l, free).value)
    ensures OnCourse(b, g, RunEnsure(c, l, free).value)
  {
  }

  lemma ClosingOnCourse(b: Core, g: Goal, c: Core, l: Label, free: bool, pending: map<nat, Pending>)
    requires OnCourse(b, g, c) && !Overtaken(g, c) && c.section.Held? && l.RunFrame?
    requires RunClosing(c, l, free, pending).Some? && CoreInv(RunClosing(c, l, free, pending).value)
    ensures OnCourse(b, g, RunClosing(c, l, free, pending).value)
  {
  }

  /** A section gives way to a shutdown for good. */
  lemma OvertakenStays(g: Goal, s: Client, l: Label)
    requires Inv(s) && Overtaken(g, s.core) && Step(s, l).Some?
    requires g.Apply? ==> !s.core.control.Uninitialized?
    ensures Overtaken(g, Step(s, l).value.core)
    ensures g.Apply? ==> !Step(s, l).value.core.control.Uninitialized?
  {
    ControlStepForward(s, l);
  }

  lemma FrameOnCourse(b: Core, g: Goal, c: Core, l: Label, free: bool, pending: map<nat, Pending>)
    requires OnCourse(b, g, c) && !Overtaken(g, c) && l.RunFrame?
    requires RunCore(c, l, free, pending).Some? && CoreInv(RunCore(c, l, free, pending).value)
    ensures OnCourse(b, g, RunCore(c, l, free, pending).value)
  {
    if DecisionFrame(c.section.top) {
      DecisionOnCourse(b, g, c, l, free);
    } else if DrainFrame(c.section.top) {
      DrainOnCourse(b, g, c, l, free, pending);
    } else if EnsureFrame(c.section.top) {
      EnsureOnCourse(b, g, c, l, free);
    } else {
      ClosingOnCourse(b, g, c, l, free, pending);
    }
  }

  /** What other threads do while a section holds the mutex. */
  lemma OthersAside(s: Client, l: Label)
    requires s.core.section.Held? && !l.RunFrame? && Step(s, l).Some?
    ensures var c, n := s.core, Step(s, l).value.core;
      n == c.(control := n.control, shutdown := n.shutdown, now := n.now) && c.now <= n.now
  {
    if !LockLabel(l) && !InvokeLabel(l) && !SubmitLabel(l) && !ReceiveLabel(l) {
      assert Administer(s.core, s.calls, l).value.section == s.core.section;
    }
  }

  /** The section of goal `g` that met `b` is on course or has been overtaken. */
  ghost predicate Underway(b: Core, g: Goal, s: Client) {
    && Inv(s) && b.now <= s.core.now && b.used <= s.core.used
    && (g.Apply? ==> !s.core.control.Uninitialized?)
    && (Overtaken(g, s.core) || OnCourse(b, g, s.core))
  }

  lemma UnderwayStep(b: Core, g: Goal, s: Client, l: Label)
    requires Underway(b, g, s) && s.core.section.Held? && Step(s, l).Some?
    ensures Underway(b, g, Step(s, l).value)
  {
    StepKeeps(s, l);
    ControlStepForward(s, l);
    UsedGrows(s, l);
    TimeForward(s, l);
    if Overtaken(g, s.core) {
      OvertakenStays(g, s, l);
    } else if l.RunFrame? {
      FrameOnCourse(b, g, s.core, l, !s.calls.worker.WPushing?, s.calls.pending);
    } else {
      OthersAside(s, l);
    }
  }

  lemma TimeForward(s: Client, l: Label)
    requires Step(s, l).Some?
    ensures s.core.now <= Step(s, l).value.core.now
  {
    if l.RunFrame? {
      FrameKeepsTime(s.core, l, !s.calls.worker.WPushing?, s.calls.pending);
    } else if LockLabel(l) {
      assert Enter(s.core, l).value.now == s.core.now;
    } else if !InvokeLabel(l) && !SubmitLabel(l) && !ReceiveLabel(l) {
      assert s.core.now <= Administer(s.core, s.calls, l).value.now;
    }
  }

  lemma FrameKeepsTime(c: Core, l: Label, free: bool, pending: map<nat, Pending>)
    requires l.RunFrame? && RunCore(c, l, free, pending).Some?
    ensures RunCore(c, l, free, pending).value.now == c.now
  {
  }

  /** The section lasts through the run: the mutex is held in every state before the last. */
  ghost predicate Lasts(s: Client, run: seq<Label>)
    decreases |run|
  {
    run != [] ==>
      s.core.section.Held? && (Step(s, run[0]).Some? ==> Lasts(Step(s, run[0]).value, run[1..]))
  }

  lemma {:induction false} UnderwayRun(b: Core, g: Goal, s: Client, run: seq<Label>)
    requires Underway(b, g, s) && Lasts(s, run) && Exec(Step, s, run).Some?
    ensures Underway(b, g, Exec(Step, s, run).value)
    decreases |run|
  {
    if run != [] {
      UnderwayStep(b, g, s, run[0]);
      UnderwayRun(b, g, Step(s, run[0]).value, run[1..]);
    }
  }

  // --- Main results ---------------------------------------------------------------------------------

  /** However the other threads interleave with it, a section that an event began has, when it lets
      go of the mutex, the outcome that belongs to the event and the decision, unless a shutdown has
      overtaken it; an event that sets out to do nothing does nothing. */
  lemma SectionOutcome(s: Client, l: Label, run: seq<Label>, t: Client)
    requires Reachable(s) && s.core.section.Free? && LockLabel(l) && Step(s, l).Some?
    requires Lasts(Step(s, l).value, run) && Exec(Step, Step(s, l).value, run) == Some(t) && t.core.section.Free?
    ensures match GoalOf(s.core, l)
      case None => t == s
      case Some(g) => Overtaken(g, t.core) || Outcome(s.core, g, t.core)
  {
    ReachableOk(s);
    if GoalOf(s.core, l).Some? {
      EventOnCourse(s, l);
      StepKeeps(s, l);
      UnderwayRun(s.core, GoalOf(s.core, l).value, Step(s, l).value, run);
    } else {
      assert Step(s, l) == Some(s);
      assert run == [];
    }
  }

  /** The event closes the session it was observed for and disposes of its requests. */
  predicate Drains(g: Goal) {
    g.Apply? && (g.dead || g.decision.Restart?)
  }

  /** The session met by the event is drained, or will be when its section ends. */
  ghost predicate WillDrain(b: Core, g: Goal, s: Client) {
    && Drained(s)
    && (g.Apply? ==> !s.core.control.Uninitialized?)
    && (!s.core.control.Open? || b.session in s.core.drained || (s.core.section.Held? && Underway(b, g, s)))
  }

  lemma WillDrainStep(b: Core, g: Goal, s: Client, l: Label)
    requires Drains(g) && WillDrain(b, g, s) && Step(s, l).Some?
    ensures WillDrain(b, g, Step(s, l).value)
  {
    StepKeepsDrained(s, l);
    ControlStepForward(s, l);
    DrainedGrowsEmpty(s, l);
    if s.core.control.Open? && b.session !in s.core.drained {
      UnderwayStep(b, g, s, l);
    }
  }

  lemma {:induction false} WillDrainRun(b: Core, g: Goal, s: Client, run: seq<Label>)
    requires Drains(g) && WillDrain(b, g, s) && Exec(Step, s, run).Some?
    ensures WillDrain(b, g, Exec(Step, s, run).value)
    decreases |run|
  {
    if run != [] {
      WillDrainStep(b, g, s, run[0]);
      WillDrainRun(b, g, Step(s, run[0]).value, run[1..]);
    }
  }

  /** From a failure, idle or external event that decides to restart, and from any engine death: in
      every run to a state with the mutex free and the client still open, no pending request
      belongs to the session the event was for, and it is not live. */
  lemma EventDrains(s: Client, l: Label, run: seq<Label>, t: Client)
    requires Reachable(s) && s.core.section.Free? && s.core.session != 0 && Step(s, l).Some?
    requires GoalOf(s.core, l).Some? && Drains(GoalOf(s.core, l).value)
    requires Exec(Step, Step(s, l).value, run) == Some(t) && t.core.section.Free? && t.core.control.Open?
    ensures forall id | id in t.calls.pending :: t.calls.pending[id].session != s.core.session
    ensures t.core.session != s.core.session
  {
    var g, m := GoalOf(s.core, l).value, Step(s, l).value;
    ReachableOk(s);
    ReachableDrained(s);
    EventOnCourse(s, l);
    StepKeepsDrained(s, l);
    WillDrainRun(s.core, g, m, run);
  }

  /** The delay that the event decided is the delay of the recovery: when its section starts it, at
      time `x.core.now`, the window ends exactly that much later, and the first later request to
      the bootstrap keeps to it, as `CooldownGate` says. */
  lemma EventCooldownGate(s: Client, l: Label, delay: nat, run: seq<Label>, x: Client, r: Label)
    requires Reachable(s) && s.core.section.Free? && Step(s, l).Some?
    requires GoalOf(s.core, l).Some? && GoalOf(s.core, l).value.Apply?
    requires GoalOf(s.core, l).value.decision == Restart(delay)
    requires Lasts(Step(s, l).value, run) && Exec(Step, Step(s, l).value, run) == Some(x)
    requires StartsRecovery(x, r) && Step(x, r).Some?
    ensures var y := Step(x, r).value;
      && s.core.now <= x.core.now
      && y.core.recovery.lifecycle == (if delay == 0 then Recovering else Cooldown)
      && y.core.recovery.cooldownUntil == x.core.now + delay
    ensures forall later: seq<Label>, t: Client, ask: Label |
      Undisturbed(Step(x, r).value, later) && Exec(Step, Step(x, r).value, later) == Some(t) && AsksBootstrap(t, ask) ::
      t.core.now >= x.core.now + delay
  {
    var g, m := GoalOf(s.core, l).value, Step(s, l).value;
    ReachableOk(s);
    EventOnCourse(s, l);
    StepKeeps(s, l);
    UnderwayRun(s.core, g, m, run);
    assert x.core.section.top.delay == delay;
    ReachableThen(s, l, m);
    ReachableRun(m, run, x);
    forall later: seq<Label>, t: Client, ask: Label |
      Undisturbed(Step(x, r).value, later) && Exec(Step, Step(x, r).value, later) == Some(t) && AsksBootstrap(t, ask)
      ensures t.core.now >= x.core.now + delay
    {
      CooldownGate(x, r, later, t, ask);
    }
  }

  lemma {:induction false} ReachableRun(s: Client, run: seq<Label>, t: Client)
    requires Reachable(s) && Exec(Step, s, run) == Some(t)
    ensures Reachable(t)
    decreases |run|
  {
    if run != [] {
      ReachableThen(s, run[0], Step(s, run[0]).value);
      ReachableRun(Step(s, run[0]).value, run[1..], t);
    }
  }

  /** With the window over and no session, a connect asks the bootstrap. */
  lemma ConnectAsks(s: Client) returns (t: Client)
    requires Reachable(s) && s.core.section.Free? && PreShutdown(s.core)
    requires s.core.session == 0 && s.core.recovery.cooldownUntil <= s.core.now
    ensures Reachable(t) && t.core.section == Held(OpenSession, Free)
    ensures t.core.session == 0 && t.core.used == s.core.used && t.calls == s.calls
  {
    var frame := RunFrame(Ignore, 0, 0);
    var a := Step(s, LockEnsure).value;
    ReachableThen(s, LockEnsure, a);
    t := Step(a, frame).value;
    ReachableThen(a, frame, t);
  }

  /** A session that the bootstrap then hands out becomes the live one. */
  lemma ConnectOpens(s: Client, session: nat) returns (t: Client)
    requires Reachable(s) && s.core.section.Free? && PreShutdown(s.core) && !s.calls.worker.WPushing?
    requires s.core.session == 0 && s.core.recovery.cooldownUntil <= s.core.now
    requires session != 0 && session !in s.core.used
    ensures Reachable(t) && t.core.section.Free?
    ensures t.core.session == session && t.core.recovery == Recovery(Active, 0) && t.calls == s.calls
  {
    var frame := RunFrame(Ignore, session, 0);
    var a := ConnectAsks(s);
    var b := Step(a, frame).value;
    ReachableThen(a, frame, b);
    t := Step(b, frame).value;
    ReachableThen(b, frame, t);
  }
}
