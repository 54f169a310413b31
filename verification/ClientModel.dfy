/** The `RpcClient` of memrpc/src/client/rpc_client.cpp as one transition system.

    Threads interleave at the granularity of their locks:
    * sections under the lifecycle mutex run frame by frame from `section`; the mutex is free
      when `section` is `Free`;
    * the session mutex is held exactly while the submit worker is between putting a request
      into the store and learning how the push went (`WPushing`), so frames that open or
      close the session wait for it;
    * the submit mutex is held by an `InvokeAsync` between reading the control state and
      appending to the queue (`admitting`);
    * the request store, the futures and the atomics change in single steps.

    `StopRuntime` clears `workersRunning_`.  The two stop flags that follow it are not steps of
    their own: a worker may leave, its queue being empty, as soon as `workersRunning_` is
    cleared, which includes every moment after its flag.

    A future is named by the request id that `EnqueueSubmitLocked` gives it.  Sections that
    handle a failure, an idle period, an external request or an engine death may start at any
    time with any observed session: that includes every call the source makes.  Policies are
    pure decisions carried by the labels.  The bootstrap hands out session ids that are
    nonzero and never reused, and the clock does not go backwards.  `accepted`, `used` and
    `drained` are history.
 */
module ClientModel {
  import opened Runs
  import opened ClientTypes

  /** The part of `ClientRecoveryState` that decides anything. */
  datatype Recovery = Recovery(lifecycle: Lifecycle, cooldownUntil: nat)

  datatype Worker =
    | WIdle
    | WHolding(id: nat)
    | WPushing(id: nat)
    | WResolving(id: nat, status: Status)
    | WExited

  datatype Responder = RIdle | RHolding(id: nat, status: Status) | RExited

  datatype Watchdog = TWatching(hand: map<nat, Pending>) | TExited

  /** How far the one `Shutdown` that won has got. */
  datatype Shutdown =
    | SNone | SBegan | SSection | SSectionDone | SStopped | SJoined | SPendingTaken | SQueueTaken | SDone

  /** Where a section under the lifecycle mutex has got to, with its locals. */
  datatype Frame =
    | Decide(decision: Decision, observed: nat, action: PendingAction)
    | CloseForIdle(observed: nat)
    | EnterIdle
    | BeginRecovery(observed: nat, delay: nat, action: PendingAction)
    | CloseForRestart(observed: nat, delay: nat, action: PendingAction)
    | DrainForRestart(observed: nat, delay: nat, action: PendingAction)
    | Failing(observed: nat, delay: nat, hand: map<nat, Pending>)
    | FailResolve(observed: nat, delay: nat, hand: map<nat, Pending>, which: nat)
    | Resolving(observed: nat, delay: nat, hand: map<nat, Pending>)
    | Reconnect(delay: nat)
    | Ensure
    | OpenSession
    | FinalizeOpen
    | OpenFailed
    | CloseForDeath(observed: nat, decision: Decision)
    | DrainForDeath(observed: nat, decision: Decision)
    | ResolvingDeath(observed: nat, decision: Decision, hand: map<nat, Pending>)
    | DecideDeath(observed: nat, decision: Decision)
    | CloseForTransport
    | CloseForShutdown
    | EnterClosed

  /** The frames of the section that holds the lifecycle mutex, innermost first. */
  datatype Section = Free | Held(top: Frame, rest: Section)

  /** What the lifecycle mutex and the control word protect. */
  datatype Core = Core(
    control: Control,
    recovery: Recovery,
    now: nat,
    session: nat,
    used: set<nat>,
    section: Section,
    shutdown: Shutdown,
    drained: set<nat>)

  /** Calls on their way: the submit queue, the request store, the futures, and what each
      thread holds in its hands. */
  datatype Calls = Calls(
    admitting: bool,
    nextId: nat,
    accepted: set<nat>,
    replies: map<nat, Status>,
    queue: seq<nat>,
    pending: map<nat, Pending>,
    worker: Worker,
    responder: Responder,
    watchdog: Watchdog,
    running: bool,
    leftPending: map<nat, Pending>,
    leftQueue: seq<nat>)

  datatype Client = Client(core: Core, calls: Calls)

  datatype Label =
    // Sections under the lifecycle mutex: entering, and running the top frame.
    | LockFailure(observed: nat, decision: Decision)
    | LockIdle(observed: nat, decision: Decision)
    | LockExternal(observed: nat, requested: nat, delay: nat)
    | LockDeath(observed: nat, dead: nat, decision: Decision)
    | LockTransport
    | LockEnsure
    | LockShutdown
    | RunFrame(nested: Decision, newSession: nat, which: nat)
    // Callers and the three workers.
    | AdmitInvoke
    | EnqueueInvoke
    | Dequeue
    | PutPending(timeout: nat)
    | PushDone(ok: bool)
    | WorkerFail(status: Status)
    | WorkerResolve
    | WorkerExit
    | TakeReply(id: nat, status: Status)
    | ResolveReply
    | ResponderExit
    | TakeExpired
    | ResolveExpired(id: nat)
    | WatchdogExit
    // Init and Shutdown.
    | FinishInit
    | BeginShutdown
    | StopRuntime
    | JoinThreads
    | TakePending
    | FailPending(id: nat)
    | TakeQueue
    | FailQueued
    | FinishShutdown
    | Tick(elapsed: nat)

  /** After `Init` has started the threads, in lazy or in eager mode. */
  function Started(eager: bool, now: nat): (c: Client) {
    Client(Core(Uninitialized, Recovery(if eager then Unstarted else IdleClosed, 0), now, 0, {}, Free, SNone, {}),
           Calls(false, 1, {}, map[], [], map[], WIdle, RIdle, TWatching(map[]), true, map[], []))
  }

  // --- Components ------------------------------------------------------------------------

  /** `ResolveState`: the first resolution wins. */
  function Resolve(replies: map<nat, Status>, id: nat, status: Status): (r: map<nat, Status>)
    ensures id in r && r.Keys == replies.Keys + {id}
    ensures forall k | k in replies :: r[k] == replies[k]
    ensures id !in replies ==> r[id] == status
  {
    if id in replies then replies else replies[id := status]
  }

  /** `StartRecovery`. */
  function StartRecovery(delay: nat, now: nat): (r: Recovery) {
    Recovery(if delay == 0 then Recovering else Cooldown, now + delay)
  }

  /** `CloseLiveSessionIfSnapshotMatches`, as the new session id. */
  function CloseIfMatches(session: nat, observed: nat): (r: nat)
    ensures session == observed ==> r == 0
    ensures session != observed ==> r == session
  {
    if session != observed then session else 0
  }

  /** `TakeExpired`: the requests whose deadline has passed. */
  function Expired(pending: map<nat, Pending>, now: nat): (r: map<nat, Pending>) {
    map id | id in pending && pending[id].deadline != 0 && now >= pending[id].deadline :: pending[id]
  }

  // --- Sections under the lifecycle mutex -------------------------------------------------

  function Pop(c: Core): (r: Core)
    requires c.section.Held?
  {
    c.(section := c.section.rest)
  }

  function Goto(c: Core, f: Frame): (r: Core)
    requires c.section.Held?
  {
    c.(section := Held(f, c.section.rest))
  }

  function Enter(c: Core, l: Label): (next: Option<Core>) {
    if c.section.Held? then None else
    match l
    case LockFailure(o, d) =>
      Some(if c.control.Open? && c.session == o
           then c.(section := Held(Decide(d, o, FailWithRecoveryPolicy), Free)) else c)
    case LockIdle(o, d) =>
      Some(if c.control.Open? && c.session == o
           then c.(section := Held(Decide(d, o, FailWithRecoveryPolicy), Free)) else c)
    case LockExternal(o, requested, delay) =>
      Some(if c.control.Open? && c.session == o && (requested == 0 || requested == o)
           then c.(section := Held(BeginRecovery(o, delay, ResolvePeerDisconnected), Free)) else c)
    case LockDeath(o, dead, d) =>
      Some(if c.control.Open? && c.session == o && o != 0 && (dead == 0 || dead == o)
           then c.(section := Held(CloseForDeath(o, d), Free)) else c)
    case LockTransport => Some(c.(section := Held(CloseForTransport, Free)))
    case LockEnsure => Some(c.(section := Held(Ensure, Free)))
    case LockShutdown =>
      if c.shutdown.SBegan? then Some(c.(section := Held(CloseForShutdown, Free), shutdown := SSection)) else None
    case _ => None
  }

  /** One step of a section that acts on a recovery decision.  In these functions `sessionFree`
      says that the session mutex is free. */
  function RunDecision(c: Core, l: Label, sessionFree: bool): (next: Option<Core>)
    requires c.section.Held? && l.RunFrame?
  {
    match c.section.top
    case Decide(d, o, action) =>
      if !c.control.Open? then Some(Pop(c)) else
      (match d
       case Ignore => Some(Pop(c))
       case ManualShutdown => Some(Pop(c))
       case IdleClose => Some(Goto(c, CloseForIdle(o)))
       case Restart(delay) => Some(Goto(c, BeginRecovery(o, delay, action))))
    case CloseForIdle(o) =>
      if !c.control.Open? then Some(Pop(c))
      else if !sessionFree then None
      else Some(Goto(c, EnterIdle).(session := CloseIfMatches(c.session, o)))
    case EnterIdle => Some(Pop(c).(recovery := Recovery(IdleClosed, 0)))
    case BeginRecovery(o, delay, action) =>
      if !c.control.Open? then Some(Pop(c))
      else Some(Goto(c, CloseForRestart(o, delay, action)).(recovery := StartRecovery(delay, c.now)))
    case _ => None
  }

  /** One step of `ScheduleRecoveryLocked` after the recovery has been started. */
  function RunDrain(c: Core, l: Label, sessionFree: bool, pending: map<nat, Pending>): (next: Option<Core>)
    requires c.section.Held? && l.RunFrame?
  {
    match c.section.top
    case CloseForRestart(o, delay, action) =>
      if !sessionFree then None
      else Some(Goto(c, DrainForRestart(o, delay, action)).(session := CloseIfMatches(c.session, o)))
    case DrainForRestart(o, delay, action) =>
      (match action
       case KeepCurrentState => Some(Goto(c, Reconnect(delay)))
       case FailWithRecoveryPolicy => Some(Goto(c, Failing(o, delay, pending)).(drained := c.drained + {o}))
       case ResolvePeerDisconnected => Some(Goto(c, Resolving(o, delay, pending)).(drained := c.drained + {o})))
    case Failing(o, delay, hand) =>
      if hand == map[] then Some(Goto(c, Reconnect(delay)))
      else if l.which !in hand then None
      else
        var resolve := FailResolve(o, delay, hand, l.which);
        if c.control.Open? && c.session == hand[l.which].session
        then
          var handle := Decide(l.nested, c.session, FailWithRecoveryPolicy);
          Some(c.(section := Held(handle, Held(resolve, c.section.rest))))
        else Some(Goto(c, resolve))
    case FailResolve(o, delay, hand, which) => Some(Goto(c, Failing(o, delay, hand - {which})))
    case Resolving(o, delay, hand) =>
      if hand == map[] then Some(Goto(c, Reconnect(delay)))
      else if l.which !in hand then None
      else Some(Goto(c, Resolving(o, delay, hand - {l.which})))
    case Reconnect(delay) => Some(if delay == 0 then Goto(c, Ensure) else Pop(c))
    case _ => None
  }

  /** One step of `EnsureLiveSessionLocked`. */
  function RunEnsure(c: Core, l: Label, sessionFree: bool): (next: Option<Core>)
    requires c.section.Held? && l.RunFrame?
  {
    match c.section.top
    case Ensure =>
      if !c.control.Uninitialized? && !c.control.Open? then Some(Pop(c))
      else if c.now < c.recovery.cooldownUntil then Some(Pop(c))
      else if c.session != 0 then Some(Pop(c))
      else if c.recovery.lifecycle.Recovering? || c.recovery.lifecycle.Unstarted? then Some(Goto(c, OpenSession))
      else Some(Goto(c, OpenSession).(recovery := c.recovery.(lifecycle := Recovering)))
    case OpenSession =>
      if !sessionFree then None
      else if l.newSession == 0 then Some(Goto(c, OpenFailed))
      else if l.newSession in c.used then None
      else Some(Goto(c, FinalizeOpen).(session := l.newSession, used := c.used + {l.newSession}))
    case FinalizeOpen => Some(Pop(c).(recovery := Recovery(Active, 0)))
    case OpenFailed =>
      if c.recovery.lifecycle.Recovering? || c.recovery.lifecycle.Cooldown?
      then Some(Pop(c).(recovery := Recovery(NoSession, 0)))
      else Some(Pop(c))
    case _ => None
  }

  /** One step of `HandleEngineDeathLocked`, or of a section that only closes the session. */
  function RunClosing(c: Core, l: Label, sessionFree: bool, pending: map<nat, Pending>): (next: Option<Core>)
    requires c.section.Held? && l.RunFrame?
  {
    match c.section.top
    case CloseForDeath(o, d) =>
      if !sessionFree then None
      else Some(Goto(c, DrainForDeath(o, d)).(session := CloseIfMatches(c.session, o)))
    case DrainForDeath(o, d) => Some(Goto(c, ResolvingDeath(o, d, pending)).(drained := c.drained + {o}))
    case ResolvingDeath(o, d, hand) =>
      if hand == map[] then Some(Goto(c, DecideDeath(o, d)))
      else if l.which !in hand then None
      else Some(Goto(c, ResolvingDeath(o, d, hand - {l.which})))
    case DecideDeath(o, d) =>
      if !d.Ignore? then Some(Goto(c, Decide(d, o, KeepCurrentState)))
      else if c.control.Open? then Some(Pop(c).(recovery := Recovery(NoSession, 0)))
      else Some(Pop(c))
    case CloseForTransport => if !sessionFree then None else Some(Pop(c).(session := 0))
    case CloseForShutdown => if !sessionFree then None else Some(Goto(c, EnterClosed).(session := 0))
    case EnterClosed => Some(Pop(c).(recovery := Recovery(Terminated, 0), shutdown := SSectionDone))
    case _ => None
  }

  predicate DecisionFrame(f: Frame) {
    f.Decide? || f.CloseForIdle? || f.EnterIdle? || f.BeginRecovery?
  }

  predicate DrainFrame(f: Frame) {
    f.CloseForRestart? || f.DrainForRestart? || f.Failing? || f.FailResolve? || f.Resolving? || f.Reconnect?
  }

  predicate EnsureFrame(f: Frame) {
    f.Ensure? || f.OpenSession? || f.FinalizeOpen? || f.OpenFailed?
  }

  function RunCore(c: Core, l: Label, sessionFree: bool, pending: map<nat, Pending>): (next: Option<Core>)
    requires l.RunFrame?
  {
    if c.section.Free? then None
    else if DecisionFrame(c.section.top) then RunDecision(c, l, sessionFree)
    else if DrainFrame(c.section.top) then RunDrain(c, l, sessionFree, pending)
    else if EnsureFrame(c.section.top) then RunEnsure(c, l, sessionFree)
    else RunClosing(c, l, sessionFree, pending)
  }

  /** What a frame does to the store and the futures: `TakeAll`, or the resolution of a request
      that the section holds. */
  function RunCalls(f: Frame, k: Calls, l: Label): (next: Calls)
    requires l.RunFrame?
  {
    match f
    case DrainForRestart(_, _, action) => if action.KeepCurrentState? then k else k.(pending := map[])
    case DrainForDeath(_, _) => k.(pending := map[])
    case FailResolve(_, _, _, which) => k.(replies := Resolve(k.replies, which, PeerDisconnected))
    case Resolving(_, _, hand) =>
      if hand == map[] then k else k.(replies := Resolve(k.replies, l.which, PeerDisconnected))
    case ResolvingDeath(_, _, hand) =>
      if hand == map[] then k else k.(replies := Resolve(k.replies, l.which, CrashedDuringExecution))
    case _ => k
  }

  // --- Callers and workers ------------------------------------------------------------------

  function Invoke(control: Control, k: Calls, l: Label): (next: Option<Calls>) {
    match l
    case AdmitInvoke =>
      if k.admitting then None else Some(if control.Open? then k.(admitting := true) else k)
    case EnqueueInvoke =>
      if !k.admitting then None
      else Some(k.(admitting := false, queue := k.queue + [k.nextId], accepted := k.accepted + {k.nextId},
                   nextId := k.nextId + 1))
    case _ => None
  }

  function Submit(session: nat, now: nat, k: Calls, l: Label): (next: Option<Calls>) {
    match l
    case Dequeue =>
      if k.worker.WIdle? && !k.admitting && k.queue != []
      then Some(k.(worker := WHolding(k.queue[0]), queue := k.queue[1..])) else None
    case PutPending(timeout) =>
      if k.worker.WHolding? && session != 0 then
        var deadline := if timeout == 0 then 0 else now + timeout;
        Some(k.(worker := WPushing(k.worker.id), pending := k.pending[k.worker.id := Pending(session, deadline)]))
      else None
    case PushDone(ok) =>
      if !k.worker.WPushing? then None
      else if ok then Some(k.(worker := WIdle))
      else Some(k.(worker := WHolding(k.worker.id), pending := k.pending - {k.worker.id}))
    case WorkerFail(status) =>
      if k.worker.WHolding? then Some(k.(worker := WResolving(k.worker.id, status))) else None
    case WorkerResolve =>
      if k.worker.WResolving?
      then Some(k.(worker := WIdle, replies := Resolve(k.replies, k.worker.id, k.worker.status))) else None
    case WorkerExit =>
      if k.worker.WIdle? && !k.running && !k.admitting && k.queue == [] then Some(k.(worker := WExited)) else None
    case _ => None
  }

  function Receive(now: nat, k: Calls, l: Label): (next: Option<Calls>) {
    match l
    case TakeReply(id, status) =>
      if !k.responder.RIdle? then None
      else if id in k.pending then Some(k.(responder := RHolding(id, status), pending := k.pending - {id}))
      else Some(k)
    case ResolveReply =>
      if k.responder.RHolding?
      then Some(k.(responder := RIdle, replies := Resolve(k.replies, k.responder.id, k.responder.status))) else None
    case ResponderExit =>
      if k.responder.RIdle? && !k.running then Some(k.(responder := RExited)) else None
    case TakeExpired =>
      if k.watchdog.TWatching? && k.watchdog.hand == map[] then
        var hand := Expired(k.pending, now);
        Some(k.(watchdog := TWatching(hand), pending := k.pending - hand.Keys))
      else None
    case ResolveExpired(id) =>
      if k.watchdog.TWatching? && id in k.watchdog.hand
      then Some(k.(watchdog := TWatching(k.watchdog.hand - {id}), replies := Resolve(k.replies, id, ExecTimeout)))
      else None
    case WatchdogExit =>
      if k.watchdog.TWatching? && k.watchdog.hand == map[] && !k.running
      then Some(k.(watchdog := TExited)) else None
    case _ => None
  }

  // --- Init and Shutdown ----------------------------------------------------------------------

  function Administer(c: Core, k: Calls, l: Label): (next: Option<Core>) {
    match l
    case FinishInit =>
      if c.control.Uninitialized? && !c.recovery.lifecycle.Unstarted? then Some(c.(control := Open)) else None
    case BeginShutdown =>
      if c.control.Uninitialized? || c.control.Open?
      then Some(c.(control := Closing, shutdown := SBegan)) else None
    case StopRuntime =>
      if c.shutdown.SSectionDone? then Some(c.(shutdown := SStopped)) else None
    case JoinThreads =>
      if c.shutdown.SStopped? && k.worker.WExited? && k.responder.RExited? && k.watchdog.TExited?
      then Some(c.(shutdown := SJoined)) else None
    case TakePending =>
      if c.shutdown.SJoined? then Some(c.(shutdown := SPendingTaken)) else None
    case FailPending(id) =>
      if c.shutdown.SPendingTaken? && id in k.leftPending then Some(c) else None
    case TakeQueue =>
      if c.shutdown.SPendingTaken? && k.leftPending == map[] && !k.admitting
      then Some(c.(shutdown := SQueueTaken)) else None
    case FailQueued =>
      if c.shutdown.SQueueTaken? && k.leftQueue != [] then Some(c) else None
    case FinishShutdown =>
      if c.shutdown.SQueueTaken? && k.leftQueue == [] then Some(c.(control := Closed, shutdown := SDone)) else None
    case Tick(d) => Some(c.(now := c.now + d))
    case _ => None
  }

  /** What an enabled administrative step does to the calls. */
  function AdministerCalls(k: Calls, l: Label): (next: Calls) {
    match l
    case StopRuntime => k.(running := false)
    case TakePending => k.(leftPending := k.pending, pending := map[])
    case FailPending(id) => k.(leftPending := k.leftPending - {id}, replies := Resolve(k.replies, id, ClientClosed))
    case TakeQueue => k.(leftQueue := k.queue, queue := [])
    case FailQueued =>
      if k.leftQueue == [] then k
      else k.(leftQueue := k.leftQueue[1..], replies := Resolve(k.replies, k.leftQueue[0], ClientClosed))
    case _ => k
  }

  // --- The whole client -------------------------------------------------------------------------

  predicate LockLabel(l: Label) {
    || l.LockFailure? || l.LockIdle? || l.LockExternal? || l.LockDeath?
    || l.LockTransport? || l.LockEnsure? || l.LockShutdown?
  }

  predicate InvokeLabel(l: Label) {
    l.AdmitInvoke? || l.EnqueueInvoke?
  }

  predicate SubmitLabel(l: Label) {
    l.Dequeue? || l.PutPending? || l.PushDone? || l.WorkerFail? || l.WorkerResolve? || l.WorkerExit?
  }

  predicate ReceiveLabel(l: Label) {
    l.TakeReply? || l.ResolveReply? || l.ResponderExit? || l.TakeExpired? || l.ResolveExpired? || l.WatchdogExit?
  }

  /** The step that the core takes; callers and workers leave it alone. */
  function CoreStep(s: Client, l: Label): (next: Option<Core>) {
    if LockLabel(l) then Enter(s.core, l)
    else if l.RunFrame? then RunCore(s.core, l, !s.calls.worker.WPushing?, s.calls.pending)
    else if InvokeLabel(l) || SubmitLabel(l) || ReceiveLabel(l) then Some(s.core)
    else Administer(s.core, s.calls, l)
  }

  /** The step that the calls take. */
  function CallsStep(s: Client, l: Label): (next: Option<Calls>) {
    if LockLabel(l) then Some(s.calls)
    else if l.RunFrame? then
      (if s.core.section.Held? then Some(RunCalls(s.core.section.top, s.calls, l)) else None)
    else if InvokeLabel(l) then Invoke(s.core.control, s.calls, l)
    else if SubmitLabel(l) then Submit(s.core.session, s.core.now, s.calls, l)
    else if ReceiveLabel(l) then Receive(s.core.now, s.calls, l)
    else Some(AdministerCalls(s.calls, l))
  }

  function Step(s: Client, l: Label): (next: Option<Client>) {
    match (CoreStep(s, l), CallsStep(s, l))
    case (Some(c), Some(k)) => Some(Client(c, k))
    case _ => None
  }
}
