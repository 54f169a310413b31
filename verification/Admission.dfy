/** Admission of requests into the server's two worker pools and the ordered stop of the
    server: `ThreadPoolExecutor`, `MakeSubmittedTaskToken`, `DrainQueue` and `RpcServer::Stop`
    (memrpc/src/server/rpc_server.cpp:41-136, 194-217, 647-680, 862-894).

    The dispatcher is the only thread that submits, and each pool is the built-in executor.  A
    request is named by the order in which the dispatcher popped it.  `popped`, `executed` and
    `dropped` are history.
 */
module Admission {
  import opened Runs

  /** A pool: `busy` are the tasks its threads are running, `ran` counts the threads whose task
      has finished but still holds its token, `gone` the threads that have left. */
  datatype Pool = Pool(
    threads: nat, running: bool, queue: seq<nat>, busy: seq<nat>, ran: nat, gone: nat)

  datatype Kind = High | Normal

  datatype Dispatcher =
    | DIdle
    | DSawCapacity(kind: Kind)
    | DPopped(kind: Kind, request: nat)
    | DSubmitting(kind: Kind, request: nat)
    | DExited

  datatype Phase =
    | Serving | Stopping | DispatcherJoined | HighStopping | HighStopped | NormalStopping | PoolsStopped
    | TasksDone | SessionReset

  datatype Server = Server(
    high: Pool, normal: Pool, dispatcher: Dispatcher, phase: Phase, tokens: nat,
    popped: nat, executed: set<nat>, dropped: set<nat>)

  datatype Label =
    | SeeCapacity(kind: Kind) | PopRequest(found: bool) | MakeToken | TrySubmit | LeaveDispatcher
    | TakeTask(kind: Kind) | RunTask(kind: Kind, which: nat) | ReleaseToken(kind: Kind) | LeaveWorker(kind: Kind)
    | BeginStop | JoinDispatcher | StopPool | JoinPool | WaitForTasks | ResetSession

  function NewPool(threads: nat): (p: Pool) {
    Pool(if threads == 0 then 1 else threads, true, [], [], 0, 0)
  }

  function Fresh(highThreads: nat, normalThreads: nat): (s: Server) {
    Server(NewPool(highThreads), NewPool(normalThreads), DIdle, Serving, 0, 0, {}, {})
  }

  /** The queue capacity of a pool is its number of threads. */
  predicate HasCapacity(p: Pool) {
    p.running && |p.queue| < p.threads
  }

  function GetPool(s: Server, k: Kind): (p: Pool) {
    if k.High? then s.high else s.normal
  }

  function SetPool(s: Server, k: Kind, p: Pool): (r: Server) {
    if k.High? then s.(high := p) else s.(normal := p)
  }

  function Occupied(p: Pool): (n: nat) {
    |p.busy| + p.ran + p.gone
  }

  function Dispatch(s: Server, l: Label): (next: Option<Server>) {
    match l
    case SeeCapacity(k) =>
      if s.dispatcher.DIdle? && HasCapacity(GetPool(s, k)) then Some(s.(dispatcher := DSawCapacity(k))) else None
    case PopRequest(found) =>
      if !s.dispatcher.DSawCapacity? then None
      else if found then Some(s.(dispatcher := DPopped(s.dispatcher.kind, s.popped), popped := s.popped + 1))
      else Some(s.(dispatcher := DIdle))
    case MakeToken =>
      if s.dispatcher.DPopped?
      then Some(s.(dispatcher := DSubmitting(s.dispatcher.kind, s.dispatcher.request), tokens := s.tokens + 1))
      else None
    case TrySubmit =>
      if !s.dispatcher.DSubmitting? then None else
      var k, r := s.dispatcher.kind, s.dispatcher.request;
      var p := GetPool(s, k);
      if HasCapacity(p) then Some(SetPool(s, k, p.(queue := p.queue + [r])).(dispatcher := DIdle))
      else Some(s.(dispatcher := DIdle, dropped := s.dropped + {r}, tokens := if s.tokens > 0 then s.tokens - 1 else 0))
    case LeaveDispatcher =>
      if s.dispatcher.DIdle? && !s.phase.Serving? then Some(s.(dispatcher := DExited)) else None
    case _ => None
  }

  function Work(s: Server, l: Label): (next: Option<Server>) {
    match l
    case TakeTask(k) =>
      var p := GetPool(s, k);
      if p.queue != [] && Occupied(p) < p.threads
      then Some(SetPool(s, k, p.(queue := p.queue[1..], busy := p.busy + [p.queue[0]]))) else None
    case RunTask(k, i) =>
      var p := GetPool(s, k);
      if i < |p.busy|
      then Some(SetPool(s, k, p.(busy := p.busy[..i] + p.busy[i + 1..], ran := p.ran + 1))
                .(executed := s.executed + {p.busy[i]}))
      else None
    case ReleaseToken(k) =>
      var p := GetPool(s, k);
      if p.ran > 0
      then Some(SetPool(s, k, p.(ran := p.ran - 1)).(tokens := if s.tokens > 0 then s.tokens - 1 else 0)) else None
    case LeaveWorker(k) =>
      var p := GetPool(s, k);
      if !p.running && p.queue == [] && Occupied(p) < p.threads
      then Some(SetPool(s, k, p.(gone := p.gone + 1))) else None
    case _ => None
  }

  function Stop(s: Server, l: Label): (next: Option<Server>) {
    match l
    case BeginStop => if s.phase.Serving? then Some(s.(phase := Stopping)) else None
    case JoinDispatcher =>
      if s.phase.Stopping? && s.dispatcher.DExited? then Some(s.(phase := DispatcherJoined)) else None
    case StopPool =>
      if s.phase.DispatcherJoined? then Some(s.(phase := HighStopping, high := s.high.(running := false)))
      else if s.phase.HighStopped? then Some(s.(phase := NormalStopping, normal := s.normal.(running := false)))
      else None
    case JoinPool =>
      if s.phase.HighStopping? && s.high.gone == s.high.threads then Some(s.(phase := HighStopped))
      else if s.phase.NormalStopping? && s.normal.gone == s.normal.threads then Some(s.(phase := PoolsStopped))
      else None
    case WaitForTasks => if s.phase.PoolsStopped? && s.tokens == 0 then Some(s.(phase := TasksDone)) else None
    case ResetSession => if s.phase.TasksDone? then Some(s.(phase := SessionReset)) else None
    case _ => None
  }

  predicate DispatchLabel(l: Label) {
    l.SeeCapacity? || l.PopRequest? || l.MakeToken? || l.TrySubmit? || l.LeaveDispatcher?
  }

  predicate WorkLabel(l: Label) {
    l.TakeTask? || l.RunTask? || l.ReleaseToken? || l.LeaveWorker?
  }

  function Step(s: Server, l: Label): (next: Option<Server>) {
    if DispatchLabel(l) then Dispatch(s, l) else if WorkLabel(l) then Work(s, l) else Stop(s, l)
  }

  // --- Invariant ----------------------------------------------------------------------------

  /** Tokens held by the tasks of a pool. */
  function PoolTokens(p: Pool): (n: nat) {
    |p.queue| + |p.busy| + p.ran
  }

  predicate Joined(phase: Phase) {
    !phase.Serving? && !phase.Stopping?
  }

  predicate HighDown(phase: Phase) {
    Joined(phase) && !phase.DispatcherJoined?
  }

  predicate HighGone(phase: Phase) {
    HighDown(phase) && !phase.HighStopping?
  }

  predicate NormalDown(phase: Phase) {
    HighGone(phase) && !phase.HighStopped?
  }

  predicate NormalGone(phase: Phase) {
    NormalDown(phase) && !phase.NormalStopping?
  }

  ghost predicate PoolOk(p: Pool, down: bool, gone: bool) {
    && p.threads > 0 && Occupied(p) <= p.threads && |p.queue| <= p.threads
    && p.running == !down
    && (p.gone > 0 ==> !p.running && p.queue == [])
    && (gone ==> p.gone == p.threads)
  }

  predicate Holding(d: Dispatcher) {
    d.DPopped? || d.DSubmitting?
  }

  /** A popped request is executed, waiting, running, or in the dispatcher's hand. */
  predicate Located(s: Server, r: nat) {
    || r in s.executed
    || r in s.high.queue || r in s.high.busy
    || r in s.normal.queue || r in s.normal.busy
    || (Holding(s.dispatcher) && s.dispatcher.request == r)
  }

  ghost predicate Inv(s: Server) {
    && PoolOk(s.high, HighDown(s.phase), HighGone(s.phase))
    && PoolOk(s.normal, NormalDown(s.phase), NormalGone(s.phase))
    && (Joined(s.phase) ==> s.dispatcher.DExited?)
    && (s.dispatcher.DSawCapacity? || Holding(s.dispatcher) ==> HasCapacity(GetPool(s, s.dispatcher.kind)))
    && s.tokens == PoolTokens(s.high) + PoolTokens(s.normal) + (if s.dispatcher.DSubmitting? then 1 else 0)
    && s.dropped == {}
    && (s.phase.TasksDone? || s.phase.SessionReset? ==> s.tokens == 0)
    && (forall r: nat | r < s.popped :: Located(s, r))
  }

  lemma DispatchKeeps(s: Server, l: Label)
    requires Inv(s) && DispatchLabel(l) && Step(s, l).Some?
    ensures Inv(Step(s, l).value)
  {
    var n := Step(s, l).value;
    forall r: nat | r < n.popped ensures Located(n, r) {
      assert r < s.popped ==> Located(s, r);
    }
  }

  lemma TakeTaskKeeps(s: Server, k: Kind)
    requires Inv(s) && Step(s, TakeTask(k)).Some?
    ensures Inv(Step(s, TakeTask(k)).value)
  {
    var n, p, q := Step(s, TakeTask(k)).value, GetPool(s, k), GetPool(Step(s, TakeTask(k)).value, k);
    forall r: nat | r < n.popped ensures Located(n, r) {
      assert Located(s, r);
      assert r in p.queue ==> r in q.queue || r in q.busy by {
        assert p.queue == [p.queue[0]] + q.queue;
      }
    }
  }

  lemma RunTaskKeeps(s: Server, k: Kind, i: nat)
    requires Inv(s) && Step(s, RunTask(k, i)).Some?
    ensures Inv(Step(s, RunTask(k, i)).value)
  {
    var n, p, q := Step(s, RunTask(k, i)).value, GetPool(s, k), GetPool(Step(s, RunTask(k, i)).value, k);
    forall r: nat | r < n.popped ensures Located(n, r) {
      assert Located(s, r);
      assert r in p.busy ==> r in n.executed || r in q.busy by {
        assert p.busy == p.busy[..i] + [p.busy[i]] + p.busy[i + 1..];
      }
    }
  }

  lemma LeaveKeeps(s: Server, l: Label)
    requires Inv(s) && (l.ReleaseToken? || l.LeaveWorker?) && Step(s, l).Some?
    ensures Inv(Step(s, l).value)
  {
    var n := Step(s, l).value;
    forall r: nat | r < n.popped ensures Located(n, r) {
      assert Located(s, r);
    }
  }

  lemma StopKeeps(s: Server, l: Label)
    requires Inv(s) && !DispatchLabel(l) && !WorkLabel(l) && Step(s, l).Some?
    ensures Inv(Step(s, l).value)
  {
    var n := Step(s, l).value;
    forall r: nat | r < n.popped ensures Located(n, r) {
      assert Located(s, r);
    }
  }

  lemma StepKeeps(s: Server, l: Label)
    requires Inv(s) && Step(s, l).Some?
    ensures Inv(Step(s, l).value)
  {
    if DispatchLabel(l) {
      DispatchKeeps(s, l);
    } else if WorkLabel(l) {
      match l
      case TakeTask(k) => TakeTaskKeeps(s, k);
      case RunTask(k, r) => RunTaskKeeps(s, k, r);
      case _ => LeaveKeeps(s, l);
    } else {
      StopKeeps(s, l);
    }
  }

  lemma RunKeeps(highThreads: nat, normalThreads: nat, run: seq<Label>)
    requires Exec(Step, Fresh(highThreads, normalThreads), run).Some?
    ensures Inv(Exec(Step, Fresh(highThreads, normalThreads), run).value)
  {
    forall s: Server, l: Label | Inv(s) && Step(s, l).Some? ensures Inv(Step(s, l).value) {
      StepKeeps(s, l);
    }
    Invariant(Step, Inv, Fresh(highThreads, normalThreads), run);
  }

  // --- Main results ----------------------------------------------------------------------------

  /** Capacity seen before a pop guarantees that the following submit is accepted: no popped
      request is ever dropped, and the tokens count exactly the tasks that hold one. */
  lemma AdmissionNeverDrops(highThreads: nat, normalThreads: nat, run: seq<Label>, s: Server)
    requires Exec(Step, Fresh(highThreads, normalThreads), run) == Some(s)
    ensures s.dropped == {}
    ensures s.dispatcher.DSubmitting? ==> HasCapacity(GetPool(s, s.dispatcher.kind))
    ensures s.tokens == PoolTokens(s.high) + PoolTokens(s.normal) + (if s.dispatcher.DSubmitting? then 1 else 0)
    ensures forall r: nat | r < s.popped :: Located(s, r)
  {
    RunKeeps(highThreads, normalThreads, run);
  }

  /** When the session is reset every token has been released, every popped request has been
      executed, and no worker is left that could touch the session. */
  lemma ResetAfterAllTasks(highThreads: nat, normalThreads: nat, run: seq<Label>, s: Server)
    requires Exec(Step, Fresh(highThreads, normalThreads), run) == Some(s) && s.phase.SessionReset?
    ensures s.tokens == 0 && s.dispatcher.DExited?
    ensures s.high.gone == s.high.threads && s.normal.gone == s.normal.threads
    ensures forall r: nat | r < s.popped :: r in s.executed
  {
    RunKeeps(highThreads, normalThreads, run);
    forall r: nat | r < s.popped ensures r in s.executed {
      assert Located(s, r);
    }
  }
}
