/** Order and capacity of the worker pools: tasks are started in the order in which the dispatcher
    popped them, a pool takes in exactly as many as it has threads, and a stop can always finish
    (memrpc/src/server/rpc_server.cpp:41-136, 647-680, 862-894). */
module AdmissionOrder {
  import opened Runs
  import opened Admission

  /** Waiting tasks are in the order they were popped, after every task that a thread is running
      and before request number `next`. */
  ghost predicate InOrder(p: Pool, next: nat) {
    && (forall i, j | 0 <= i < j < |p.queue| :: p.queue[i] < p.queue[j])
    && (forall b, i | 0 <= b < |p.busy| && 0 <= i < |p.queue| :: p.busy[b] < p.queue[i])
    && (forall i | 0 <= i < |p.queue| :: p.queue[i] < next)
    && (forall b | 0 <= b < |p.busy| :: p.busy[b] < next)
  }

  /** The first request that is not yet with a pool. */
  function Next(s: Server): (n: nat) {
    if Holding(s.dispatcher) then s.dispatcher.request else s.popped
  }

  ghost predicate Ordered(s: Server) {
    && (Holding(s.dispatcher) ==> s.dispatcher.request + 1 == s.popped)
    && InOrder(s.high, Next(s)) && InOrder(s.normal, Next(s))
  }

  lemma AppendOrder(p: Pool, r: nat)
    requires InOrder(p, r)
    ensures InOrder(p.(queue := p.queue + [r]), r + 1)
  {
  }

  lemma LaterOrder(p: Pool, n: nat, m: nat)
    requires InOrder(p, n) && n <= m
    ensures InOrder(p, m)
  {
  }

  lemma SubmitShape(s: Server)
    requires s.dispatcher.DSubmitting? && HasCapacity(GetPool(s, s.dispatcher.kind))
    ensures var k, p := s.dispatcher.kind, GetPool(s, s.dispatcher.kind);
      Step(s, TrySubmit) == Some(SetPool(s, k, p.(queue := p.queue + [s.dispatcher.request])).(dispatcher := DIdle))
  {
  }

  lemma SubmitOrdered(s: Server)
    requires Ordered(s) && s.dispatcher.DSubmitting? && HasCapacity(GetPool(s, s.dispatcher.kind))
    ensures Step(s, TrySubmit).Some? && Ordered(Step(s, TrySubmit).value)
  {
    var k, r := s.dispatcher.kind, s.dispatcher.request;
    SubmitShape(s);
    AppendOrder(GetPool(s, k), r);
    LaterOrder(if k.High? then s.normal else s.high, r, r + 1);
  }

  lemma DispatchOrdered(s: Server, l: Label)
    requires Inv(s) && Ordered(s) && DispatchLabel(l) && Step(s, l).Some?
    ensures Ordered(Step(s, l).value)
  {
    if l.TrySubmit? {
      SubmitOrdered(s);
    } else {
      LaterOrder(s.high, Next(s), Next(Step(s, l).value));
      LaterOrder(s.normal, Next(s), Next(Step(s, l).value));
    }
  }

  lemma TakeOrder(p: Pool, next: nat)
    requires InOrder(p, next) && p.queue != []
    ensures InOrder(p.(queue := p.queue[1..], busy := p.busy + [p.queue[0]]), next)
  {
  }

  lemma RunOrder(p: Pool, i: nat, ran: nat, next: nat)
    requires InOrder(p, next) && i < |p.busy|
    ensures InOrder(p.(busy := p.busy[..i] + p.busy[i + 1..], ran := ran), next)
  {
    var busy := p.busy[..i] + p.busy[i + 1..];
    forall b | 0 <= b < |busy| ensures busy[b] == p.busy[if b < i then b else b + 1] {
    }
  }

  /** Only the pools and the dispatcher matter for the order. */
  lemma PoolOrdered(s: Server, kind: Kind, p: Pool, n: Server)
    requires Ordered(s) && InOrder(p, Next(s))
    requires n == SetPool(s, kind, p).(executed := n.executed, tokens := n.tokens)
    ensures Ordered(n)
  {
  }

  lemma WorkOrdered(s: Server, l: Label)
    requires Ordered(s) && WorkLabel(l) && Step(s, l).Some?
    ensures Ordered(Step(s, l).value)
  {
    var n := Step(s, l).value;
    if l.TakeTask? {
      TakeTaskOrder(s, l, Next(s));
    } else if l.RunTask? {
      RunTaskOrder(s, l, Next(s));
    } else {
      SameOrder(GetPool(s, l.kind), GetPool(n, l.kind), Next(s));
    }
    WorkShape(s, l);
    PoolOrdered(s, l.kind, GetPool(n, l.kind), n);
  }

  lemma TakeTaskOrder(s: Server, l: Label, next: nat)
    requires l.TakeTask? && Step(s, l).Some? && InOrder(GetPool(s, l.kind), next)
    ensures InOrder(GetPool(Step(s, l).value, l.kind), next)
  {
    TakeOrder(GetPool(s, l.kind), next);
  }

  lemma RunTaskOrder(s: Server, l: Label, next: nat)
    requires l.RunTask? && Step(s, l).Some? && InOrder(GetPool(s, l.kind), next)
    ensures InOrder(GetPool(Step(s, l).value, l.kind), next)
  {
    RunOrder(GetPool(s, l.kind), l.which, GetPool(s, l.kind).ran + 1, next);
  }

  lemma SameOrder(p: Pool, q: Pool, next: nat)
    requires InOrder(p, next) && q.queue == p.queue && q.busy == p.busy
    ensures InOrder(q, next)
  {
  }

  lemma WorkShape(s: Server, l: Label)
    requires WorkLabel(l) && Step(s, l).Some?
    ensures var n := Step(s, l).value;
      n == SetPool(s, l.kind, GetPool(n, l.kind)).(executed := n.executed, tokens := n.tokens)
  {
  }

  ghost predicate Keeps(s: Server) {
    Inv(s) && Ordered(s)
  }

  lemma StepOrdered(s: Server, l: Label)
    requires Keeps(s) && Step(s, l).Some?
    ensures Keeps(Step(s, l).value)
  {
    StepKeeps(s, l);
    if DispatchLabel(l) {
      DispatchOrdered(s, l);
    } else if WorkLabel(l) {
      WorkOrdered(s, l);
    }
  }

  lemma RunOrdered(highThreads: nat, normalThreads: nat, run: seq<Label>)
    requires Exec(Step, Fresh(highThreads, normalThreads), run).Some?
    ensures Keeps(Exec(Step, Fresh(highThreads, normalThreads), run).value)
  {
    forall x: Server, l: Label | Keeps(x) && Step(x, l).Some? ensures Keeps(Step(x, l).value) {
      StepOrdered(x, l);
    }
    Invariant(Step, Keeps, Fresh(highThreads, normalThreads), run);
  }

  /** In every run, both pools keep their waiting tasks in the order of popping, behind every task
      that is running: the task a thread takes next is the oldest one waiting. */
  lemma TasksStartInOrder(highThreads: nat, normalThreads: nat, run: seq<Label>, s: Server, kind: Kind)
    requires Exec(Step, Fresh(highThreads, normalThreads), run) == Some(s)
    ensures InOrder(GetPool(s, kind), s.popped)
  {
    RunOrdered(highThreads, normalThreads, run);
  }

  // --- Capacity ---------------------------------------------------------------------------------------

  /** Serving, with nothing in the dispatcher's hand and this many tasks waiting and running. */
  predicate Loaded(s: Server, kind: Kind, waiting: nat, running: nat) {
    && s.phase.Serving? && s.dispatcher.DIdle?
    && var p := GetPool(s, kind);
       p.running && |p.queue| == waiting && |p.busy| == running && p.ran == 0 && p.gone == 0
  }

  lemma SubmitOne(from: Server, s: Server, kind: Kind, waiting: nat, running: nat) returns (t: Server)
    requires Reaches(Step, from, s) && Loaded(s, kind, waiting, running) && waiting < GetPool(s, kind).threads
    ensures Reaches(Step, from, t) && Loaded(t, kind, waiting + 1, running)
    ensures GetPool(t, kind).threads == GetPool(s, kind).threads
  {
    var a := Step(s, SeeCapacity(kind)).value;
    ReachesThen(Step, from, s, SeeCapacity(kind), a);
    var b := Step(a, PopRequest(true)).value;
    ReachesThen(Step, from, a, PopRequest(true), b);
    var c := Step(b, MakeToken).value;
    ReachesThen(Step, from, b, MakeToken, c);
    t := Step(c, TrySubmit).value;
    ReachesThen(Step, from, c, TrySubmit, t);
  }

  lemma {:induction false} Occupy(high: nat, normal: nat, kind: Kind, running: nat) returns (t: Server)
    requires running <= GetPool(Fresh(high, normal), kind).threads
    ensures Reaches(Step, Fresh(high, normal), t) && Loaded(t, kind, 0, running)
    ensures GetPool(t, kind).threads == GetPool(Fresh(high, normal), kind).threads
    decreases running
  {
    var from := Fresh(high, normal);
    if running == 0 {
      ReachesSelf(Step, from);
      t := from;
    } else {
      var a := Occupy(high, normal, kind, running - 1);
      var b := SubmitOne(from, a, kind, 0, running - 1);
      t := Step(b, TakeTask(kind)).value;
      ReachesThen(Step, from, b, TakeTask(kind), t);
    }
  }

  lemma {:induction false} Load(high: nat, normal: nat, kind: Kind, waiting: nat, running: nat) returns (t: Server)
    requires waiting <= GetPool(Fresh(high, normal), kind).threads
    requires running <= GetPool(Fresh(high, normal), kind).threads
    ensures Reaches(Step, Fresh(high, normal), t) && Loaded(t, kind, waiting, running)
    ensures GetPool(t, kind).threads == GetPool(Fresh(high, normal), kind).threads
    decreases waiting
  {
    if waiting == 0 {
      t := Occupy(high, normal, kind, running);
    } else {
      var s := Load(high, normal, kind, waiting - 1, running);
      t := SubmitOne(Fresh(high, normal), s, kind, waiting - 1, running);
    }
  }

  lemma ThreadsFixed(high: nat, normal: nat, run: seq<Label>, s: Server, kind: Kind)
    requires Exec(Step, Fresh(high, normal), run) == Some(s)
    ensures GetPool(s, kind).threads == GetPool(Fresh(high, normal), kind).threads
  {
    var from := Fresh(high, normal);
    Invariant(Step, (x: Server) => x.high.threads == from.high.threads && x.normal.threads == from.normal.threads,
              from, run);
  }

  ghost predicate CanHold(high: nat, normal: nat, kind: Kind, waiting: nat, running: nat) {
    exists s: Server :: Reaches(Step, Fresh(high, normal), s)
      && |GetPool(s, kind).queue| == waiting && |GetPool(s, kind).busy| == running
  }

  /** A pool can have `waiting` tasks waiting and `running` tasks running if and only if neither
      number exceeds its threads, of which it has at least one. */
  lemma CapacityExact(high: nat, normal: nat, kind: Kind, waiting: nat, running: nat)
    ensures var configured := if kind.High? then high else normal;
      var threads := if configured == 0 then 1 else configured;
      CanHold(high, normal, kind, waiting, running) <==> waiting <= threads && running <= threads
  {
    var threads := GetPool(Fresh(high, normal), kind).threads;
    if waiting <= threads && running <= threads {
      var t := Load(high, normal, kind, waiting, running);
    }
    forall s: Server | Reaches(Step, Fresh(high, normal), s)
      ensures |GetPool(s, kind).queue| <= threads && |GetPool(s, kind).busy| <= threads
    {
      var run: seq<Label> :| Exec(Step, Fresh(high, normal), run) == Some(s);
      RunKeeps(high, normal, run);
      ThreadsFixed(high, normal, run, s, kind);
    }
  }

  // --- Stopping -----------------------------------------------------------------------------------------

  /** One request is popped, run and finished. */
  lemma ServesOne(high: nat, normal: nat, kind: Kind) returns (t: Server)
    ensures Reaches(Step, Fresh(high, normal), t) && t.executed == {0} && t.popped == 1
    ensures t == Fresh(high, normal).(popped := 1, executed := {0})
  {
    var from := Fresh(high, normal);
    ReachesSelf(Step, from);
    var a := Step(from, SeeCapacity(kind)).value;
    ReachesThen(Step, from, from, SeeCapacity(kind), a);
    var b := Step(a, PopRequest(true)).value;
    ReachesThen(Step, from, a, PopRequest(true), b);
    var c := Step(b, MakeToken).value;
    ReachesThen(Step, from, b, MakeToken, c);
    var d := Step(c, TrySubmit).value;
    ReachesThen(Step, from, c, TrySubmit, d);
    t := WorksOff(from, d, kind);
  }

  lemma WorksOff(from: Server, d: Server, kind: Kind) returns (t: Server)
    requires Reaches(Step, from, d) && GetPool(d, kind).threads > 0 && d.tokens == 1
    requires var p := GetPool(d, kind); p.queue == [0] && p.busy == [] && p.ran == 0 && p.gone == 0
    ensures Reaches(Step, from, t)
    ensures t == SetPool(d, kind, GetPool(d, kind).(queue := [])).(executed := d.executed + {0}, tokens := 0)
  {
    var e := Step(d, TakeTask(kind)).value;
    ReachesThen(Step, from, d, TakeTask(kind), e);
    var f := Step(e, RunTask(kind, 0)).value;
    ReachesThen(Step, from, e, RunTask(kind, 0), f);
    t := Step(f, ReleaseToken(kind)).value;
    ReachesThen(Step, from, f, ReleaseToken(kind), t);
  }

  /** The threads of a stopped pool leave one by one. */
  lemma {:induction false} WorkersLeave(from: Server, s: Server, kind: Kind) returns (t: Server)
    requires Reaches(Step, from, s)
    requires var p := GetPool(s, kind); !p.running && p.queue == [] && p.busy == [] && p.ran == 0 && p.gone <= p.threads
    ensures Reaches(Step, from, t)
    ensures t == SetPool(s, kind, GetPool(s, kind).(gone := GetPool(s, kind).threads))
    decreases GetPool(s, kind).threads - GetPool(s, kind).gone
  {
    if GetPool(s, kind).gone == GetPool(s, kind).threads {
      t := s;
    } else {
      var a := Step(s, LeaveWorker(kind)).value;
      ReachesThen(Step, from, s, LeaveWorker(kind), a);
      t := WorkersLeave(from, a, kind);
    }
  }

  lemma PoolStops(from: Server, s: Server, kind: Kind) returns (t: Server)
    requires Reaches(Step, from, s) && s.phase == (if kind.High? then DispatcherJoined else HighStopped)
    requires var p := GetPool(s, kind); p.queue == [] && p.busy == [] && p.ran == 0 && p.gone == 0
    ensures Reaches(Step, from, t)
    ensures t == SetPool(s, kind, GetPool(s, kind).(running := false, gone := GetPool(s, kind).threads))
                 .(phase := if kind.High? then HighStopped else PoolsStopped)
  {
    var a := Step(s, StopPool).value;
    ReachesThen(Step, from, s, StopPool, a);
    var b := WorkersLeave(from, a, kind);
    t := Step(b, JoinPool).value;
    ReachesThen(Step, from, b, JoinPool, t);
  }

  /** The dispatcher leaves and is joined. */
  lemma DispatcherStops(from: Server, s: Server) returns (t: Server)
    requires Reaches(Step, from, s) && s.phase.Serving? && s.dispatcher.DIdle?
    ensures Reaches(Step, from, t) && t == s.(phase := DispatcherJoined, dispatcher := DExited)
  {
    var a := Step(s, BeginStop).value;
    ReachesThen(Step, from, s, BeginStop, a);
    var b := Step(a, LeaveDispatcher).value;
    ReachesThen(Step, from, a, LeaveDispatcher, b);
    t := Step(b, JoinDispatcher).value;
    ReachesThen(Step, from, b, JoinDispatcher, t);
  }

  lemma SessionResets(from: Server, s: Server) returns (t: Server)
    requires Reaches(Step, from, s) && s.phase.PoolsStopped? && s.tokens == 0
    ensures Reaches(Step, from, t) && t == s.(phase := SessionReset)
  {
    var a := Step(s, WaitForTasks).value;
    ReachesThen(Step, from, s, WaitForTasks, a);
    t := Step(a, ResetSession).value;
    ReachesThen(Step, from, a, ResetSession, t);
  }

  /** A server that has served a request can stop: the session is reset in the end. */
  lemma ServesAndStops(high: nat, normal: nat, kind: Kind) returns (t: Server)
    ensures Reaches(Step, Fresh(high, normal), t) && t.phase.SessionReset? && t.executed == {0} && t.popped == 1
  {
    var from := Fresh(high, normal);
    var a := ServesOne(high, normal, kind);
    var b := DispatcherStops(from, a);
    var c := PoolStops(from, b, High);
    var d := PoolStops(from, c, Normal);
    t := SessionResets(from, d);
  }
}
