/** The race to shut down a running client: any number of threads are inside `Shutdown` and run
    the compare-and-swap loop of `BeginShutdown` on the client's control word
    (memrpc/src/client/rpc_client.cpp:1412-1437, 2037-2050), while everything else the client
    does interleaves with them.

    The one call that swaps the word goes on with the shutdown of `ClientModel` and returns when
    that has stored `Closed`.  A call that finds the word at `Closing` or `Closed` returns at
    once; `saw` is what it found.
 */
module ControlRace {
  import opened Runs
  import opened ClientTypes
  import opened ClientModel
  import opened ClientLifecycle
  import opened ClientFutures

  /** Where a call of `Shutdown` has got to. */
  datatype Caller =
    | Calling
    | Loaded(expected: Control)
    | Checked(expected: Control)
    | Won
    | Lost(saw: Control)

  datatype Race = Race(client: Client, callers: seq<Caller>)

  datatype Move =
    | Load(who: nat) | Check(who: nat) | Swap(who: nat, spurious: bool)
    | Other(step: Label)

  predicate CanStart(c: Control) {
    !c.Closing? && !c.Closed?
  }

  function Begin(callers: nat, eager: bool, now: nat): (r: Race) {
    Race(ClientModel.Started(eager, now), seq(callers, _ => Calling))
  }

  /** The client after the word was swapped: the caller goes on to shut it down. */
  function Swapped(s: Client): (n: Client) {
    s.(core := s.core.(control := Closing, shutdown := SBegan))
  }

  function RaceStep(r: Race, m: Move): (next: Option<Race>) {
    match m
    case Load(i) =>
      if i < |r.callers| && r.callers[i].Calling?
      then Some(r.(callers := r.callers[i := Loaded(r.client.core.control)])) else None
    case Check(i) =>
      // CanStartShutdown loads the word again
      if i < |r.callers| && r.callers[i].Loaded? then
        var c := r.client.core.control;
        Some(r.(callers := r.callers[i := if CanStart(c) then Checked(r.callers[i].expected) else Lost(c)]))
      else None
    case Swap(i, spurious) =>
      // compare_exchange_weak: on failure `expected` becomes the value found
      if i < |r.callers| && r.callers[i].Checked? then
        if r.client.core.control == r.callers[i].expected && !spurious
        then Some(Race(Swapped(r.client), r.callers[i := Won]))
        else Some(r.(callers := r.callers[i := Loaded(r.client.core.control)]))
      else None
    case Other(l) =>
      if l.BeginShutdown? then None else
      match Step(r.client, l)
      case None => None
      case Some(n) => Some(r.(client := n))
  }

  ghost predicate OneWinner(callers: seq<Caller>) {
    forall i, j | 0 <= i < |callers| && 0 <= j < |callers| :: callers[i].Won? && callers[j].Won? ==> i == j
  }

  ghost predicate CallersOk(control: Control, callers: seq<Caller>) {
    && OneWinner(callers)
    && (CanStart(control) <==> forall i | 0 <= i < |callers| :: !callers[i].Won?)
    && (forall i | 0 <= i < |callers| ::
          && (callers[i].Checked? ==> CanStart(callers[i].expected))
          && (callers[i].Loaded? && !CanStart(callers[i].expected) ==> !CanStart(control))
          && (callers[i].Lost? ==> !CanStart(callers[i].saw) && ControlRank(callers[i].saw) <= ControlRank(control)))
  }

  ghost predicate RaceInv(r: Race) {
    Reachable(r.client) && CallersOk(r.client.core.control, r.callers)
  }

  /** The control word only moves forward, and only a caller's swap begins a shutdown. */
  lemma OtherControl(s: Client, l: Label)
    requires Inv(s) && Step(s, l).Some? && !l.BeginShutdown?
    ensures ControlRank(s.core.control) <= ControlRank(Step(s, l).value.core.control)
    ensures CanStart(Step(s, l).value.core.control) <==> CanStart(s.core.control)
  {
    ControlStepForward(s, l);
    if l.RunFrame? {
      FramesKeepControl(s.core, l, !s.calls.worker.WPushing?, s.calls.pending);
    } else if LockLabel(l) {
      assert Enter(s.core, l).value.control == s.core.control;
    } else if !(InvokeLabel(l) || SubmitLabel(l) || ReceiveLabel(l)) {
      assert CanStart(Administer(s.core, s.calls, l).value.control) == CanStart(s.core.control);
    }
  }

  lemma MoveKeeps(r: Race, m: Move)
    requires RaceInv(r) && RaceStep(r, m).Some?
    ensures RaceInv(RaceStep(r, m).value)
  {
    var n := RaceStep(r, m).value;
    if m.Other? {
      ReachableOk(r.client);
      ReachableThen(r.client, m.step, n.client);
      OtherControl(r.client, m.step);
    } else if m.Swap? && n.client != r.client {
      SwapBegins(r.client);
      ReachableThen(r.client, BeginShutdown, n.client);
      SwapKeepsCallers(r.client.core.control, r.callers, m.who);
    } else {
      QuietKeepsCallers(r, m);
    }
  }

  /** A swap that can start is the client's `BeginShutdown`. */
  lemma SwapBegins(s: Client)
    ensures CanStart(s.core.control) ==> Step(s, BeginShutdown) == Some(Swapped(s))
  {
  }

  lemma SwapKeepsCallers(control: Control, callers: seq<Caller>, who: nat)
    requires CallersOk(control, callers) && who < |callers| && callers[who] == Checked(control)
    ensures CallersOk(Closing, callers[who := Won]) && CanStart(control)
  {
    assert callers[who := Won][who].Won?;
  }

  lemma QuietKeepsCallers(r: Race, m: Move)
    requires CallersOk(r.client.core.control, r.callers) && RaceStep(r, m).Some? && !m.Other?
    requires RaceStep(r, m).value.client == r.client
    requires m.Swap? ==> m.spurious || r.client.core.control != r.callers[m.who].expected
    ensures CallersOk(r.client.core.control, RaceStep(r, m).value.callers)
  {
    var after := RaceStep(r, m).value.callers;
    if !CanStart(r.client.core.control) {
      var w :| 0 <= w < |r.callers| && r.callers[w].Won?;
      assert after[w].Won?;
    }
  }

  lemma RunKeeps(callers: nat, eager: bool, now: nat, run: seq<Move>)
    requires Exec(RaceStep, Begin(callers, eager, now), run).Some?
    ensures RaceInv(Exec(RaceStep, Begin(callers, eager, now), run).value)
    ensures |Exec(RaceStep, Begin(callers, eager, now), run).value.callers| == callers
  {
    ReachableStarted(eager, now);
    forall r: Race, m: Move | RaceInv(r) && RaceStep(r, m).Some? ensures RaceInv(RaceStep(r, m).value) {
      MoveKeeps(r, m);
    }
    Invariant(RaceStep, RaceInv, Begin(callers, eager, now), run);
    Invariant(RaceStep, (x: Race) => |x.callers| == callers, Begin(callers, eager, now), run);
  }

  predicate Undecided(c: Caller) {
    !c.Won? && !c.Lost?
  }

  /** However many calls race and whatever the client does meanwhile, at most one wins; and if at
      least one was made and all are decided, exactly one has won. */
  lemma ExactlyOneShutdownWins(callers: nat, eager: bool, now: nat, run: seq<Move>, r: Race)
    requires Exec(RaceStep, Begin(callers, eager, now), run) == Some(r)
    ensures OneWinner(r.callers)
    ensures callers > 0 && (forall i | 0 <= i < |r.callers| :: !Undecided(r.callers[i])) ==>
      exists w :: 0 <= w < |r.callers| && r.callers[w].Won? &&
        forall i | 0 <= i < |r.callers| && i != w :: r.callers[i].Lost?
  {
    RunKeeps(callers, eager, now, run);
    if callers > 0 && forall i | 0 <= i < |r.callers| :: !Undecided(r.callers[i]) {
      assert !Undecided(r.callers[0]);
      assert !CanStart(r.client.core.control);
      var w :| 0 <= w < |r.callers| && r.callers[w].Won?;
      forall i | 0 <= i < |r.callers| && i != w ensures r.callers[i].Lost? {
        assert !Undecided(r.callers[i]);
      }
    }
  }

  /** The call of `Shutdown` has returned: it lost, or it won and the shutdown is finished. */
  predicate Returned(r: Race, i: nat) {
    i < |r.callers| && (r.callers[i].Lost? || (r.callers[i].Won? && r.client.core.control.Closed?))
  }

  /** The word a call last saw before it returned: what a loser found, what the winner stored. */
  function LastSaw(r: Race, i: nat): (c: Control)
    requires Returned(r, i)
  {
    if r.callers[i].Lost? then r.callers[i].saw else Closed
  }

  /** In every run, a call of `Shutdown` that returned after seeing `c` leaves every accepted
      future resolved. */
  ghost predicate ReturnsResolved(c: Control) {
    forall callers: nat, eager: bool, now: nat, run: seq<Move>, i: nat ::
      var end := Exec(RaceStep, Begin(callers, eager, now), run);
      end.Some? && Returned(end.value, i) && LastSaw(end.value, i) == c ==> AllResolved(end.value.client)
  }

  lemma ReturnedClosed(callers: nat, eager: bool, now: nat, run: seq<Move>, r: Race, i: nat)
    requires Exec(RaceStep, Begin(callers, eager, now), run) == Some(r)
    requires Returned(r, i) && LastSaw(r, i) == Closed
    ensures AllResolved(r.client)
  {
    RunKeeps(callers, eager, now, run);
    assert ControlRank(Closed) <= ControlRank(r.client.core.control);
    ShutdownResolvesAll(r.client);
  }

  /** Two callers, the first of which wins right after a call was accepted. */
  lemma LosingReturn(now: nat) returns (r: Race)
    ensures Reaches(RaceStep, Begin(2, false, now), r)
    ensures |r.callers| == 2 && r.callers[1] == Lost(Closing) && !AllResolved(r.client)
  {
    var from := Begin(2, false, now);
    ReachesSelf(RaceStep, from);
    var a := RaceStep(from, Other(FinishInit)).value;
    ReachesThen(RaceStep, from, from, Other(FinishInit), a);
    var b := RaceStep(a, Other(AdmitInvoke)).value;
    ReachesThen(RaceStep, from, a, Other(AdmitInvoke), b);
    var c := RaceStep(b, Other(EnqueueInvoke)).value;
    ReachesThen(RaceStep, from, b, Other(EnqueueInvoke), c);
    assert 1 in c.client.calls.accepted && c.client.calls.replies == map[];
    r := LosesTo(from, c);
  }

  lemma LosesTo(from: Race, c: Race) returns (r: Race)
    requires Reaches(RaceStep, from, c) && c.callers == [Calling, Calling] && c.client.core.control == Open
    ensures Reaches(RaceStep, from, r) && |r.callers| == 2 && r.callers[1] == Lost(Closing)
    ensures r.client.calls == c.client.calls
  {
    var d := RaceStep(c, Load(0)).value;
    ReachesThen(RaceStep, from, c, Load(0), d);
    var e := RaceStep(d, Check(0)).value;
    ReachesThen(RaceStep, from, d, Check(0), e);
    var f := RaceStep(e, Swap(0, false)).value;
    ReachesThen(RaceStep, from, e, Swap(0, false), f);
    var g := RaceStep(f, Load(1)).value;
    ReachesThen(RaceStep, from, f, Load(1), g);
    r := RaceStep(g, Check(1)).value;
    ReachesThen(RaceStep, from, g, Check(1), r);
  }

  /** A `Shutdown` that returns, winner or loser, leaves every accepted future resolved for sure
      if and only if the control word it last saw was `Closed`.  So the winner always does, and a
      loser that found the client still closing may not. */
  lemma ShutdownReturnExact(c: Control)
    requires !CanStart(c)
    ensures ReturnsResolved(c) <==> c == Closed
  {
    if c.Closed? {
      forall callers: nat, eager: bool, now: nat, run: seq<Move>, i: nat |
        Exec(RaceStep, Begin(callers, eager, now), run).Some?
        && Returned(Exec(RaceStep, Begin(callers, eager, now), run).value, i)
        && LastSaw(Exec(RaceStep, Begin(callers, eager, now), run).value, i) == c
        ensures AllResolved(Exec(RaceStep, Begin(callers, eager, now), run).value.client)
      {
        ReturnedClosed(callers, eager, now, run, Exec(RaceStep, Begin(callers, eager, now), run).value, i);
      }
    } else {
      var r := LosingReturn(0);
      var run: seq<Move> :| Exec(RaceStep, Begin(2, false, 0), run) == Some(r);
      assert Returned(Exec(RaceStep, Begin(2, false, 0), run).value, 1);
    }
  }
}
