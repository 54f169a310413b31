/** Which status a future is resolved with: every resolution goes back to one event of the run
    that decided it, and what a reply says is what the caller gets
    (memrpc/src/client/rpc_client.cpp:215-230, 1214-1240, 1524-1542, 1642-1654, 1848-1872). */
module ClientStatuses {
  import opened Runs
  import opened ClientTypes
  import opened ClientModel
  import opened ClientLifecycle
  import opened ClientFutures

  /** The step decides that call `id` will be resolved with `status`. */
  predicate Decides(s: Client, l: Label, id: nat, status: Status) {
    match l
    // the response ring delivered a reply to a pending request
    case TakeReply(reply, st) => reply == id && st == status && id in s.calls.pending
    // the submit worker gives up on the request it holds
    case WorkerFail(st) => s.calls.worker == WHolding(id) && st == status
    // the watchdog finds that the deadline has passed
    case TakeExpired =>
      && status == ExecTimeout && id in s.calls.pending
      && s.calls.pending[id].deadline != 0 && s.core.now >= s.calls.pending[id].deadline
    // a section drains the store
    case RunFrame(_, _, _) =>
      s.core.section.Held? && id in s.calls.pending && Drains(s.core.section.top, status)
    // the shutdown takes what is left
    case TakePending => status == ClientClosed && id in s.calls.pending
    case TakeQueue => status == ClientClosed && id in s.calls.queue
    case _ => false
  }

  /** A section holds call `id`, to resolve it with `status`. */
  predicate InSection(section: Section, id: nat, status: Status) {
    && section.Held?
    && match section.top
       case Failing(_, _, hand) => id in hand && status == PeerDisconnected
       case FailResolve(_, _, hand, which) => (id in hand || id == which) && status == PeerDisconnected
       case Resolving(_, _, hand) => id in hand && status == PeerDisconnected
       case ResolvingDeath(_, _, hand) => id in hand && status == CrashedDuringExecution
       case _ => false
  }

  /** Call `id` is resolved with `status`, or somebody holds it to do so. */
  predicate Destined(s: Client, id: nat, status: Status) {
    || (id in s.calls.replies && s.calls.replies[id] == status)
    || s.calls.responder == RHolding(id, status)
    || s.calls.worker == WResolving(id, status)
    || (s.calls.watchdog.TWatching? && id in s.calls.watchdog.hand && status == ExecTimeout)
    || InSection(s.core.section, id, status)
    || (id in s.calls.leftPending && status == ClientClosed)
    || (id in s.calls.leftQueue && status == ClientClosed)
  }

  /** The frame drains the store, and what it drains is resolved with `status`. */
  predicate Drains(f: Frame, status: Status) {
    || (f.DrainForDeath? && status == CrashedDuringExecution)
    || (f.DrainForRestart? && !f.action.KeepCurrentState? && status == PeerDisconnected)
  }

  lemma DrainHands(c: Core, l: Label, sessionFree: bool, pending: map<nat, Pending>, id: nat, status: Status)
    requires CoreInv(c) && l.RunFrame? && c.section.Held? && RunDrain(c, l, sessionFree, pending).Some?
    requires InSection(RunDrain(c, l, sessionFree, pending).value.section, id, status)
    ensures InSection(c.section, id, status) || (id in pending && Drains(c.section.top, status))
  {
  }

  lemma ClosingHands(c: Core, l: Label, sessionFree: bool, pending: map<nat, Pending>, id: nat, status: Status)
    requires CoreInv(c) && l.RunFrame? && c.section.Held? && RunClosing(c, l, sessionFree, pending).Some?
    requires InSection(RunClosing(c, l, sessionFree, pending).value.section, id, status)
    ensures InSection(c.section, id, status) || (id in pending && Drains(c.section.top, status))
  {
  }

  lemma OtherHands(c: Core, l: Label, sessionFree: bool, id: nat, status: Status)
    requires CoreInv(c) && l.RunFrame? && c.section.Held?
    ensures RunDecision(c, l, sessionFree).Some? ==>
      !InSection(RunDecision(c, l, sessionFree).value.section, id, status)
    ensures RunEnsure(c, l, sessionFree).Some? ==>
      !InSection(RunEnsure(c, l, sessionFree).value.section, id, status)
  {
  }

  lemma SectionFromDrain(c: Core, l: Label, sessionFree: bool, pending: map<nat, Pending>, id: nat, status: Status)
    requires CoreInv(c) && l.RunFrame? && RunCore(c, l, sessionFree, pending).Some?
    requires InSection(RunCore(c, l, sessionFree, pending).value.section, id, status)
    ensures InSection(c.section, id, status) || (id in pending && Drains(c.section.top, status))
  {
    OtherHands(c, l, sessionFree, id, status);
    if DrainFrame(c.section.top) {
      DrainHands(c, l, sessionFree, pending, id, status);
    } else if RunClosing(c, l, sessionFree, pending).Some? {
      ClosingHands(c, l, sessionFree, pending, id, status);
    }
  }

  lemma RepliesFromSection(f: Frame, k: Calls, l: Label, id: nat)
    requires l.RunFrame? && id in RunCalls(f, k, l).replies && id !in k.replies
    requires (f.Resolving? || f.ResolvingDeath?) && f.hand != map[] ==> l.which in f.hand
    ensures InSection(Held(f, Free), id, RunCalls(f, k, l).replies[id])
  {
  }

  lemma FrameDestined(s: Client, l: Label, id: nat, status: Status)
    requires Inv(s) && l.RunFrame? && Step(s, l).Some? && Destined(Step(s, l).value, id, status)
    ensures Destined(s, id, status) || Decides(s, l, id, status)
  {
    var n := Step(s, l).value;
    var f, free := s.core.section.top, !s.calls.worker.WPushing?;
    FrameLeavesRest(s.calls, f, l);
    FrameExtends(s.calls, f, l);
    if InSection(n.core.section, id, status) {
      SectionFromDrain(s.core, l, free, s.calls.pending, id, status);
    } else if id in n.calls.replies && id !in s.calls.replies {
      HandIsHeld(s.core, l, free, s.calls.pending);
      RepliesFromSection(f, s.calls, l, id);
    }
  }

  /** A section resolves only what it holds. */
  lemma HandIsHeld(c: Core, l: Label, sessionFree: bool, pending: map<nat, Pending>)
    requires l.RunFrame? && RunCore(c, l, sessionFree, pending).Some?
    ensures (c.section.top.Resolving? || c.section.top.ResolvingDeath?) && c.section.top.hand != map[] ==>
      l.which in c.section.top.hand
  {
  }

  lemma SubmitDestined(s: Client, l: Label, id: nat, status: Status)
    requires (InvokeLabel(l) || SubmitLabel(l)) && Step(s, l).Some? && Destined(Step(s, l).value, id, status)
    ensures Destined(s, id, status) || Decides(s, l, id, status)
  {
  }

  lemma ReceiveDestined(s: Client, l: Label, id: nat, status: Status)
    requires ReceiveLabel(l) && Step(s, l).Some? && Destined(Step(s, l).value, id, status)
    ensures Destined(s, id, status) || Decides(s, l, id, status)
  {
  }

  lemma AdminDestined(s: Client, l: Label, id: nat, status: Status)
    requires !LockLabel(l) && !l.RunFrame? && !InvokeLabel(l) && !SubmitLabel(l) && !ReceiveLabel(l)
    requires Step(s, l).Some? && Destined(Step(s, l).value, id, status)
    ensures Destined(s, id, status) || Decides(s, l, id, status)
  {
    assert Step(s, l).value.core.section == s.core.section;
  }

  lemma LockDestined(s: Client, l: Label, id: nat, status: Status)
    requires LockLabel(l) && Step(s, l).Some? && Destined(Step(s, l).value, id, status)
    ensures Destined(s, id, status)
  {
    assert !InSection(Enter(s.core, l).value.section, id, status);
  }

  /** A step gives a call its status only by deciding it. */
  lemma StepDestined(s: Client, l: Label, id: nat, status: Status)
    requires Inv(s) && Step(s, l).Some? && Destined(Step(s, l).value, id, status)
    ensures Destined(s, id, status) || Decides(s, l, id, status)
  {
    if l.RunFrame? {
      FrameDestined(s, l, id, status);
    } else if LockLabel(l) {
      LockDestined(s, l, id, status);
    } else if InvokeLabel(l) || SubmitLabel(l) {
      SubmitDestined(s, l, id, status);
    } else if ReceiveLabel(l) {
      ReceiveDestined(s, l, id, status);
    } else {
      AdminDestined(s, l, id, status);
    }
  }

  /** Some step of the run from `s` decides that `id` is resolved with `status`. */
  ghost predicate DecidedIn(s: Client, run: seq<Label>, id: nat, status: Status) {
    exists k | 0 <= k < |run| ::
      Exec(Step, s, run[..k]).Some? && Decides(Exec(Step, s, run[..k]).value, run[k], id, status)
  }

  lemma {:induction false} DestinedRun(s: Client, run: seq<Label>, id: nat, status: Status)
    requires Inv(s) && Exec(Step, s, run).Some? && Destined(Exec(Step, s, run).value, id, status)
    ensures Destined(s, id, status) || DecidedIn(s, run, id, status)
    decreases |run|
  {
    if run != [] {
      var n := Step(s, run[0]).value;
      StepKeeps(s, run[0]);
      DestinedRun(n, run[1..], id, status);
      if Destined(n, id, status) {
        StepDestined(s, run[0], id, status);
        if Decides(s, run[0], id, status) {
          assert Exec(Step, s, run[..0]) == Some(s);
        }
      } else {
        var k :| 0 <= k < |run[1..]| && Exec(Step, n, run[1..][..k]).Some?
          && Decides(Exec(Step, n, run[1..][..k]).value, run[1..][k], id, status);
        assert run[..k + 1][1..] == run[1..][..k];
        assert Exec(Step, s, run[..k + 1]) == Exec(Step, n, run[1..][..k]);
      }
    }
  }

  /** In every run of the client, a future that is resolved with some status has that status
      because a reply to its pending request carried it, the submit worker failed it so, its
      deadline had passed (`ExecTimeout`), an engine death drained it (`CrashedDuringExecution`), a
      restart drained it (`PeerDisconnected`), or the shutdown took it (`ClientClosed`). */
  lemma EveryStatusHasACause(eager: bool, now: nat, run: seq<Label>, s: Client, id: nat)
    requires Exec(Step, ClientModel.Started(eager, now), run) == Some(s) && id in s.calls.replies
    ensures DecidedIn(ClientModel.Started(eager, now), run, id, s.calls.replies[id])
  {
    StartedOk(eager, now);
    DestinedRun(ClientModel.Started(eager, now), run, id, s.calls.replies[id]);
  }

  // --- A reply reaches its caller -------------------------------------------------------------------

  lemma ResponderKeeps(s: Client, l: Label)
    requires s.calls.responder.RHolding? && l != ResolveReply && Step(s, l).Some?
    ensures Step(s, l).value.calls.responder == s.calls.responder
  {
    if l.RunFrame? {
      FrameLeavesRest(s.calls, s.core.section.top, l);
    }
  }

  lemma {:induction false} ResponderWaits(s: Client, run: seq<Label>)
    requires s.calls.responder.RHolding? && ResolveReply !in run && Exec(Step, s, run).Some?
    ensures Exec(Step, s, run).value.calls.responder == s.calls.responder
    decreases |run|
  {
    if run != [] {
      ResponderKeeps(s, run[0]);
      ResponderWaits(Step(s, run[0]).value, run[1..]);
    }
  }

  /** A reply taken for a pending request is what the caller gets, however long the response worker
      is held up, unless somebody else has resolved the call before. */
  lemma ReplyDelivered(s: Client, id: nat, status: Status, run: seq<Label>, t: Client)
    requires s.calls.responder.RIdle? && id in s.calls.pending
    requires ResolveReply !in run && Step(s, TakeReply(id, status)).Some?
    requires Exec(Step, Step(s, TakeReply(id, status)).value, run) == Some(t)
    ensures Step(t, ResolveReply).Some?
    ensures var r := Step(t, ResolveReply).value.calls.replies;
      id in r && r[id] == if id in t.calls.replies then t.calls.replies[id] else status
  {
    ResponderWaits(Step(s, TakeReply(id, status)).value, run);
  }

  // --- Deadlines ----------------------------------------------------------------------------------------

  lemma PendingKept(s: Client, l: Label, id: nat)
    requires Step(s, l).Some? && !l.PutPending?
    ensures id in Step(s, l).value.calls.pending ==>
      id in s.calls.pending && Step(s, l).value.calls.pending[id] == s.calls.pending[id]
  {
    if l.RunFrame? {
      assert RunCalls(s.core.section.top, s.calls, l).pending in {s.calls.pending, map[]};
    } else if !LockLabel(l) && !InvokeLabel(l) && !SubmitLabel(l) && !ReceiveLabel(l) {
      assert AdministerCalls(s.calls, l).pending in {s.calls.pending, map[]};
    }
  }

  lemma {:induction false} PendingKeptOverRun(s: Client, run: seq<Label>, id: nat)
    requires Exec(Step, s, run).Some? && forall i | 0 <= i < |run| :: !run[i].PutPending?
    ensures var t := Exec(Step, s, run).value;
      id in t.calls.pending ==> id in s.calls.pending && t.calls.pending[id] == s.calls.pending[id]
    decreases |run|
  {
    if run != [] {
      PendingKept(s, run[0], id);
      PendingKeptOverRun(Step(s, run[0]).value, run[1..], id);
    }
  }

  /** A request stored at time `t` with a timeout is taken by the watchdog, while it is still in the
      store, exactly from `t` plus the timeout on; with timeout 0, never. */
  lemma TimeoutExact(s: Client, id: nat, timeout: nat, m: Client, run: seq<Label>, t: Client)
    requires s.calls.worker == WHolding(id) && Step(s, PutPending(timeout)) == Some(m)
    requires Exec(Step, m, run) == Some(t) && forall i | 0 <= i < |run| :: !run[i].PutPending?
    requires id in t.calls.pending
    ensures id in Expired(t.calls.pending, t.core.now) <==> timeout != 0 && t.core.now >= s.core.now + timeout
    ensures t.calls.pending[id].session == s.core.session
  {
    PendingKeptOverRun(m, run, id);
  }
}
