/** The request-credit protocol: a submitter that found a request ring full sleeps on one
    eventfd until the dispatcher, after a drain that made some ring not full, signals it.

    Submitter: memrpc/src/client/rpc_client.cpp:947-981, 1034-1038 around `PushRingEntry`.
    Dispatcher: `DrainQueue`, memrpc/src/server/rpc_server.cpp:647-680.
    The submitter sleeps on without looking at the ring again when its poll times out, so a
    lost signal would strand it.  Any number of rings share the one eventfd; the source has
    two.  Loads are sequentially consistent.  `pushes`, `pops` and `seen` are history.
 */
module CreditProtocol {
  import opened Runs
  import opened Words

  datatype Cursor = Cursor(capacity: nat, head: U32, tail: U32, pops: nat, pushes: nat)

  /** `RingCount`. */
  function RingCount(c: Cursor): (n: U32) {
    WrapSub(c.tail, c.head)
  }

  datatype Submitter =
    | SIdle
    | SHasHead(ring: nat, head: U32, seen: nat)
    | SPublishing(ring: nat)
    | SWaiting(ring: nat, seen: nat)
    | SDraining

  datatype Dispatcher =
    | DIdle
    | DLooping(ring: nat, notFull: bool)
    | DHasTail(ring: nat, notFull: bool, tail: U32, seen: nat)
    | DPopped(ring: nat, notFull: bool)
    | DLeaving(notFull: bool)

  /** `credit` is the counter of `reqCreditEventFd`. */
  datatype State = State(rings: seq<Cursor>, credit: nat, submitter: Submitter, dispatcher: Dispatcher)

  datatype Label =
    | StartPush(ring: nat) | CheckFull | Publish | Wake | DrainCredit | GiveUp
    | StartDrain(ring: nat) | LoadTail | PopOrLeave | CheckCount | Leave | Signal

  predicate Fresh(s: State) {
    && s.credit == 0 && s.submitter.SIdle? && s.dispatcher.DIdle?
    && forall i | 0 <= i < |s.rings| :: ValidCapacity(s.rings[i].capacity)
         && s.rings[i] == Cursor(s.rings[i].capacity, 0, 0, 0, 0)
  }

  function Step(s: State, l: Label): (next: Option<State>) {
    match l
    // The submitter.
    case StartPush(k) =>
      if s.submitter.SIdle? && k < |s.rings|
      then Some(s.(submitter := SHasHead(k, s.rings[k].head, s.rings[k].pops))) else None
    case CheckFull =>
      if !s.submitter.SHasHead? || s.submitter.ring >= |s.rings| then None else
      var c := s.rings[s.submitter.ring];
      if WrapSub(c.tail, s.submitter.head) >= c.capacity
      then Some(s.(submitter := SWaiting(s.submitter.ring, s.submitter.seen)))
      else Some(s.(submitter := SPublishing(s.submitter.ring)))
    case Publish =>
      if !s.submitter.SPublishing? || s.submitter.ring >= |s.rings| then None else
      var k := s.submitter.ring;
      var c := s.rings[k];
      Some(s.(rings := s.rings[k := c.(tail := WrapAdd(c.tail, 1), pushes := c.pushes + 1)], submitter := SIdle))
    case Wake =>
      // poll() reports the counter readable; the first read takes it to zero
      if s.submitter.SWaiting? && s.credit > 0 then Some(s.(credit := 0, submitter := SDraining)) else None
    case DrainCredit =>
      // DrainEventFd reads until the counter is empty, then the push is retried
      if !s.submitter.SDraining? then None
      else if s.credit > 0 then Some(s.(credit := 0))
      else Some(s.(submitter := SIdle))
    case GiveUp =>
      // the session was replaced or the workers stop
      if s.submitter.SWaiting? then Some(s.(submitter := SIdle)) else None
    // The dispatcher.
    case StartDrain(k) =>
      if s.dispatcher.DIdle? && k < |s.rings| then Some(s.(dispatcher := DLooping(k, false))) else None
    case LoadTail =>
      if !s.dispatcher.DLooping? || s.dispatcher.ring >= |s.rings| then None else
      var c := s.rings[s.dispatcher.ring];
      Some(s.(dispatcher := DHasTail(s.dispatcher.ring, s.dispatcher.notFull, c.tail, c.pushes)))
    case PopOrLeave =>
      if !s.dispatcher.DHasTail? || s.dispatcher.ring >= |s.rings| then None else
      var k := s.dispatcher.ring;
      var c := s.rings[k];
      if s.dispatcher.tail == c.head
      then Some(s.(dispatcher := DLeaving(s.dispatcher.notFull)))
      else Some(s.(rings := s.rings[k := c.(head := WrapAdd(c.head, 1), pops := c.pops + 1)],
                   dispatcher := DPopped(k, s.dispatcher.notFull)))
    case CheckCount =>
      if !s.dispatcher.DPopped? || s.dispatcher.ring >= |s.rings| then None else
      var c := s.rings[s.dispatcher.ring];
      var becameNotFull := c.capacity != 0 && WrapAdd(RingCount(c), 1) == c.capacity;
      Some(s.(dispatcher := DLooping(s.dispatcher.ring, s.dispatcher.notFull || becameNotFull)))
    case Leave =>
      // the executor has no capacity, or the session is broken
      if s.dispatcher.DLooping? then Some(s.(dispatcher := DLeaving(s.dispatcher.notFull))) else None
    case Signal =>
      if !s.dispatcher.DLeaving? then None
      else Some(s.(credit := s.credit + (if s.dispatcher.notFull then 1 else 0), dispatcher := DIdle))
  }

  ghost predicate CursorOk(c: Cursor) {
    && ValidCapacity(c.capacity)
    && c.head == Word(c.pops) && c.tail == Word(c.pushes)
    && c.pops <= c.pushes <= c.pops + c.capacity
  }

  /** What each program point knows about its ring. */
  ghost predicate PointsOk(s: State) {
    && (match s.submitter
        case SIdle => true
        case SDraining => true
        case SHasHead(k, h, seen) =>
          k < |s.rings| && h == Word(seen) && seen <= s.rings[k].pops && s.rings[k].pushes <= seen + s.rings[k].capacity
        case SPublishing(k) => k < |s.rings| && s.rings[k].pushes < s.rings[k].pops + s.rings[k].capacity
        case SWaiting(k, seen) =>
          k < |s.rings| && seen <= s.rings[k].pops && s.rings[k].pushes == seen + s.rings[k].capacity)
    && (match s.dispatcher
        case DIdle => true
        case DLeaving(_) => true
        case DLooping(k, _) => k < |s.rings|
        case DHasTail(k, _, t, seen) => k < |s.rings| && t == Word(seen) && s.rings[k].pops <= seen <= s.rings[k].pushes
        case DPopped(k, _) => k < |s.rings|)
  }

  /** The submitter looked at ring `ring` when its head was `seen`, and found or will find it full. */
  predicate SawFull(s: State, ring: nat, seen: nat) {
    && ring < |s.rings|
    && (s.submitter == SWaiting(ring, seen)
        || (s.submitter.SHasHead? && s.submitter.ring == ring && s.submitter.seen == seen
            && s.rings[ring].pushes == seen + s.rings[ring].capacity))
  }

  predicate HoldsFlag(d: Dispatcher) {
    match d
    case DIdle => false
    case DLooping(_, f) => f
    case DHasTail(_, f, _, _) => f
    case DPopped(_, f) => f
    case DLeaving(f) => f
  }

  /** No signal is lost: once the head of a ring seen full has moved, the counter is positive,
      or the dispatcher carries the flag, or it is about to test the count of that very pop. */
  ghost predicate NoLostCredit(s: State) {
    forall k: nat, seen: nat {:trigger SawFull(s, k, seen)} | SawFull(s, k, seen) && s.rings[k].pops > seen ::
      || s.credit > 0
      || HoldsFlag(s.dispatcher)
      || (s.dispatcher.DPopped? && s.dispatcher.ring == k && s.rings[k].pops == seen + 1)
  }

  ghost predicate Inv(s: State) {
    && (forall i | 0 <= i < |s.rings| :: CursorOk(s.rings[i]))
    && PointsOk(s)
    && NoLostCredit(s)
  }

  lemma PublishKeeps(s: State)
    requires Inv(s) && Step(s, Publish).Some?
    ensures Inv(Step(s, Publish).value)
  {
    WordSuccessor(s.rings[s.submitter.ring].pushes);
  }

  lemma CheckFullKeeps(s: State)
    requires Inv(s) && Step(s, CheckFull).Some?
    ensures Inv(Step(s, CheckFull).value)
  {
    var k, seen := s.submitter.ring, s.submitter.seen;
    var n := Step(s, CheckFull).value;
    WordDistance(seen, s.rings[k].pushes);
    if n.submitter.SWaiting? {
      assert SawFull(s, k, seen);
    }
  }

  lemma PopKeeps(s: State)
    requires Inv(s) && Step(s, PopOrLeave).Some?
    ensures Inv(Step(s, PopOrLeave).value)
  {
    var k := s.dispatcher.ring;
    var n := Step(s, PopOrLeave).value;
    WordDistinct(s.rings[k].pops, s.dispatcher.seen);
    WordSuccessor(s.rings[k].pops);
    forall j: nat, seen: nat {:trigger SawFull(n, j, seen)} | SawFull(n, j, seen) && n.rings[j].pops > seen
      ensures n.credit > 0 || HoldsFlag(n.dispatcher)
              || (n.dispatcher.DPopped? && n.dispatcher.ring == j && n.rings[j].pops == seen + 1)
    {
      assert SawFull(s, j, seen);
    }
  }

  lemma CheckCountKeeps(s: State)
    requires Inv(s) && Step(s, CheckCount).Some?
    ensures Inv(Step(s, CheckCount).value)
  {
    var k := s.dispatcher.ring;
    var c := s.rings[k];
    var n := Step(s, CheckCount).value;
    WordDistance(c.pops, c.pushes);
    forall j: nat, seen: nat {:trigger SawFull(n, j, seen)} | SawFull(n, j, seen) && n.rings[j].pops > seen
      ensures n.credit > 0 || HoldsFlag(n.dispatcher)
    {
      assert SawFull(s, j, seen);
    }
  }

  /** Steps that move no cursor and whose effect on the wait is plain. */
  lemma QuietKeeps(s: State, l: Label)
    requires Inv(s) && Step(s, l).Some?
    requires !l.Publish? && !l.CheckFull? && !l.PopOrLeave? && !l.CheckCount?
    ensures Inv(Step(s, l).value)
  {
    var n := Step(s, l).value;
    forall j: nat, seen: nat {:trigger SawFull(n, j, seen)} | SawFull(n, j, seen) && n.rings[j].pops > seen
      ensures n.credit > 0 || HoldsFlag(n.dispatcher)
              || (n.dispatcher.DPopped? && n.dispatcher.ring == j && n.rings[j].pops == seen + 1)
    {
      assert !l.StartPush? ==> SawFull(s, j, seen);
    }
  }

  lemma StepKeeps(s: State, l: Label)
    requires Inv(s) && Step(s, l).Some?
    ensures Inv(Step(s, l).value)
  {
    match l
    case Publish => PublishKeeps(s);
    case CheckFull => CheckFullKeeps(s);
    case PopOrLeave => PopKeeps(s);
    case CheckCount => CheckCountKeeps(s);
    case _ => QuietKeeps(s, l);
  }

  lemma RunKeeps(init: State, run: seq<Label>)
    requires Fresh(init) && Exec(Step, init, run).Some?
    ensures Inv(Exec(Step, init, run).value)
  {
    forall s: State, l: Label | Inv(s) && Step(s, l).Some? ensures Inv(Step(s, l).value) {
      StepKeeps(s, l);
    }
    Invariant(Step, Inv, init, run);
  }

  /** No lost request credit, in every reachable state. */
  lemma NoLostCreditOverRuns(init: State, run: seq<Label>, s: State)
    requires Fresh(init) && Exec(Step, init, run) == Some(s)
    ensures NoLostCredit(s)
  {
    RunKeeps(init, run);
  }

  /** No stranded submitter: if it sleeps, nothing is left to wake it and the dispatcher is
      between drains, then its ring is still as full as when it looked. */
  lemma NeverStranded(init: State, run: seq<Label>, s: State)
    requires Fresh(init) && Exec(Step, init, run) == Some(s)
    requires s.submitter.SWaiting? && s.credit == 0 && s.dispatcher.DIdle?
    ensures s.submitter.ring < |s.rings|
    ensures var c := s.rings[s.submitter.ring]; c.pops == s.submitter.seen && RingCount(c) == c.capacity
  {
    RunKeeps(init, run);
    var k := s.submitter.ring;
    assert SawFull(s, k, s.submitter.seen);
    WordDistance(s.rings[k].pops, s.rings[k].pushes);
  }

  // --- No credit without cause ----------------------------------------------------------------------

  /** A signal was sent, is about to be sent, or has just woken the submitter. */
  predicate Signalled(s: State) {
    s.credit > 0 || HoldsFlag(s.dispatcher) || s.submitter.SDraining?
  }

  /** The dispatcher finds that its pop made a full ring not full: the ring has exactly one entry
      less than it can hold. */
  predicate BecameNotFull(s: State, l: Label) {
    && l.CheckCount? && s.dispatcher.DPopped? && s.dispatcher.ring < |s.rings|
    && var c := s.rings[s.dispatcher.ring]; c.pushes + 1 == c.pops + c.capacity
  }

  lemma SignalledStep(s: State, l: Label)
    requires Inv(s) && Step(s, l).Some? && Signalled(Step(s, l).value)
    ensures Signalled(s) || BecameNotFull(s, l)
  {
    if l.CheckCount? {
      var c := s.rings[s.dispatcher.ring];
      WordDistance(c.pops, c.pushes);
    }
  }

  lemma {:induction false} SignalledRun(s: State, run: seq<Label>)
    requires Inv(s) && Exec(Step, s, run).Some? && Signalled(Exec(Step, s, run).value)
    ensures Signalled(s) || exists k | 0 <= k < |run| ::
      Exec(Step, s, run[..k]).Some? && BecameNotFull(Exec(Step, s, run[..k]).value, run[k])
    decreases |run|
  {
    if run != [] {
      var n := Step(s, run[0]).value;
      StepKeeps(s, run[0]);
      SignalledRun(n, run[1..]);
      if Signalled(n) {
        SignalledStep(s, run[0]);
        if !Signalled(s) {
          assert Exec(Step, s, run[..0]) == Some(s) && BecameNotFull(s, run[0]);
        }
      } else {
        var k :| 0 <= k < |run[1..]| && Exec(Step, n, run[1..][..k]).Some?
          && BecameNotFull(Exec(Step, n, run[1..][..k]).value, run[1..][k]);
        assert run[..k + 1][1..] == run[1..][..k];
        assert Exec(Step, s, run[..k + 1]) == Exec(Step, n, run[1..][..k]);
      }
    }
  }

  /** In every run from a state without a signal, be it the start or one where all credit is used up,
      there is credit, or a submitter woken by it, only after a pop made a full ring not full. */
  lemma CreditHasACause(init: State, before: seq<Label>, s: State, run: seq<Label>, t: State)
    requires Fresh(init) && Exec(Step, init, before) == Some(s) && !Signalled(s)
    requires Exec(Step, s, run) == Some(t) && Signalled(t)
    ensures exists k | 0 <= k < |run| ::
      Exec(Step, s, run[..k]).Some? && BecameNotFull(Exec(Step, s, run[..k]).value, run[k])
  {
    RunKeeps(init, before);
    SignalledRun(s, run);
  }

  /** A submitter that was woken tries again only after it has used up all credit, so that a later
      wake-up has a later cause. */
  lemma WakeUsesUpCredit(s: State, l: Label)
    requires s.submitter.SDraining? && Step(s, l).Some? && !Step(s, l).value.submitter.SDraining?
    ensures s.credit == 0 && Step(s, l).value.submitter.SIdle?
  {
  }
}
