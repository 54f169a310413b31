/** The server's completion queue and response writer, memrpc/src/server/rpc_server.cpp:249-406.

    Any number of threads enqueue completions; one writer publishes them; `StopResponseWriter`
    clears the running flag *outside* the completion mutex, joins the writer and fails what is
    left.  The mutex is held by an enqueuer between its test and its push (`admitting`).  An
    item is named by the order of its acceptance.  `published` and `completions` are history:
    the entries that entered the response ring and the calls of `CompleteItem`, in order.
 */
module CompletionQueue {
  import opened Runs
  import opened ClientTypes

  datatype Writer =
    | WIdle
    | WPushing(item: nat)
    | WPushed(item: nat, status: Status)
    | WCompleted(item: nat)
    | WExited

  datatype Stop = Running | Flagged | Joined | Failing(left: seq<nat>) | Returned

  datatype Completion = Completion(item: nat, status: Status)

  datatype Queue = Queue(
    capacity: nat,
    queued: seq<nat>,
    pendingCount: nat,
    admitting: bool,
    accepted: nat,
    writer: Writer,
    stop: Stop,
    published: seq<nat>,
    completions: seq<Completion>)

  datatype Label =
    | TestEnqueue | PushItem
    | PopItem | PushFull | PushOk | PushOkThenBroken | PushRefused(status: Status)
    | CompleteItem | FinishItem | ExitWriter
    | ClearFlag | JoinWriter | TakeLeft | FailLeft | ReturnStop

  function Empty(capacity: nat): (q: Queue) {
    Queue(capacity, [], 0, false, 0, WIdle, Running, [], [])
  }

  predicate RunningFlag(q: Queue) {
    q.stop.Running?
  }

  function Step(q: Queue, l: Label): (next: Option<Queue>) {
    match l
    // EnqueueCompletion
    case TestEnqueue =>
      if q.admitting then None
      else if RunningFlag(q) && q.pendingCount < q.capacity then Some(q.(admitting := true))
      else Some(q)
    case PushItem =>
      if !q.admitting then None
      else Some(q.(admitting := false, queued := q.queued + [q.accepted], accepted := q.accepted + 1,
                   pendingCount := q.pendingCount + 1))
    // WaitAndPopCompletionItem and ResponseWriterLoop
    case PopItem =>
      if q.writer.WIdle? && !q.admitting && q.queued != []
      then Some(q.(writer := WPushing(q.queued[0]), queued := q.queued[1..])) else None
    case ExitWriter =>
      if q.writer.WIdle? && !q.admitting && !RunningFlag(q) && q.queued == []
      then Some(q.(writer := WExited)) else None
    case PushFull =>
      // the ring is full: wait for credit and try again
      if q.writer.WPushing? then Some(q) else None
    case PushOk =>
      if q.writer.WPushing?
      then Some(q.(writer := WPushed(q.writer.item, Ok), published := q.published + [q.writer.item])) else None
    case PushOkThenBroken =>
      // published, but the session was found broken right after
      if q.writer.WPushing?
      then Some(q.(writer := WPushed(q.writer.item, PeerDisconnected),
                   published := q.published + [q.writer.item])) else None
    case PushRefused(status) =>
      if q.writer.WPushing? && !status.Ok? then Some(q.(writer := WPushed(q.writer.item, status))) else None
    case CompleteItem =>
      if q.writer.WPushed?
      then Some(q.(writer := WCompleted(q.writer.item),
                   completions := q.completions + [Completion(q.writer.item, q.writer.status)]))
      else None
    case FinishItem =>
      if q.writer.WCompleted? && !q.admitting
      then Some(q.(writer := WIdle, pendingCount := if q.pendingCount > 0 then q.pendingCount - 1 else 0)) else None
    // StopResponseWriter
    case ClearFlag => if q.stop.Running? then Some(q.(stop := Flagged)) else None
    case JoinWriter => if q.stop.Flagged? && q.writer.WExited? then Some(q.(stop := Joined)) else None
    case TakeLeft =>
      if q.stop.Joined? && !q.admitting
      then Some(q.(stop := Failing(q.queued), queued := [], pendingCount := 0)) else None
    case FailLeft =>
      if q.stop.Failing? && q.stop.left != []
      then Some(q.(stop := Failing(q.stop.left[1..]),
                   completions := q.completions + [Completion(q.stop.left[0], PeerDisconnected)]))
      else None
    case ReturnStop => if q.stop == Failing([]) then Some(q.(stop := Returned)) else None
  }

  /** Items `low`, `low + 1`, ..., `high - 1`, in order. */
  predicate Run(s: seq<nat>, low: nat, high: nat) {
    |s| == high - low && forall i | 0 <= i < |s| :: s[i] == low + i
  }

  predicate InHand(w: Writer) {
    w.WPushing? || w.WPushed? || w.WCompleted?
  }

  predicate Swept(q: Queue) {
    q.stop.Failing? || q.stop.Returned?
  }

  /** The items not yet completed are, in order: the one in the writer's hand, then the queue or
      what the shutdown took from it. */
  ghost predicate InOrder(q: Queue) {
    var done := |q.completions|;
    && (forall i | 0 <= i < done :: q.completions[i].item == i)
    && (match q.writer
        case WIdle => !Swept(q) ==> Run(q.queued, done, q.accepted)
        case WExited => !Swept(q) ==> Run(q.queued, done, q.accepted)
        case WPushing(i) => i == done && Run(q.queued, done + 1, q.accepted)
        case WPushed(i, _) => i == done && Run(q.queued, done + 1, q.accepted)
        case WCompleted(i) => Run(q.queued, done, q.accepted))
    && (q.stop.Failing? ==> Run(q.stop.left, done, q.accepted))
    && (q.stop.Returned? ==> done == q.accepted)
  }

  /** Entries enter the ring in order and once, and an item completed with `Ok` is among them. */
  ghost predicate PublishedOk(q: Queue) {
    var done := |q.completions|;
    && (forall i, j | 0 <= i < j < |q.published| :: q.published[i] < q.published[j])
    && (forall i | 0 <= i < |q.published| :: q.published[i] < done || (q.published[i] == done && q.writer.WPushed?))
    && (forall i | 0 <= i < done && q.completions[i].status.Ok? :: q.completions[i].item in q.published)
    && (q.writer.WPushed? && q.writer.status.Ok? ==> q.writer.item in q.published)
  }

  ghost predicate Counted(q: Queue) {
    && q.pendingCount == |q.queued| + (if InHand(q.writer) then 1 else 0)
    && q.pendingCount <= q.capacity
    && (q.admitting ==> q.pendingCount < q.capacity)
  }

  ghost predicate Stopping(q: Queue) {
    && (q.writer.WExited? ==> !RunningFlag(q))
    && (q.stop.Joined? || Swept(q) ==> q.writer.WExited?)
    && (Swept(q) ==> q.queued == [] && !q.admitting)
  }

  ghost predicate Inv(q: Queue) {
    Counted(q) && InOrder(q) && PublishedOk(q) && Stopping(q)
  }

  lemma OrderKeeps(q: Queue, l: Label)
    requires Inv(q) && Step(q, l).Some?
    ensures InOrder(Step(q, l).value)
  {
  }

  lemma PublishedKeeps(q: Queue, l: Label)
    requires Inv(q) && Step(q, l).Some?
    ensures PublishedOk(Step(q, l).value)
  {
    var n := Step(q, l).value;
    assert forall x | x in q.published :: x in n.published;
    if l.PushOk? {
      assert n.published[|n.published| - 1] == q.writer.item;
    }
  }

  lemma StepKeeps(q: Queue, l: Label)
    requires Inv(q) && Step(q, l).Some?
    ensures Inv(Step(q, l).value)
  {
    OrderKeeps(q, l);
    PublishedKeeps(q, l);
  }

  lemma RunKeeps(capacity: nat, run: seq<Label>)
    requires Exec(Step, Empty(capacity), run).Some?
    ensures Inv(Exec(Step, Empty(capacity), run).value)
  {
    forall q: Queue, l: Label | Inv(q) && Step(q, l).Some? ensures Inv(Step(q, l).value) {
      StepKeeps(q, l);
    }
    Invariant(Step, Inv, Empty(capacity), run);
  }

  /** In every reachable state: the count equals queued items plus the one in the writer's hand
      and never exceeds the capacity. */
  lemma CountIsExact(capacity: nat, run: seq<Label>, q: Queue)
    requires Exec(Step, Empty(capacity), run) == Some(q)
    ensures q.pendingCount == |q.queued| + (if InHand(q.writer) then 1 else 0)
    ensures q.pendingCount <= q.capacity
  {
    RunKeeps(capacity, run);
  }

  /** Accepted items are completed once each and in the order of their acceptance; their entries
      enter the ring at most once each and in that order too; and an item is completed with `Ok`
      only if its entry entered the ring. */
  lemma CompletedOnceInOrder(capacity: nat, run: seq<Label>, q: Queue)
    requires Exec(Step, Empty(capacity), run) == Some(q)
    ensures |q.completions| <= q.accepted
    ensures forall i | 0 <= i < |q.completions| :: q.completions[i].item == i
    ensures forall i, j | 0 <= i < j < |q.published| :: q.published[i] < q.published[j]
    ensures forall i | 0 <= i < |q.completions| && q.completions[i].status.Ok? :: i in q.published
  {
    RunKeeps(capacity, run);
  }

  /** Once `StopResponseWriter` has returned, every accepted item has been completed, and it
      stays so: nothing is accepted any more. */
  lemma StopCompletesAll(capacity: nat, before: seq<Label>, q: Queue, after: seq<Label>, r: Queue)
    requires Exec(Step, Empty(capacity), before) == Some(q) && q.stop.Returned?
    requires Exec(Step, q, after) == Some(r)
    ensures r.accepted == q.accepted == |r.completions|
    ensures forall i | 0 <= i < r.accepted :: r.completions[i].item == i
  {
    RunKeeps(capacity, before);
    StoppedStays(q, after);
  }

  lemma StoppedStep(q: Queue, l: Label)
    requires Inv(q) && q.stop.Returned? && Step(q, l).Some?
    ensures Step(q, l).value.stop.Returned? && Step(q, l).value.accepted == q.accepted
  {
  }

  lemma {:induction false} StoppedStays(q: Queue, run: seq<Label>)
    requires Inv(q) && q.stop.Returned? && Exec(Step, q, run).Some?
    ensures var r := Exec(Step, q, run).value; Inv(r) && r.stop.Returned? && r.accepted == q.accepted
    decreases |run|
  {
    if run != [] {
      StepKeeps(q, run[0]);
      StoppedStep(q, run[0]);
      StoppedStays(Step(q, run[0]).value, run[1..]);
    }
  }

  /** The status that the outcome of a push stands for: a plain publication is `Ok`, one that found
      the session broken afterwards is not, and a refusal keeps its own. */
  function PushStatus(l: Label): (r: Option<Status>) {
    match l
    case PushOk => Some(Ok)
    case PushOkThenBroken => Some(PeerDisconnected)
    case PushRefused(status) => Some(status)
    case _ => None
  }

  /** Item `i` is about to be completed with `status`, or has been. */
  predicate Settled(q: Queue, i: nat, status: Status) {
    || (q.writer == WPushed(i, status) && |q.completions| == i)
    || (i < |q.completions| && q.completions[i] == Completion(i, status))
  }

  lemma {:induction false} SettledStays(q: Queue, run: seq<Label>, i: nat, status: Status)
    requires Inv(q) && Settled(q, i, status) && Exec(Step, q, run).Some?
    ensures Settled(Exec(Step, q, run).value, i, status)
    decreases |run|
  {
    if run != [] {
      StepKeeps(q, run[0]);
      SettledStays(Step(q, run[0]).value, run[1..], i, status);
    }
  }

  /** In every run, the item that the writer pushes is completed with the status of that push and
      no other, whatever happens in between; a plain publication is completed with `Ok`. */
  lemma CompletedAsPushed(capacity: nat, before: seq<Label>, q: Queue, l: Label, run: seq<Label>, r: Queue)
    requires Exec(Step, Empty(capacity), before) == Some(q) && q.writer.WPushing?
    requires PushStatus(l).Some? && Step(q, l).Some? && Exec(Step, Step(q, l).value, run) == Some(r)
    requires q.writer.item < |r.completions|
    ensures r.completions[q.writer.item] == Completion(q.writer.item, PushStatus(l).value)
    ensures l.PushOk? || l.PushOkThenBroken? <==> Step(q, l).value.published == q.published + [q.writer.item]
  {
    RunKeeps(capacity, before);
    StepKeeps(q, l);
    SettledStays(Step(q, l).value, run, q.writer.item, PushStatus(l).value);
    RunFromKeeps(Step(q, l).value, run);
  }

  lemma RunFromKeeps(q: Queue, run: seq<Label>)
    requires Inv(q) && Exec(Step, q, run).Some?
    ensures Inv(Exec(Step, q, run).value)
  {
    forall x: Queue, l: Label | Inv(x) && Step(x, l).Some? ensures Inv(Step(x, l).value) {
      StepKeeps(x, l);
    }
    Invariant(Step, Inv, q, run);
  }

  /** The writer leaves an empty queue behind, and nothing is accepted after it. */
  ghost predicate LeavesNothing(q: Queue) {
    && Inv(q)
    && (q.writer.WExited? ==> q.queued == [] && !q.admitting)
    && (q.stop.Failing? ==> q.stop.left == [])
  }

  lemma LeavesNothingStep(q: Queue, l: Label)
    requires LeavesNothing(q) && Step(q, l).Some?
    ensures LeavesNothing(Step(q, l).value)
  {
    StepKeeps(q, l);
  }

  /** In every run the writer leaves only after it has pushed every accepted item, and the stop finds
      nothing left to fail: each item is completed by its own push. */
  lemma WriterDrainsAll(capacity: nat, run: seq<Label>, q: Queue)
    requires Exec(Step, Empty(capacity), run) == Some(q)
    ensures q.writer.WExited? ==> q.queued == [] && |q.completions| == q.accepted
    ensures q.stop.Failing? ==> q.stop.left == []
  {
    forall x: Queue, l: Label | LeavesNothing(x) && Step(x, l).Some? ensures LeavesNothing(Step(x, l).value) {
      LeavesNothingStep(x, l);
    }
    Invariant(Step, LeavesNothing, Empty(capacity), run);
  }
}
