/** The response-credit protocol, the mirror of `CreditProtocol` with one difference: the
    client samples "ring full" *before* it pops (memrpc/src/client/rpc_client.cpp:1280-1298),
    where the dispatcher counts after its pop.

    That makes wake-ups losable: a response published between the sample and the pop can fill
    the ring unseen.  This module shows the loss for every capacity, shows that a publication
    that fills the ring there is the only cause, and shows which pops lose the wake-up.  The
    writer (memrpc/src/server/rpc_server.cpp:219-278) survives a lost wake-up because its wait
    has a deadline.
 */
module ResponseCredit {
  import opened Runs
  import opened Words
  import opened CreditProtocol

  datatype Writer =
    | WIdle
    | WHasHead(head: U32, seen: nat)
    | WPublishing
    | WWaiting(seen: nat)

  datatype Client =
    | CIdle
    | CSampled(full: bool)
    | CHasTail(full: bool, tail: U32, seen: nat)
    | CSignalling(full: bool)

  datatype Link = Link(ring: Cursor, credit: nat, writer: Writer, client: Client)

  datatype Action =
    | BeginPush | TestFull | PublishResponse | TakeCredit | TimeOut
    | Sample | LoadResponseTail | PopResponse | SignalCredit

  function EmptyLink(capacity: nat): (s: Link) {
    Link(Cursor(capacity, 0, 0, 0, 0), 0, WIdle, CIdle)
  }

  function Act(s: Link, a: Action): (next: Option<Link>) {
    match a
    case BeginPush =>
      if s.writer.WIdle? then Some(s.(writer := WHasHead(s.ring.head, s.ring.pops))) else None
    case TestFull =>
      if !s.writer.WHasHead? then None
      else if WrapSub(s.ring.tail, s.writer.head) >= s.ring.capacity then Some(s.(writer := WWaiting(s.writer.seen)))
      else Some(s.(writer := WPublishing))
    case PublishResponse =>
      if !s.writer.WPublishing? then None
      else Some(s.(ring := s.ring.(tail := WrapAdd(s.ring.tail, 1), pushes := s.ring.pushes + 1), writer := WIdle))
    case TakeCredit =>
      if s.writer.WWaiting? && s.credit > 0 then Some(s.(credit := 0, writer := WIdle)) else None
    case TimeOut =>
      if s.writer.WWaiting? then Some(s.(writer := WIdle)) else None
    case Sample =>
      if s.client.CIdle?
      then Some(s.(client := CSampled(s.ring.capacity != 0 && RingCount(s.ring) == s.ring.capacity))) else None
    case LoadResponseTail =>
      if s.client.CSampled? then Some(s.(client := CHasTail(s.client.full, s.ring.tail, s.ring.pushes))) else None
    case PopResponse =>
      if !s.client.CHasTail? then None
      else if s.client.tail == s.ring.head then Some(s.(client := CIdle))
      else Some(s.(ring := s.ring.(head := WrapAdd(s.ring.head, 1), pops := s.ring.pops + 1),
                   client := CSignalling(s.client.full)))
    case SignalCredit =>
      if !s.client.CSignalling? then None
      else Some(s.(credit := s.credit + (if s.client.full then 1 else 0), client := CIdle))
  }

  /** The writer sleeps although the ring has room, and nothing is under way to wake it. */
  predicate Stranded(s: Link) {
    s.writer.WWaiting? && s.credit == 0 && s.client.CIdle? && RingCount(s.ring) < s.ring.capacity
  }

  // --- The loss, for every capacity --------------------------------------------------------

  /** A push without interference on a ring that is not full. */
  lemma PushOne(from: Link, s: Link) returns (t: Link)
    requires Reaches(Act, from, s) && CursorOk(s.ring) && s.writer.WIdle?
    requires s.ring.pushes < s.ring.pops + s.ring.capacity
    ensures Reaches(Act, from, t) && CursorOk(t.ring)
    ensures t == s.(ring := s.ring.(tail := Word(s.ring.pushes + 1), pushes := s.ring.pushes + 1))
  {
    WordDistance(s.ring.pops, s.ring.pushes);
    WordSuccessor(s.ring.pushes);
    var a := Act(s, BeginPush).value;
    ReachesThen(Act, from, s, BeginPush, a);
    var b := Act(a, TestFull).value;
    ReachesThen(Act, from, a, TestFull, b);
    t := Act(b, PublishResponse).value;
    ReachesThen(Act, from, b, PublishResponse, t);
  }

  lemma {:induction false} FillTo(capacity: nat, n: nat) returns (t: Link)
    requires ValidCapacity(capacity) && n <= capacity
    ensures Reaches(Act, EmptyLink(capacity), t) && CursorOk(t.ring)
    ensures t == Link(Cursor(capacity, 0, Word(n), 0, n), 0, WIdle, CIdle)
  {
    var from := EmptyLink(capacity);
    if n == 0 {
      ReachesSelf(Act, from);
      t := from;
    } else {
      var s := FillTo(capacity, n - 1);
      t := PushOne(from, s);
    }
  }

  /** For every capacity there is a run that strands the response writer. */
  lemma CreditCanBeLost(capacity: nat) returns (t: Link)
    requires ValidCapacity(capacity)
    ensures Reaches(Act, EmptyLink(capacity), t) && Stranded(t)
  {
    var from := EmptyLink(capacity);
    var s := FillTo(capacity, capacity - 1);
    WordDistance(0, capacity - 1);
    var sampled := Act(s, Sample).value;
    ReachesThen(Act, from, s, Sample, sampled);
    var full := PushOne(from, sampled);
    WordDistance(0, capacity);
    WordDistance(1, capacity);
    var a := Act(full, BeginPush).value;
    ReachesThen(Act, from, full, BeginPush, a);
    var b := Act(a, TestFull).value;
    ReachesThen(Act, from, a, TestFull, b);
    var c := Act(b, LoadResponseTail).value;
    ReachesThen(Act, from, b, LoadResponseTail, c);
    WordDistinct(0, capacity);
    WordSuccessor(0);
    var d := Act(c, PopResponse).value;
    ReachesThen(Act, from, c, PopResponse, d);
    t := Act(d, SignalCredit).value;
    ReachesThen(Act, from, d, SignalCredit, t);
  }

  // --- Its only cause ------------------------------------------------------------------------

  ghost predicate WriterOk(s: Link) {
    match s.writer
    case WIdle => true
    case WHasHead(h, seen) => h == Word(seen) && seen <= s.ring.pops && s.ring.pushes <= seen + s.ring.capacity
    case WPublishing => s.ring.pushes < s.ring.pops + s.ring.capacity
    case WWaiting(seen) => seen <= s.ring.pops && s.ring.pushes == seen + s.ring.capacity
  }

  /** What every run of the protocol keeps. */
  ghost predicate LinkInv(s: Link) {
    && CursorOk(s.ring) && WriterOk(s)
    && (s.client.CHasTail? ==> s.client.tail == Word(s.client.seen) && s.ring.pops <= s.client.seen <= s.ring.pushes)
  }

  lemma ActKeeps(s: Link, a: Action)
    requires LinkInv(s) && Act(s, a).Some?
    ensures LinkInv(Act(s, a).value)
  {
    WordSuccessor(s.ring.pops);
    WordSuccessor(s.ring.pushes);
    if s.client.CHasTail? {
      WordDistinct(s.ring.pops, s.client.seen);
    }
    if s.writer.WHasHead? {
      WordDistance(s.writer.seen, s.ring.pushes);
    }
  }

  lemma RunKeeps(capacity: nat, run: seq<Action>)
    requires ValidCapacity(capacity) && Exec(Act, EmptyLink(capacity), run).Some?
    ensures LinkInv(Exec(Act, EmptyLink(capacity), run).value)
  {
    forall s: Link, a: Action | LinkInv(s) && Act(s, a).Some? ensures LinkInv(Act(s, a).value) {
      ActKeeps(s, a);
    }
    Invariant(Act, LinkInv, EmptyLink(capacity), run);
  }

  /** In every run: when the client pops while the writer sleeps, the writer is left stranded if
      and only if the client's sample missed that the ring was full and no earlier credit is left. */
  lemma LossExact(capacity: nat, run: seq<Action>, s: Link, popped: Link, after: Link)
    requires ValidCapacity(capacity) && Exec(Act, EmptyLink(capacity), run) == Some(s)
    requires s.writer.WWaiting? && s.client.CHasTail? && s.client.seen > s.ring.pops
    requires Act(s, PopResponse) == Some(popped) && Act(popped, SignalCredit) == Some(after)
    ensures Stranded(after) <==> !s.client.full && s.credit == 0
  {
    RunKeeps(capacity, run);
    WordSuccessor(s.ring.pops);
    WordDistance(s.ring.pops + 1, s.ring.pushes);
  }

  /** The publication fills the ring between a sample and its pop. */
  predicate FillsUnseen(s: Link, a: Action) {
    && a.PublishResponse? && (s.client.CSampled? || s.client.CHasTail?)
    && WrapAdd(RingCount(s.ring), 1) == s.ring.capacity
  }

  /** The same protocol without such publications. */
  function CalmAct(s: Link, a: Action): (next: Option<Link>) {
    if FillsUnseen(s, a) then None else Act(s, a)
  }

  ghost predicate CalmInv(s: Link) {
    && LinkInv(s)
    && (s.client.CSampled? || s.client.CHasTail? ==> s.client.full == (s.ring.pushes == s.ring.pops + s.ring.capacity))
    && ((s.writer.WWaiting? || (s.writer.WHasHead? && s.ring.pushes == s.writer.seen + s.ring.capacity))
        && s.ring.pops > s.writer.seen
        ==> s.credit > 0 || s.client == CSignalling(true))
  }

  lemma CalmStepKeeps(s: Link, a: Action)
    requires CalmInv(s) && CalmAct(s, a).Some?
    ensures CalmInv(CalmAct(s, a).value)
  {
    ActKeeps(s, a);
    WordDistance(s.ring.pops, s.ring.pushes);
    WordSuccessor(s.ring.pops);
    WordSuccessor(s.ring.pushes);
    if s.client.CHasTail? {
      WordDistinct(s.ring.pops, s.client.seen);
    }
  }

  /** Without a publication that fills the ring between a sample and its pop, no run strands the
      response writer. */
  lemma OnlyCauseOfLoss(capacity: nat, run: seq<Action>, s: Link)
    requires ValidCapacity(capacity) && Exec(CalmAct, EmptyLink(capacity), run) == Some(s)
    ensures !Stranded(s)
  {
    forall x: Link, a: Action | CalmInv(x) && CalmAct(x, a).Some? ensures CalmInv(CalmAct(x, a).value) {
      CalmStepKeeps(x, a);
    }
    Invariant(CalmAct, CalmInv, EmptyLink(capacity), run);
    WordDistance(s.ring.pops, s.ring.pushes);
  }
}
