/** The lock-free single-producer single-consumer ring: `PushRingEntry` and `PopRingEntry`
    (memrpc/src/core/session.cpp:148-189) as two programs whose loads, stores and word
    copies interleave freely.

    Memory is sequentially consistent: every load sees the latest store.  An entry is copied
    one machine word at a time, so a copy that overlaps a write would be visible as a torn
    entry.  `pushed` and `popped` and the fields named `seen` are history: no step reads them
    to decide anything.
 */
module RingProtocol {
  import opened Runs
  import opened Words

  type Entry = seq<int>

  /** Program points of `PushRingEntry`. */
  datatype Producer =
    | PIdle
    | PHasHead(entry: Entry, head: U32, seen: nat)
    | PHasTail(entry: Entry, head: U32, tail: U32, seen: nat)
    | PCopying(entry: Entry, tail: U32, copied: nat)

  /** Program points of `PopRingEntry`. */
  datatype Consumer =
    | CIdle
    | CHasTail(tail: U32, seen: nat)
    | CHasHead(tail: U32, head: U32, seen: nat)
    | CCopying(head: U32, copy: Entry)

  datatype Ring = Ring(
    capacity: nat,
    width: nat,
    slots: seq<Entry>,
    head: U32,
    tail: U32,
    producer: Producer,
    consumer: Consumer,
    pushed: seq<Entry>,
    popped: seq<Entry>)

  datatype Label =
    | LoadHead(entry: Entry) | LoadOwnTail | CheckFull | CopyIn | PublishTail
    | LoadTail | LoadOwnHead | CheckEmpty | CopyOut | PublishHead

  /** The ring as the host leaves it: cursors zero, slots zeroed. */
  function Empty(capacity: nat, width: nat): (r: Ring) {
    Ring(capacity, width, seq(capacity, _ => seq(width, _ => 0)), 0, 0, PIdle, CIdle, [], [])
  }

  /** Static facts about a ring: shape of the slot array and range of the capacity. */
  predicate WellFormed(r: Ring) {
    && ValidCapacity(r.capacity)
    && r.width > 0
    && |r.slots| == r.capacity
    && (forall i | 0 <= i < |r.slots| :: |r.slots[i]| == r.width)
    && (!r.producer.PIdle? ==> |r.producer.entry| == r.width)
  }

  function Step(r: Ring, l: Label): (next: Option<Ring>) {
    if !WellFormed(r) then None else
    match l
    case LoadHead(e) =>
      if r.producer.PIdle? && |e| == r.width
      then Some(r.(producer := PHasHead(e, r.head, |r.popped|))) else None
    case LoadOwnTail =>
      if r.producer.PHasHead?
      then Some(r.(producer := PHasTail(r.producer.entry, r.producer.head, r.tail, r.producer.seen))) else None
    case CheckFull =>
      if !r.producer.PHasTail? then None
      else if WrapSub(r.producer.tail, r.producer.head) >= r.capacity
      then Some(r.(producer := PIdle))
      else Some(r.(producer := PCopying(r.producer.entry, r.producer.tail, 0)))
    case CopyIn =>
      if r.producer.PCopying? && r.producer.copied < r.width then
        var k := r.producer.tail % r.capacity;
        var n := r.producer.copied;
        Some(r.(slots := r.slots[k := r.slots[k][n := r.producer.entry[n]]],
                producer := r.producer.(copied := n + 1)))
      else None
    case PublishTail =>
      if r.producer.PCopying? && r.producer.copied >= r.width
      then Some(r.(tail := WrapAdd(r.producer.tail, 1), producer := PIdle,
                   pushed := r.pushed + [r.producer.entry])) else None
    case LoadTail =>
      if r.consumer.CIdle? then Some(r.(consumer := CHasTail(r.tail, |r.pushed|))) else None
    case LoadOwnHead =>
      if r.consumer.CHasTail?
      then Some(r.(consumer := CHasHead(r.consumer.tail, r.head, r.consumer.seen))) else None
    case CheckEmpty =>
      if !r.consumer.CHasHead? then None
      else if r.consumer.tail == r.consumer.head then Some(r.(consumer := CIdle))
      else Some(r.(consumer := CCopying(r.consumer.head, [])))
    case CopyOut =>
      if r.consumer.CCopying? && |r.consumer.copy| < r.width then
        var k := r.consumer.head % r.capacity;
        Some(r.(consumer := r.consumer.(copy := r.consumer.copy + [r.slots[k][|r.consumer.copy|]])))
      else None
    case PublishHead =>
      if r.consumer.CCopying? && |r.consumer.copy| >= r.width
      then Some(r.(head := WrapAdd(r.consumer.head, 1), consumer := CIdle,
                   popped := r.popped + [r.consumer.copy])) else None
  }

  /** Tickets handed out so far, counting the one being written. */
  function TicketsUsed(r: Ring): (n: nat) {
    |r.pushed| + (if r.producer.PCopying? then 1 else 0)
  }

  /** The tickets used so far have a collision-free slot map. */
  predicate WithinRange(r: Ring)
    requires r.capacity > 0
  {
    Divides(r.capacity) || TicketsUsed(r) <= WORD
  }

  /** First in, first out: what came out is what went in, in order. */
  ghost predicate Fifo(r: Ring) {
    && |r.popped| <= |r.pushed| <= |r.popped| + r.capacity
    && r.popped == r.pushed[..|r.popped|]
  }

  /** Every entry not yet popped is whole in its slot. */
  ghost predicate SlotsHold(r: Ring)
    requires WellFormed(r)
  {
    forall i: nat {:trigger r.pushed[i]} | |r.popped| <= i < |r.pushed| ::
      r.slots[Slot(i, r.capacity)] == r.pushed[i]
  }

  ghost predicate ProducerOk(r: Ring)
    requires WellFormed(r)
  {
    match r.producer
    case PIdle => true
    case PHasHead(_, h, seen) => h == Word(seen) && seen <= |r.popped| && |r.pushed| <= seen + r.capacity
    case PHasTail(_, h, t, seen) =>
      h == Word(seen) && t == Word(|r.pushed|) && seen <= |r.popped| && |r.pushed| <= seen + r.capacity
    case PCopying(e, t, n) =>
      && t == Word(|r.pushed|) && n <= r.width && |r.pushed| < |r.popped| + r.capacity
      && r.slots[Slot(|r.pushed|, r.capacity)][..n] == e[..n]
  }

  ghost predicate ConsumerOk(r: Ring) {
    match r.consumer
    case CIdle => true
    case CHasTail(t, seen) => t == Word(seen) && |r.popped| <= seen <= |r.pushed|
    case CHasHead(t, h, seen) => t == Word(seen) && h == Word(|r.popped|) && |r.popped| <= seen <= |r.pushed|
    case CCopying(h, copy) =>
      && h == Word(|r.popped|) && |r.popped| < |r.pushed| && |copy| <= r.width
      && |r.pushed[|r.popped|]| == r.width
      && copy == r.pushed[|r.popped|][..|copy|]
  }

  ghost predicate Inv(r: Ring) {
    && WellFormed(r)
    && r.tail == Word(|r.pushed|) && r.head == Word(|r.popped|)
    && Fifo(r) && SlotsHold(r)
    && ProducerOk(r) && ConsumerOk(r)
  }

  /** The invariant, promised only while the slot map is collision free. */
  ghost predicate InvInRange(r: Ring) {
    WellFormed(r) && (WithinRange(r) ==> Inv(r))
  }

  // --- Preservation, one program point at a time -----------------------------------------

  lemma CheckFullKeeps(r: Ring)
    requires Inv(r) && r.producer.PHasTail?
    ensures Inv(Step(r, CheckFull).value)
  {
    WordDistance(r.producer.seen, |r.pushed|);
  }

  lemma CopyInKeeps(r: Ring)
    requires Inv(r) && Step(r, CopyIn).Some? && WithinRange(r)
    ensures Inv(Step(r, CopyIn).value)
  {
    var n := Step(r, CopyIn).value;
    var k := Slot(|r.pushed|, r.capacity);
    var c := r.producer.copied;
    assert n.slots[k][..c + 1] == n.slots[k][..c] + [r.producer.entry[c]];
    assert n.slots[k][..c] == r.slots[k][..c];
    forall i: nat {:trigger r.pushed[i]} | |r.popped| <= i < |r.pushed|
      ensures n.slots[Slot(i, r.capacity)] == r.pushed[i]
    {
      SlotDistinct(i, |r.pushed|, r.capacity);
    }
  }

  lemma PublishTailKeeps(r: Ring)
    requires Inv(r) && Step(r, PublishTail).Some?
    ensures Inv(Step(r, PublishTail).value)
  {
    var n := Step(r, PublishTail).value;
    WordSuccessor(|r.pushed|);
    var k := Slot(|r.pushed|, r.capacity);
    assert r.slots[k][..r.width] == r.slots[k] && r.producer.entry[..r.width] == r.producer.entry;
    assert n.popped == n.pushed[..|n.popped|];
  }

  lemma CheckEmptyKeeps(r: Ring)
    requires Inv(r) && Step(r, CheckEmpty).Some?
    ensures Inv(Step(r, CheckEmpty).value)
  {
    WordDistinct(|r.popped|, r.consumer.seen);
    if r.consumer.tail != r.consumer.head {
      assert r.pushed[|r.popped|] == r.slots[Slot(|r.popped|, r.capacity)];
    }
  }

  lemma CopyOutKeeps(r: Ring)
    requires Inv(r) && Step(r, CopyOut).Some?
    ensures Inv(Step(r, CopyOut).value)
  {
    var c := r.consumer.copy;
    assert r.slots[Slot(|r.popped|, r.capacity)] == r.pushed[|r.popped|];
    assert r.pushed[|r.popped|][..|c| + 1] == c + [r.pushed[|r.popped|][|c|]];
  }

  lemma PublishHeadKeeps(r: Ring)
    requires Inv(r) && Step(r, PublishHead).Some?
    ensures Inv(Step(r, PublishHead).value)
  {
    var n := Step(r, PublishHead).value;
    WordSuccessor(|r.popped|);
    assert r.consumer.copy == r.pushed[|r.popped|];
    assert n.popped == n.pushed[..|n.popped|];
  }

  lemma StepKeeps(r: Ring, l: Label)
    requires InvInRange(r) && Step(r, l).Some?
    ensures InvInRange(Step(r, l).value)
  {
    var n := Step(r, l).value;
    assert WithinRange(n) ==> WithinRange(r);
    if WithinRange(n) {
      match l
      case CheckFull => CheckFullKeeps(r);
      case CopyIn => CopyInKeeps(r);
      case PublishTail => PublishTailKeeps(r);
      case CheckEmpty => CheckEmptyKeeps(r);
      case CopyOut => CopyOutKeeps(r);
      case PublishHead => PublishHeadKeeps(r);
      case LoadHead(_) =>
      case LoadOwnTail =>
      case LoadTail =>
      case LoadOwnHead =>
    }
  }

  lemma RunKeeps(capacity: nat, width: nat, run: seq<Label>)
    requires ValidCapacity(capacity) && width > 0
    requires Exec(Step, Empty(capacity, width), run).Some?
    ensures InvInRange(Exec(Step, Empty(capacity, width), run).value)
  {
    forall r: Ring, l: Label | InvInRange(r) && Step(r, l).Some?
      ensures InvInRange(Step(r, l).value)
    {
      StepKeeps(r, l);
    }
    Invariant(Step, InvInRange, Empty(capacity, width), run);
  }

  // --- Main results ---------------------------------------------------------------------

  /** For every interleaving of the producer and the consumer the ring is first in, first out
      and never holds more than `capacity` entries: for ever when the capacity divides 2^32,
      and for the first 2^32 pushes of any capacity that attach accepts. */
  lemma FifoOverRuns(capacity: nat, width: nat, run: seq<Label>, r: Ring)
    requires ValidCapacity(capacity) && width > 0
    requires Exec(Step, Empty(capacity, width), run) == Some(r)
    requires Divides(capacity) || TicketsUsed(r) <= WORD
    ensures Fifo(r)
  {
    RunKeeps(capacity, width, run);
    CapacityFixed(capacity, width, run);
  }

  lemma CapacityFixed(capacity: nat, width: nat, run: seq<Label>)
    requires Exec(Step, Empty(capacity, width), run).Some?
    ensures Exec(Step, Empty(capacity, width), run).value.capacity == capacity
    ensures Exec(Step, Empty(capacity, width), run).value.width == width
  {
    Invariant(Step, (x: Ring) => x.capacity == capacity && x.width == width, Empty(capacity, width), run);
  }

  /** The entries in the ring, oldest first. */
  function Contents(r: Ring): (q: seq<Entry>)
    requires |r.popped| <= |r.pushed|
  {
    r.pushed[|r.popped|..]
  }

  /** In every run each step is a step of a bounded queue: publishing the tail appends to a
      queue that was not full, publishing the head removes the oldest entry and returns it
      whole, a push is refused exactly if the queue was full when the head was loaded, a pop
      comes back empty exactly if the queue was empty when the tail was loaded, and no other
      step changes the queue. */
  lemma RefinesBoundedQueue(capacity: nat, width: nat, run: seq<Label>, r: Ring, l: Label)
    requires ValidCapacity(capacity) && width > 0
    requires Exec(Step, Empty(capacity, width), run) == Some(r) && Step(r, l).Some?
    requires Divides(capacity) || TicketsUsed(Step(r, l).value) <= WORD
    ensures |r.popped| <= |r.pushed|
    ensures var n := Step(r, l).value;
      && |n.popped| <= |n.pushed|
      && |Contents(n)| <= capacity
      && Contents(n) == (match l
         case PublishTail => Contents(r) + [r.producer.entry]
         case PublishHead => Contents(r)[1..]
         case _ => Contents(r))
    ensures l.PublishTail? ==> |Contents(r)| < capacity
    ensures l.PublishHead? ==> Contents(r) != [] && r.consumer.copy == Contents(r)[0]
    ensures l.CheckFull? ==>
      (Step(r, l).value.producer.PIdle? <==> |r.pushed| - r.producer.seen == capacity)
    ensures l.CheckEmpty? ==> (Step(r, l).value.consumer.CIdle? <==> r.consumer.seen == |r.popped|)
  {
    RunKeeps(capacity, width, run);
    CapacityFixed(capacity, width, run);
    StepRefines(r, l);
  }

  lemma StepRefines(r: Ring, l: Label)
    requires Inv(r) && WithinRange(r) && Step(r, l).Some? && WithinRange(Step(r, l).value)
    ensures var n := Step(r, l).value;
      && Inv(n)
      && |Contents(n)| <= r.capacity
      && Contents(n) == (match l
         case PublishTail => Contents(r) + [r.producer.entry]
         case PublishHead => Contents(r)[1..]
         case _ => Contents(r))
    ensures l.PublishHead? ==> Contents(r) != [] && r.consumer.copy == Contents(r)[0]
    ensures l.CheckFull? ==>
      (Step(r, l).value.producer.PIdle? <==> |r.pushed| - r.producer.seen == r.capacity)
    ensures l.CheckEmpty? ==> (Step(r, l).value.consumer.CIdle? <==> r.consumer.seen == |r.popped|)
  {
    StepKeeps(r, l);
    match l
    case CheckFull => WordDistance(r.producer.seen, |r.pushed|);
    case CheckEmpty => WordDistinct(|r.popped|, r.consumer.seen);
    case PublishHead =>
      assert r.consumer.copy == r.pushed[|r.popped|];
      assert Contents(Step(r, l).value) == Contents(r)[1..];
    case PublishTail =>
      assert Contents(Step(r, l).value) == Contents(r) + [r.producer.entry];
    case _ =>
  }

  /** In every run the slot being written is never the slot of an entry still to be read, and
      every such entry is whole in its slot. */
  lemma NoOverwriteBeforeRead(capacity: nat, width: nat, run: seq<Label>, r: Ring, i: nat)
    requires ValidCapacity(capacity) && width > 0
    requires Exec(Step, Empty(capacity, width), run) == Some(r)
    requires Divides(capacity) || TicketsUsed(r) <= WORD
    requires |r.popped| <= i < |r.pushed|
    ensures |r.slots| == capacity && r.slots[Slot(i, capacity)] == r.pushed[i]
    ensures r.producer.PCopying? ==> r.producer.tail % capacity != Slot(i, capacity)
  {
    RunKeeps(capacity, width, run);
    CapacityFixed(capacity, width, run);
    if r.producer.PCopying? {
      SlotDistinct(i, |r.pushed|, r.capacity);
    }
  }
}
