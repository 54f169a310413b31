/** The 32-bit cursor arithmetic of `memrpc/src/core/shm_layout.h` and the slot map of
    `memrpc/src/core/session.cpp`.

    A *ticket* is the unbounded number of an entry: the first entry pushed has ticket 0.
    The cursors hold tickets modulo 2^32, and an entry is stored at `cursor % capacity`.
 */
module Words {

  const WORD: nat := 0x1_0000_0000
  const MAX_RING_ENTRIES: nat := 0x10_0000

  type U32 = x: int | 0 <= x < 0x1_0000_0000

  /** The cursor value that stands for a ticket. */
  function Word(ticket: nat): (w: U32) {
    ticket % WORD
  }

  function WrapAdd(a: U32, b: U32): (w: U32) {
    (a + b) % WORD
  }

  function WrapSub(a: U32, b: U32): (w: U32) {
    (a - b) % WORD
  }

  /** Capacities that `ValidateRingCursor` accepts. */
  predicate ValidCapacity(capacity: nat) {
    1 <= capacity <= MAX_RING_ENTRIES
  }

  function Slot(ticket: nat, capacity: nat): (slot: nat)
    requires capacity > 0
    ensures slot < capacity
  {
    Word(ticket) % capacity
  }

  predicate Divides(capacity: nat)
    requires capacity > 0
  {
    WORD % capacity == 0
  }

  lemma WordSuccessor(ticket: nat)
    ensures WrapAdd(Word(ticket), 1) == Word(ticket + 1)
  {
  }

  /** Wrapped subtraction of two cursors gives the true distance of their tickets. */
  lemma WordDistance(low: nat, high: nat)
    requires low <= high < low + WORD
    ensures WrapSub(Word(high), Word(low)) == high - low
  {
  }

  /** Two tickets less than 2^32 apart have equal cursors only if they are equal. */
  lemma WordDistinct(low: nat, high: nat)
    requires low <= high < low + WORD
    ensures Word(low) == Word(high) <==> low == high
  {
    WordDistance(low, high);
  }

  /** A nonzero multiple of `c` is at least `c` away from zero. */
  lemma MultipleGap(d: int, c: nat)
    ensures d >= 1 ==> d * c >= c
    ensures d <= -1 ==> d * c <= 0 - c
  {
  }

  lemma ModOfMultiple(a: nat, q: nat, c: nat)
    requires c > 0
    ensures (a + q * c) % c == a % c
  {
    var d := (a + q * c) / c;
    var gap := a / c + q - d;
    assert gap * c == (a / c) * c + q * c - d * c;
    assert gap * c == (a + q * c) % c - a % c;
    MultipleGap(gap, c);
  }

  /** For a capacity that divides 2^32 the wrap does not disturb the slot map. */
  lemma SlotOfDividing(ticket: nat, capacity: nat)
    requires capacity > 0 && Divides(capacity)
    ensures Slot(ticket, capacity) == ticket % capacity
  {
    var k := WORD / capacity;
    assert WORD == k * capacity;
    var q := ticket / WORD;
    calc {
      ticket;
      Word(ticket) + q * WORD;
      Word(ticket) + q * (k * capacity);
      Word(ticket) + (q * k) * capacity;
    }
    ModOfMultiple(Word(ticket), q * k, capacity);
  }

  lemma ResidueDistinct(low: nat, high: nat, capacity: nat)
    requires low < high < low + capacity
    ensures low % capacity != high % capacity
  {
    var d := high / capacity - low / capacity;
    assert d * capacity == (high / capacity) * capacity - (low / capacity) * capacity;
    assert high - low == d * capacity + high % capacity - low % capacity;
    MultipleGap(d, capacity);
  }

  /** Slots of tickets less than a capacity apart differ, as long as no cursor has wrapped
      or the capacity divides 2^32. */
  lemma SlotDistinct(low: nat, high: nat, capacity: nat)
    requires low < high < low + capacity
    requires Divides(capacity) || high < WORD
    ensures Slot(low, capacity) != Slot(high, capacity)
  {
    if Divides(capacity) {
      SlotOfDividing(low, capacity);
      SlotOfDividing(high, capacity);
    }
    ResidueDistinct(low, high, capacity);
  }

  /** No two tickets of the window of `capacity` tickets that starts at `base` share a slot. */
  ghost predicate WindowInjective(base: nat, capacity: nat)
    requires capacity > 0
  {
    forall i: nat, j: nat {:trigger Slot(i, capacity), Slot(j, capacity)} |
      base <= i < j < base + capacity :: Slot(i, capacity) != Slot(j, capacity)
  }

  /** The last ticket before the wrap whose slot is 0. */
  function LastSlotZero(capacity: nat): (t: nat)
    requires ValidCapacity(capacity)
    ensures t <= WORD && WORD - t < capacity && t % capacity == 0
    ensures t == WORD <==> Divides(capacity)
  {
    var q := WORD / capacity;
    assert q * capacity == WORD - WORD % capacity;
    ModOfMultiple(0, q, capacity);
    WORD - WORD % capacity
  }

  lemma SlotOfWrapped(capacity: nat)
    requires capacity > 0
    ensures Slot(WORD, capacity) == 0
  {
    assert Word(WORD) == 0;
  }

  lemma DividingWindow(base: nat, capacity: nat)
    requires capacity > 0 && Divides(capacity)
    ensures WindowInjective(base, capacity)
  {
    forall i: nat, j: nat {:trigger Slot(i, capacity), Slot(j, capacity)} | base <= i < j < base + capacity
      ensures Slot(i, capacity) != Slot(j, capacity)
    {
      SlotDistinct(i, j, capacity);
    }
  }

  /** When the capacity does not divide 2^32, the first ticket after the wrap takes the slot
      of a ticket less than a capacity before it. */
  lemma Collision(capacity: nat, t: nat)
    requires ValidCapacity(capacity) && !Divides(capacity) && t == LastSlotZero(capacity)
    ensures t < WORD < t + capacity
    ensures Slot(t, capacity) == Slot(WORD, capacity) == 0
  {
    SlotOfWrapped(capacity);
    assert Word(t) == t;
  }

  lemma CollidingWindow(capacity: nat, t: nat)
    requires capacity > 0 && t < WORD < t + capacity && Slot(t, capacity) == Slot(WORD, capacity)
    ensures !WindowInjective(t, capacity)
  {
  }

  /** Exactness of the slot map: every window is collision free if and only if the capacity
      divides 2^32. */
  lemma SlotMapExact(capacity: nat)
    requires ValidCapacity(capacity)
    ensures (forall base: nat :: WindowInjective(base, capacity)) <==> Divides(capacity)
  {
    if Divides(capacity) {
      forall base: nat ensures WindowInjective(base, capacity) {
        DividingWindow(base, capacity);
      }
    } else {
      var t := LastSlotZero(capacity);
      Collision(capacity, t);
      CollidingWindow(capacity, t);
    }
  }
}
