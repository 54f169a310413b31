/** The shared-memory layout (memrpc/src/core/shm_layout.h:45-91), the header that the host writes
    (memrpc/src/bootstrap/shared_memory_session_host.cpp:110-168) and the checks of the attacher
    (memrpc/src/core/session.cpp:73-124, 228-312).

    `headerSize` is `sizeof(SharedMemoryHeader)`, which depends on the platform's mutex; it is a
    multiple of the header's alignment.  `std::size_t` arithmetic is 64-bit with wrap-around.
 */
module Layout {
  import opened Words
  import opened ClientTypes

  const WORD64: nat := 0x1_0000_0000_0000_0000
  const RING_ENTRY_BYTES: nat := 8192
  const ENTRY_ALIGN: nat := 8
  const MAX_ALIGN: nat := 16
  const MAX_REQUEST_BYTES: nat := 8172
  const MAX_RESPONSE_BYTES: nat := 8161
  const MAGIC: U32 := 0x4d454d52
  const PROTOCOL_VERSION: U32 := 9

  datatype Config = Config(highRing: U32, normalRing: U32, responseRing: U32, maxRequest: U32, maxResponse: U32)

  datatype Offsets = Offsets(high: nat, normal: nat, response: nat, total: nat)

  datatype RingKind = High | Normal | Response

  predicate ValidHeaderSize(headerSize: nat) {
    0 < headerSize <= 0x1_0000 && headerSize % ENTRY_ALIGN == 0
  }

  /** `AlignOffset`, with the wrap-around of `std::size_t`. */
  function AlignOffset(offset: nat, alignment: nat): (r: nat) {
    if alignment == 0 then offset
    else (((offset + alignment - 1) % WORD64) / alignment * alignment) % WORD64
  }

  function After(offset: nat, entries: U32): (r: nat) {
    (offset + (RING_ENTRY_BYTES * entries) % WORD64) % WORD64
  }

  /** `ComputeLayout`. */
  function ComputeLayout(headerSize: nat, config: Config): (r: Offsets) {
    var high := AlignOffset(headerSize, ENTRY_ALIGN);
    var normal := AlignOffset(After(high, config.highRing), ENTRY_ALIGN);
    var response := AlignOffset(After(normal, config.normalRing), ENTRY_ALIGN);
    Offsets(high, normal, response, AlignOffset(After(response, config.responseRing), MAX_ALIGN))
  }

  lemma SmallModulo(x: nat, m: nat)
    requires x < m
    ensures x % m == x
  {
  }

  /** Rounding up reaches the next multiple and, for sizes that occur, does not wrap. */
  lemma AlignRoundsUp(offset: nat, alignment: nat)
    requires alignment > 0 && offset + alignment <= WORD64
    ensures offset <= AlignOffset(offset, alignment) < offset + alignment
    ensures AlignOffset(offset, alignment) % alignment == 0
  {
    var x := offset + alignment - 1;
    var q := x / alignment;
    SmallModulo(x, WORD64);
    assert q * alignment == x - x % alignment;
    SmallModulo(q * alignment, WORD64);
    ModOfMultiple(0, q, alignment);
  }

  /** The region behind a ring of `entries` slots that starts at `offset`. */
  lemma NextRegion(offset: nat, entries: U32, alignment: nat)
    requires offset < 0x8000_0000_0000 && 0 < alignment <= MAX_ALIGN
    ensures var next := AlignOffset(After(offset, entries), alignment);
      offset + RING_ENTRY_BYTES * entries <= next < offset + RING_ENTRY_BYTES * entries + alignment
      && next % alignment == 0
  {
    SmallModulo(RING_ENTRY_BYTES * entries, WORD64);
    SmallModulo(offset + RING_ENTRY_BYTES * entries, WORD64);
    AlignRoundsUp(offset + RING_ENTRY_BYTES * entries, alignment);
  }

  function RingOffset(o: Offsets, ring: RingKind): (r: nat) {
    match ring case High => o.high case Normal => o.normal case Response => o.response
  }

  function RingSize(c: Config, ring: RingKind): (n: U32) {
    match ring case High => c.highRing case Normal => c.normalRing case Response => c.responseRing
  }

  /** First byte of slot `i` of a ring; the slot takes `RING_ENTRY_BYTES` bytes. */
  function SlotStart(o: Offsets, ring: RingKind, i: nat): (r: nat) {
    RingOffset(o, ring) + RING_ENTRY_BYTES * i
  }

  /** `next` is the first multiple of `alignment` from `end` on. */
  predicate FirstAligned(end: nat, next: nat, alignment: nat)
    requires alignment > 0
  {
    end <= next < end + alignment && next % alignment == 0
  }

  /** The three rings follow the header in order, each at the first aligned offset after what is
      before it, and no 64-bit computation wraps, for every 32-bit ring size. */
  lemma RegionsInOrder(headerSize: nat, c: Config)
    requires ValidHeaderSize(headerSize)
    ensures var o := ComputeLayout(headerSize, c);
      && FirstAligned(headerSize, o.high, ENTRY_ALIGN)
      && FirstAligned(o.high + RING_ENTRY_BYTES * c.highRing, o.normal, ENTRY_ALIGN)
      && FirstAligned(o.normal + RING_ENTRY_BYTES * c.normalRing, o.response, ENTRY_ALIGN)
      && FirstAligned(o.response + RING_ENTRY_BYTES * c.responseRing, o.total, MAX_ALIGN)
      && o.total < 0x1_0000_0000_0000
  {
    var o := ComputeLayout(headerSize, c);
    AlignRoundsUp(headerSize, ENTRY_ALIGN);
    NextRegion(o.high, c.highRing, ENTRY_ALIGN);
    NextRegion(o.normal, c.normalRing, ENTRY_ALIGN);
    NextRegion(o.response, c.responseRing, MAX_ALIGN);
  }

  lemma SlotAligned(offset: nat, i: nat)
    requires offset % ENTRY_ALIGN == 0
    ensures (offset + RING_ENTRY_BYTES * i) % ENTRY_ALIGN == 0
  {
    ModOfMultiple(offset, 1024 * i, ENTRY_ALIGN);
  }

  /** Every slot is aligned, behind the header and inside the total size. */
  lemma SlotInBounds(headerSize: nat, c: Config, ring: RingKind, i: nat)
    requires ValidHeaderSize(headerSize) && i < RingSize(c, ring)
    ensures var o := ComputeLayout(headerSize, c); var start := SlotStart(o, ring, i);
      headerSize <= start && start + RING_ENTRY_BYTES <= o.total && start % ENTRY_ALIGN == 0
  {
    RegionsInOrder(headerSize, c);
    SlotAligned(RingOffset(ComputeLayout(headerSize, c), ring), i);
  }

  /** Two different slots share no byte. */
  lemma SlotsDisjoint(headerSize: nat, c: Config, ring1: RingKind, i: nat, ring2: RingKind, j: nat)
    requires ValidHeaderSize(headerSize) && i < RingSize(c, ring1) && j < RingSize(c, ring2)
    requires (ring1, i) != (ring2, j)
    ensures var o := ComputeLayout(headerSize, c);
      || SlotStart(o, ring1, i) + RING_ENTRY_BYTES <= SlotStart(o, ring2, j)
      || SlotStart(o, ring2, j) + RING_ENTRY_BYTES <= SlotStart(o, ring1, i)
  {
    RegionsInOrder(headerSize, c);
  }

  // --- Host and attacher ---------------------------------------------------------------------

  datatype RingCursor = RingCursor(head: U32, tail: U32, capacity: U32)

  datatype Header = Header(magic: U32, version: U32, config: Config,
                           highRing: RingCursor, normalRing: RingCursor, responseRing: RingCursor)

  predicate HasAlignedPayloadSizes(maxRequest: U32, maxResponse: U32) {
    maxRequest > 0 && maxResponse > 0 && maxRequest <= MAX_REQUEST_BYTES && maxResponse <= MAX_RESPONSE_BYTES
  }

  /** The host's `HasValidConfig`: it does not look at the ring sizes. */
  predicate HasValidConfig(c: Config) {
    HasAlignedPayloadSizes(c.maxRequest, c.maxResponse)
  }

  /** `PopulateHeader` on zeroed memory. */
  function HostHeader(c: Config): (h: Header) {
    Header(MAGIC, PROTOCOL_VERSION, c,
           RingCursor(0, 0, c.highRing), RingCursor(0, 0, c.normalRing), RingCursor(0, 0, c.responseRing))
  }

  predicate ValidRingSize(n: U32) {
    n != 0 && n <= MAX_RING_ENTRIES
  }

  predicate ValidateRingCursor(cursor: RingCursor, expected: U32) {
    && ValidRingSize(expected)
    && cursor.capacity == expected
    && WrapSub(cursor.tail, cursor.head) <= expected
  }

  predicate ValidateLayoutConfig(headerSize: nat, c: Config, fileSize: nat) {
    && ValidRingSize(c.highRing) && ValidRingSize(c.normalRing) && ValidRingSize(c.responseRing)
    && HasAlignedPayloadSizes(c.maxRequest, c.maxResponse)
    && headerSize <= ComputeLayout(headerSize, c).total <= fileSize
  }

  /** `MapAndValidateHeader` and `RemapWithActualLayout`, mapping aside. */
  function Attach(headerSize: nat, h: Header, fileSize: nat): (r: Status) {
    if fileSize < headerSize || h.magic != MAGIC || h.version != PROTOCOL_VERSION then ProtocolMismatch
    else if ValidateLayoutConfig(headerSize, h.config, fileSize)
      && ValidateRingCursor(h.highRing, h.config.highRing)
      && ValidateRingCursor(h.normalRing, h.config.normalRing)
      && ValidateRingCursor(h.responseRing, h.config.responseRing) then Ok
    else ProtocolMismatch
  }

  function CursorOf(h: Header, ring: RingKind): (c: RingCursor) {
    match ring case High => h.highRing case Normal => h.normalRing case Response => h.responseRing
  }

  /** A header that the host initialises from a config it considers valid is accepted by the
      attacher exactly when all three ring sizes lie between 1 and 2^20. */
  lemma HostHeaderAccepted(headerSize: nat, c: Config)
    requires ValidHeaderSize(headerSize) && HasValidConfig(c)
    ensures Attach(headerSize, HostHeader(c), ComputeLayout(headerSize, c).total) == Ok
            <==> ValidRingSize(c.highRing) && ValidRingSize(c.normalRing) && ValidRingSize(c.responseRing)
  {
    RegionsInOrder(headerSize, c);
  }

  /** The header that the host wrote, with the cursors where use has brought them. */
  function Used(h: Header): (r: Header) {
    HostHeader(h.config).(
      highRing := RingCursor(h.highRing.head, h.highRing.tail, h.config.highRing),
      normalRing := RingCursor(h.normalRing.head, h.normalRing.tail, h.config.normalRing),
      responseRing := RingCursor(h.responseRing.head, h.responseRing.tail, h.config.responseRing))
  }

  predicate HoldsAtMost(cursor: RingCursor, n: nat) {
    WrapSub(cursor.tail, cursor.head) <= n
  }

  /** Attach accepts exactly the headers that a host writes for a valid config with ring sizes from 1
      to 2^20, at any later moment of their use, in a file that is large enough; anything else,
      in any field, is refused as a protocol mismatch. */
  lemma AttachExact(headerSize: nat, h: Header, fileSize: nat)
    requires ValidHeaderSize(headerSize)
    ensures Attach(headerSize, h, fileSize) == Ok || Attach(headerSize, h, fileSize) == ProtocolMismatch
    ensures Attach(headerSize, h, fileSize) == Ok <==>
      && h == Used(h) && HasValidConfig(h.config)
      && (forall ring: RingKind :: 1 <= RingSize(h.config, ring) <= 0x10_0000
            && HoldsAtMost(CursorOf(h, ring), RingSize(h.config, ring)))
      && ComputeLayout(headerSize, h.config).total <= fileSize
  {
    RegionsInOrder(headerSize, h.config);
    if forall ring: RingKind :: 1 <= RingSize(h.config, ring) <= 0x10_0000
        && HoldsAtMost(CursorOf(h, ring), RingSize(h.config, ring)) {
      assert HoldsAtMost(CursorOf(h, High), RingSize(h.config, High));
      assert HoldsAtMost(CursorOf(h, Normal), RingSize(h.config, Normal));
      assert HoldsAtMost(CursorOf(h, Response), RingSize(h.config, Response));
    }
  }

  /** Whoever wrote it, a header that attach accepts, and that keeps its sizes and capacities
      afterwards, describes rings that lie in the file and whose cursors hold at most `capacity`
      entries; the slot that any cursor value selects is one of the ring's slots.  Pushes and
      pops read the capacity from the shared header again and do not repeat the test. */
  lemma AcceptedHeaderIsSafe(headerSize: nat, h: Header, fileSize: nat, ring: RingKind, cursor: U32)
    requires ValidHeaderSize(headerSize) && Attach(headerSize, h, fileSize) == Ok
    ensures ValidCapacity(CursorOf(h, ring).capacity)
    ensures WrapSub(CursorOf(h, ring).tail, CursorOf(h, ring).head) <= CursorOf(h, ring).capacity
    ensures var start := SlotStart(ComputeLayout(headerSize, h.config), ring, cursor % CursorOf(h, ring).capacity);
      headerSize <= start && start + RING_ENTRY_BYTES <= fileSize && start % ENTRY_ALIGN == 0
  {
    SlotInBounds(headerSize, h.config, ring, cursor % CursorOf(h, ring).capacity);
  }
}
