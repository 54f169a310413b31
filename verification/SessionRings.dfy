/** The rings of a session in their in-place form, and the sweep that deletes the payload files
    of a broken session: memrpc/src/core/session.cpp:148-215, 524-532.

    `RingProtocol` shows that interleaved pushes and pops behave like whole ones; here each
    runs as a whole, and so does the sweep.
 */
module SessionRings {
  import opened Runs
  import opened Words
  import opened ByteCodec
  import opened Envelope
  import opened FilePayload

  /** The transport part of a ring entry: the used payload bytes and their kind. */
  datatype Entry = Entry(bytes: seq<Byte>, kind: Byte)

  /** The entries with tickets `low`, ..., `high - 1`, read from their slots. */
  function Window(slots: seq<Entry>, low: nat, high: nat): (q: seq<Entry>)
    requires slots != [] && low <= high
    ensures |q| == high - low
  {
    seq(high - low, i requires 0 <= i < high - low => slots[Slot(low + i, |slots|)])
  }

  lemma WindowPush(slots: seq<Entry>, low: nat, high: nat, e: Entry)
    requires slots != [] && low <= high < low + |slots|
    requires Divides(|slots|) || high < WORD
    ensures Window(slots[Slot(high, |slots|) := e], low, high + 1) == Window(slots, low, high) + [e]
  {
    forall i | low <= i < high ensures Slot(i, |slots|) != Slot(high, |slots|) {
      SlotDistinct(i, high, |slots|);
    }
  }

  lemma WindowPop(slots: seq<Entry>, low: nat, high: nat)
    requires slots != [] && low < high
    ensures Window(slots, low, high) == [slots[Slot(low, |slots|)]] + Window(slots, low + 1, high)
  {
  }

  lemma WindowAt(slots: seq<Entry>, low: nat, high: nat, i: nat)
    requires slots != [] && low + i < high && i < WORD
    ensures Window(slots, low, high)[i] == slots[WrapAdd(Word(low), i) % |slots|]
  {
    WordPlus(low, i);
    assert Window(slots, low, high)[i] == slots[Slot(low + i, |slots|)];
  }

  class Ring {
    const capacity: nat
    const entries: array<Entry>
    var head: U32
    var tail: U32
    // Tickets of the next pop and of the next push.
    ghost var pops: nat
    ghost var pushes: nat

    ghost predicate Valid()
      reads this
    {
      && ValidCapacity(capacity) && entries.Length == capacity
      && head == Word(pops) && tail == Word(pushes)
      && pops <= pushes <= pops + capacity
    }

    /** The entries in the ring, oldest first. */
    ghost function Contents(): (q: seq<Entry>)
      requires Valid()
      reads this, entries
      ensures |q| == pushes - pops
    {
      Window(entries[..], pops, pushes)
    }

    constructor (size: nat, blank: Entry)
      requires ValidCapacity(size)
      ensures Valid() && capacity == size && Contents() == [] && fresh(entries)
      ensures pushes == 0
    {
      capacity := size;
      entries := new Entry[size](_ => blank);
      head, tail, pops, pushes := 0, 0, 0, 0;
    }

    method Count() returns (n: U32)
      requires Valid()
      ensures n == |Contents()|
    {
      WordDistance(pops, pushes);
      n := WrapSub(tail, head);
    }

    /** Appends the entry unless the ring is full.  The order is promised as long as the slot map
        has no collision; `RingWrap.FifoExact` says that nothing more can be. */
    method Push(e: Entry) returns (ok: bool)
      requires Valid()
      modifies this`tail, this`pushes, entries
      ensures Valid()
      ensures ok <==> |old(Contents())| < capacity
      ensures !ok ==> Contents() == old(Contents()) && pushes == old(pushes)
      ensures ok ==> pushes == old(pushes) + 1
      ensures ok && (Divides(capacity) || old(pushes) < WORD) ==> Contents() == old(Contents()) + [e]
    {
      ghost var slots := entries[..];
      var n := Count();
      if n >= capacity {
        return false;
      }
      entries[tail % capacity] := e;
      assert entries[..] == slots[Slot(pushes, capacity) := e];
      WordSuccessor(pushes);
      tail := WrapAdd(tail, 1);
      pushes := pushes + 1;
      ok := true;
      if Divides(capacity) || old(pushes) < WORD {
        WindowPush(slots, pops, old(pushes), e);
      }
    }

    /** Removes and returns the oldest entry. */
    method Pop() returns (e: Option<Entry>)
      requires Valid()
      modifies this`head, this`pops
      ensures Valid() && pushes == old(pushes)
      ensures e.None? <==> old(Contents()) == []
      ensures e.None? ==> Contents() == old(Contents())
      ensures e.Some? ==> old(Contents()) == [e.value] + Contents()
    {
      WordDistinct(pops, pushes);
      if tail == head {
        return None;
      }
      e := Some(entries[head % capacity]);
      WindowPop(entries[..], pops, pushes);
      WordSuccessor(pops);
      head := WrapAdd(head, 1);
      pops := pops + 1;
    }

    /** `RemovePendingFilePayloadsFromRing`. */
    method RemovePendingFilePayloads(store: PayloadDirectory)
      requires Valid()
      modifies store
      ensures store.files == Swept(old(store.files), store.dir, Contents())
    {
      ghost var live := Contents();
      var count := Count();
      count := if count < capacity then count else capacity;
      var i: nat := 0;
      while i < count
        invariant i <= count == |live|
        invariant store.files == Swept(old(store.files), store.dir, live[..i])
      {
        WindowAt(entries[..], pops, pushes, i);
        var entry := entries[WrapAdd(head, i) % capacity];
        SweptAppend(old(store.files), store.dir, live[..i], entry);
        assert live[..i + 1] == live[..i] + [entry];
        var _ := store.RemoveFromTransport(entry.bytes, entry.kind);
        i := i + 1;
      }
      assert live[..count] == live;
    }
  }

  lemma WordPlus(ticket: nat, i: nat)
    requires i < WORD
    ensures WrapAdd(Word(ticket), i) == Word(ticket + i)
  {
  }

  /** The directory after removing the payload files of all `entries`. */
  function Swept(files: Files, dir: Path, entries: seq<Entry>): (r: Files)
    decreases |entries|
  {
    if entries == [] then files
    else
      var last := entries[|entries| - 1];
      RemovedFromTransport(Swept(files, dir, entries[..|entries| - 1]), dir, last.bytes, last.kind)
  }

  lemma SweptAppend(files: Files, dir: Path, entries: seq<Entry>, e: Entry)
    ensures Swept(files, dir, entries + [e]) == RemovedFromTransport(Swept(files, dir, entries), dir, e.bytes, e.kind)
  {
    assert (entries + [e])[..|entries|] == entries;
  }

  /** The entry refers to the payload file at `path`. */
  predicate RefersTo(dir: Path, e: Entry, path: Path) {
    e.kind == FILE_KIND && Decode(e.bytes).Some? && Acceptable(dir, Decode(e.bytes).value)
    && Decode(e.bytes).value.path == path
  }

  ghost predicate Referenced(dir: Path, entries: seq<Entry>, path: Path) {
    exists i | 0 <= i < |entries| :: RefersTo(dir, entries[i], path)
  }

  lemma RemovedExact(files: Files, dir: Path, e: Entry, path: Path)
    ensures var r := RemovedFromTransport(files, dir, e.bytes, e.kind);
      && (path in r <==> path in files && !RefersTo(dir, e, path))
      && (path in r ==> r[path] == files[path])
  {
  }

  lemma ReferencedAppend(dir: Path, entries: seq<Entry>, e: Entry, path: Path)
    ensures Referenced(dir, entries + [e], path) <==> Referenced(dir, entries, path) || RefersTo(dir, e, path)
  {
    var all := entries + [e];
    assert all[|entries|] == e;
    assert forall i | 0 <= i < |entries| :: all[i] == entries[i];
  }

  /** A sweep deletes exactly the files that its entries refer to and keeps all others. */
  lemma {:induction false} SweptExact(files: Files, dir: Path, entries: seq<Entry>, path: Path)
    ensures path in Swept(files, dir, entries) <==> path in files && !Referenced(dir, entries, path)
    ensures path in Swept(files, dir, entries) ==> Swept(files, dir, entries)[path] == files[path]
    decreases |entries|
  {
    if entries != [] {
      var init, last := entries[..|entries| - 1], entries[|entries| - 1];
      assert entries == init + [last];
      SweptExact(files, dir, init, path);
      RemovedExact(Swept(files, dir, init), dir, last, path);
      ReferencedAppend(dir, init, last, path);
    }
  }

  /** `Session::RemovePendingFilePayloads`: after the sweep of a broken session the directory is
      the old one without the files that a live entry of the three rings refers to. */
  method RemoveAllPendingFilePayloads(high: Ring, normal: Ring, response: Ring, store: PayloadDirectory)
    requires high.Valid() && normal.Valid() && response.Valid()
    modifies store
    ensures forall path | path in store.files ::
      path in old(store.files) && store.files[path] == old(store.files)[path]
    ensures var live := high.Contents() + normal.Contents() + response.Contents();
      forall path | path in old(store.files) ::
        path in store.files <==> !Referenced(store.dir, live, path)
  {
    ghost var files := store.files;
    high.RemovePendingFilePayloads(store);
    normal.RemovePendingFilePayloads(store);
    response.RemovePendingFilePayloads(store);
    ghost var a, b, c := high.Contents(), normal.Contents(), response.Contents();
    SweptConcat(files, store.dir, a, b);
    SweptConcat(files, store.dir, a + b, c);
    forall path ensures path in store.files ==> path in files && store.files[path] == files[path] {
      SweptExact(files, store.dir, a + b + c, path);
    }
    forall path | path in files
      ensures path in store.files <==> !Referenced(store.dir, a + b + c, path)
    {
      SweptExact(files, store.dir, a + b + c, path);
    }
  }

  lemma {:induction false} SweptConcat(files: Files, dir: Path, first: seq<Entry>, second: seq<Entry>)
    ensures Swept(Swept(files, dir, first), dir, second) == Swept(files, dir, first + second)
    decreases |second|
  {
    if second == [] {
      assert first + second == first;
    } else {
      var init, last := second[..|second| - 1], second[|second| - 1];
      SweptConcat(files, dir, first, init);
      assert first + second == (first + init) + [last];
      SweptAppend(files, dir, first + init, last);
    }
  }

  /** A sweep never touches a file that is not below the directory, whatever the entries say. */
  lemma SweepStaysInside(files: Files, dir: Path, entries: seq<Entry>, path: Path)
    requires path in files && !(dir + [SLASH] <= path)
    ensures path in Swept(files, dir, entries) && Swept(files, dir, entries)[path] == files[path]
  {
    SweptExact(files, dir, entries, path);
  }
}
