/** The ring keeps its order over all runs exactly when its capacity divides 2^32.

    `ValidateRingCursor` (memrpc/src/core/session.cpp:73-92) accepts every capacity from 1 to
    2^20.  For a capacity that does not divide 2^32 this module builds a run, of about 2^32
    pushes, whose last pop returns the wrong entry.
 */
module RingWrap {
  import opened Runs
  import opened Words
  import opened RingProtocol

  ghost predicate FifoAlways(capacity: nat, width: nat) {
    forall run: seq<Label> :: Exec(Step, Empty(capacity, width), run).Some? ==>
      Fifo(Exec(Step, Empty(capacity, width), run).value)
  }

  /** No push or pop is under way and the cursors agree with the history. */
  ghost predicate Quiet(r: Ring) {
    && WellFormed(r) && r.producer.PIdle? && r.consumer.CIdle?
    && |r.popped| <= |r.pushed|
    && r.tail == Word(|r.pushed|) && r.head == Word(|r.popped|)
  }

  lemma {:induction false} CopyInAll(from: Ring, r: Ring) returns (t: Ring)
    requires Reaches(Step, from, r) && WellFormed(r) && r.producer.PCopying? && r.producer.copied <= r.width
    requires r.slots[r.producer.tail % r.capacity][..r.producer.copied] == r.producer.entry[..r.producer.copied]
    ensures Reaches(Step, from, t) && WellFormed(t)
    ensures t == r.(slots := r.slots[r.producer.tail % r.capacity := r.producer.entry],
                    producer := r.producer.(copied := r.width))
    decreases r.width - r.producer.copied
  {
    var k := r.producer.tail % r.capacity;
    if r.producer.copied == r.width {
      assert r.slots[k] == r.slots[k][..r.width] == r.producer.entry[..r.width] == r.producer.entry;
      t := r;
    } else {
      var m := Step(r, CopyIn).value;
      var c := r.producer.copied;
      ReachesThen(Step, from, r, CopyIn, m);
      assert m.slots[k][..c + 1] == r.slots[k][..c] + [r.producer.entry[c]];
      t := CopyInAll(from, m);
      assert m.slots[k := r.producer.entry] == r.slots[k := r.producer.entry];
    }
  }

  /** A whole push, run without interference on a ring that is not full. */
  lemma PushOne(from: Ring, r: Ring, e: Entry) returns (t: Ring)
    requires Reaches(Step, from, r) && Quiet(r) && |e| == r.width && |r.pushed| < |r.popped| + r.capacity
    ensures Reaches(Step, from, t) && Quiet(t)
    ensures t == r.(slots := r.slots[Slot(|r.pushed|, r.capacity) := e],
                    tail := Word(|r.pushed| + 1), pushed := r.pushed + [e])
  {
    var a := Step(r, LoadHead(e)).value;
    ReachesThen(Step, from, r, LoadHead(e), a);
    var b := Step(a, LoadOwnTail).value;
    ReachesThen(Step, from, a, LoadOwnTail, b);
    WordDistance(|r.popped|, |r.pushed|);
    var c := Step(b, CheckFull).value;
    ReachesThen(Step, from, b, CheckFull, c);
    var d := CopyInAll(from, c);
    WordSuccessor(|r.pushed|);
    t := Step(d, PublishTail).value;
    ReachesThen(Step, from, d, PublishTail, t);
  }

  lemma {:induction false} CopyOutAll(from: Ring, r: Ring) returns (t: Ring)
    requires Reaches(Step, from, r) && WellFormed(r) && r.consumer.CCopying? && |r.consumer.copy| <= r.width
    requires r.consumer.copy == r.slots[r.consumer.head % r.capacity][..|r.consumer.copy|]
    ensures Reaches(Step, from, t)
    ensures t == r.(consumer := CCopying(r.consumer.head, r.slots[r.consumer.head % r.capacity]))
    decreases r.width - |r.consumer.copy|
  {
    var k := r.consumer.head % r.capacity;
    if |r.consumer.copy| == r.width {
      assert r.slots[k] == r.slots[k][..r.width];
      t := r;
    } else {
      var m := Step(r, CopyOut).value;
      ReachesThen(Step, from, r, CopyOut, m);
      assert m.consumer.copy == m.slots[k][..|m.consumer.copy|];
      t := CopyOutAll(from, m);
    }
  }

  /** A whole pop, run without interference on a ring that is not empty. */
  lemma PopOne(from: Ring, r: Ring) returns (t: Ring)
    requires Reaches(Step, from, r) && Quiet(r) && |r.popped| < |r.pushed| <= |r.popped| + r.capacity
    ensures Reaches(Step, from, t) && Quiet(t)
    ensures t == r.(head := Word(|r.popped| + 1),
                    popped := r.popped + [r.slots[Slot(|r.popped|, r.capacity)]])
  {
    var a := Step(r, LoadTail).value;
    ReachesThen(Step, from, r, LoadTail, a);
    var b := Step(a, LoadOwnHead).value;
    ReachesThen(Step, from, a, LoadOwnHead, b);
    WordDistinct(|r.popped|, |r.pushed|);
    var c := Step(b, CheckEmpty).value;
    ReachesThen(Step, from, b, CheckEmpty, c);
    var d := CopyOutAll(from, c);
    WordSuccessor(|r.popped|);
    t := Step(d, PublishHead).value;
    ReachesThen(Step, from, d, PublishHead, t);
  }

  /** `n` entries pushed and popped, one by one. */
  lemma {:induction false} Advance(capacity: nat, width: nat, n: nat) returns (t: Ring)
    requires ValidCapacity(capacity) && width > 0
    ensures Reaches(Step, Empty(capacity, width), t) && Quiet(t)
    ensures t.capacity == capacity && t.width == width && |t.pushed| == |t.popped| == n
  {
    var from := Empty(capacity, width);
    if n == 0 {
      t := from;
      ReachesSelf(Step, from);
    } else {
      var r := Advance(capacity, width, n - 1);
      var m := PushOne(from, r, seq(width, _ => 0));
      t := PopOne(from, m);
    }
  }

  /** `n` copies of `e` pushed on top of what is there. */
  lemma {:induction false} Fill(from: Ring, r: Ring, e: Entry, n: nat) returns (t: Ring)
    requires Reaches(Step, from, r) && Quiet(r) && |e| == r.width && |r.pushed| + n <= |r.popped| + r.capacity
    ensures Reaches(Step, from, t) && Quiet(t)
    ensures t.capacity == r.capacity && t.width == r.width && t.popped == r.popped
    ensures |t.pushed| == |r.pushed| + n && t.pushed[..|r.pushed|] == r.pushed
    decreases n
  {
    t := r;
    if n > 0 {
      var m := PushOne(from, r, e);
      t := Fill(from, m, e, n - 1);
      assert t.pushed[..|r.pushed|] == t.pushed[..|m.pushed|][..|r.pushed|];
    }
  }

  /** The wrong entry comes out after the wrap. */
  lemma WrapBreaksOrder(capacity: nat, width: nat) returns (r: Ring)
    requires ValidCapacity(capacity) && width > 0 && !Divides(capacity)
    ensures Reaches(Step, Empty(capacity, width), r) && !Fifo(r)
  {
    var from := Empty(capacity, width);
    var old0, new1 := seq(width, _ => 0), seq(width, _ => 1);
    var base := LastSlotZero(capacity);
    Collision(capacity, base);
    var a := Advance(capacity, width, base);
    var b := PushOne(from, a, old0);
    var c := Fill(from, b, old0, WORD - base - 1);
    assert c.pushed[base] == c.pushed[..|b.pushed|][base] == old0;
    var d := PushOne(from, c, new1);
    assert d.slots[0] == new1;
    r := PopOne(from, d);
    assert r.popped[base] == new1 && r.pushed[base] == old0;
    assert new1[0] != old0[0];
    assert r.pushed[..|r.popped|][base] == r.pushed[base];
  }

  /** The exact condition, for every capacity that attach accepts: the ring is first in, first
      out over all runs if and only if the capacity divides 2^32. */
  lemma FifoExact(capacity: nat, width: nat)
    requires ValidCapacity(capacity) && width > 0
    ensures FifoAlways(capacity, width) <==> Divides(capacity)
  {
    if Divides(capacity) {
      forall run: seq<Label> | Exec(Step, Empty(capacity, width), run).Some?
        ensures Fifo(Exec(Step, Empty(capacity, width), run).value)
      {
        FifoOverRuns(capacity, width, run, Exec(Step, Empty(capacity, width), run).value);
      }
    } else {
      var r := WrapBreaksOrder(capacity, width);
      var run: seq<Label> :| Exec(Step, Empty(capacity, width), run) == Some(r);
      assert !Fifo(Exec(Step, Empty(capacity, width), run).value);
    }
  }
}
