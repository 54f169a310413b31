/** What an attach and a release come to.  `Attachment` says when an attach must not succeed; here
    is when it does, and what a release leaves behind
    (memrpc/src/core/session.cpp:314-341, 381-393). */
module AttachmentOutcomes {
  import opened Runs
  import opened Attachment

  /** The header is free to take: it has no claim, or one that names no living process. */
  predicate Claimable(s: Shared) {
    !s.attached || !PidAlive(s, s.activePid)
  }

  /** Session `i` is in the mutex in every state of the run before the last. */
  ghost predicate Holds(s: Shared, i: nat, run: seq<Label>)
    decreases |run|
  {
    run != [] ==>
      s.mutex.Held? && s.mutex.session == i && (Step(s, run[0]).Some? ==> Holds(Step(s, run[0]).value, i, run[1..]))
  }

  /** Session `i` is past its test and takes the claim. */
  predicate Taking(s: Shared, i: nat) {
    s.mutex.Held? && s.mutex.session == i && !s.mutex.point.Testing? && !Releasing(s.mutex.point)
  }

  /** The attachment is the session's. */
  predicate Attached(s: Shared, i: nat) {
    Owner(s, i) && s.attached && s.activePid == PidOf(s, i)
  }

  lemma OthersWait(s: Shared, l: Label)
    requires Inv(s) && s.mutex.Held? && !l.Act? && Step(s, l).Some?
    ensures var n := Step(s, l).value;
      n.mutex.Abandoned? || (n.mutex == s.mutex && n.attached == s.attached && n.activePid == s.activePid)
  {
  }

  lemma {:induction false} TakingRun(s: Shared, i: nat, run: seq<Label>)
    requires Inv(s) && Holds(s, i, run) && Exec(Step, s, run).Some?
    requires Taking(s, i) || s.mutex.Abandoned? || (s.mutex.Free? && Attached(s, i))
    ensures var t := Exec(Step, s, run).value; Taking(t, i) || t.mutex.Abandoned? || (t.mutex.Free? && Attached(t, i))
    decreases |run|
  {
    if run != [] {
      var n := Step(s, run[0]).value;
      StepKeeps(s, run[0]);
      if run[0].Act? {
        assert Owner(n, i) || n.mutex.Held?;
      } else {
        OthersWait(s, run[0]);
      }
      TakingRun(n, i, run[1..]);
    }
  }

  /** However other processes interleave with it, an attach that has made its test and leaves the
      mutex has the attachment if and only if the header was free to take at the test; if not, it
      has changed nothing in the header. */
  lemma AttachExact(before: seq<Label>, s: Shared, i: nat, run: seq<Label>, t: Shared)
    requires Exec(Step, Fresh(), before) == Some(s) && s.mutex == Held(i, Testing)
    requires run != [] && run[0] == Act && Holds(s, i, run) && Exec(Step, s, run) == Some(t) && t.mutex.Free?
    ensures Claimable(s) ==> Attached(t, i)
    ensures !Claimable(s) ==> !Owner(t, i) && t.attached && t.activePid == s.activePid
  {
    RunKeeps(before);
    StepKeeps(s, Act);
    var n := Step(s, Act).value;
    if Claimable(s) {
      TakingRun(n, i, run[1..]);
    } else {
      assert n.mutex.Free? && run[1..] == [];
    }
  }

  /** Session `i` is past the mutex and takes its claim out. */
  predicate Withdrawing(s: Shared, i: nat) {
    && s.mutex.Held? && s.mutex.session == i && Releasing(s.mutex.point)
    && (s.mutex.point.ClearingPid? || s.mutex.point.Withdrawn? ==> !s.attached)
    && (s.mutex.point.Withdrawn? ==> s.activePid == 0)
  }

  /** The claim is out of the header. */
  predicate Freed(s: Shared, i: nat) {
    s.mutex.Free? && !s.attached && s.activePid == 0 && !Owner(s, i)
  }

  lemma {:induction false} WithdrawingRun(s: Shared, i: nat, run: seq<Label>)
    requires Inv(s) && Holds(s, i, run) && Exec(Step, s, run).Some?
    requires Withdrawing(s, i) || s.mutex.Abandoned? || Freed(s, i)
    ensures var t := Exec(Step, s, run).value; Withdrawing(t, i) || t.mutex.Abandoned? || Freed(t, i)
    decreases |run|
  {
    if run != [] {
      StepKeeps(s, run[0]);
      if !run[0].Act? {
        OthersWait(s, run[0]);
      }
      WithdrawingRun(Step(s, run[0]).value, i, run[1..]);
    }
  }

  /** A release that gets the mutex and leaves it has taken its claim out of the header, however
      others interleave with it, and nobody owns the attachment. */
  lemma ReleaseFrees(before: seq<Label>, s: Shared, i: nat, run: seq<Label>, t: Shared)
    requires Exec(Step, Fresh(), before) == Some(s) && s.mutex == Held(i, Point.Withdrawing)
    requires Holds(s, i, run) && Exec(Step, s, run) == Some(t) && t.mutex.Free?
    ensures !t.attached && t.activePid == 0 && NoOwner(t)
  {
    RunKeeps(before);
    WithdrawingRun(s, i, run);
    ExecConcat(Step, Fresh(), before, run);
    RunKeeps(before + run);
  }

  /** With the mutex free, an attach can run to its end, and does what `AttachExact` says. */
  lemma AttachRuns(s: Shared, i: nat) returns (t: Shared)
    requires Reaches(Step, Fresh(), s) && s.mutex.Free? && Live(s, i) && !s.sessions[i].owns
    ensures Reaches(Step, Fresh(), t) && t.mutex.Free?
    ensures Claimable(s) ==> Attached(t, i)
    ensures !Claimable(s) ==> t == s
  {
    var run: seq<Label> :| Exec(Step, Fresh(), run) == Some(s);
    RunKeeps(run);
    var a := Step(s, LockToAcquire(i, false)).value;
    ReachesThen(Step, Fresh(), s, LockToAcquire(i, false), a);
    var b := Step(a, Act).value;
    ReachesThen(Step, Fresh(), a, Act, b);
    if !Claimable(s) {
      t := b;
    } else {
      var c := b;
      if s.attached {
        c := ClearsStale(b, i);
      }
      t := Claims(c, i);
    }
  }

  lemma ClearsStale(s: Shared, i: nat) returns (t: Shared)
    requires Reaches(Step, Fresh(), s) && s.mutex == Held(i, ClearingStale) && Live(s, i)
    ensures Reaches(Step, Fresh(), t) && t == s.(mutex := Held(i, Claiming), attached := false, activePid := 0)
  {
    var a := Step(s, Act).value;
    ReachesThen(Step, Fresh(), s, Act, a);
    t := Step(a, Act).value;
    ReachesThen(Step, Fresh(), a, Act, t);
  }

  lemma Claims(s: Shared, i: nat) returns (t: Shared)
    requires Reaches(Step, Fresh(), s) && s.mutex == Held(i, Claiming) && Live(s, i) && !s.sessions[i].resetting
    ensures Reaches(Step, Fresh(), t) && t.mutex.Free? && Attached(t, i)
  {
    var a := Step(s, Act).value;
    ReachesThen(Step, Fresh(), s, Act, a);
    var b := Step(a, Act).value;
    ReachesThen(Step, Fresh(), a, Act, b);
    t := Step(b, Act).value;
    ReachesThen(Step, Fresh(), b, Act, t);
  }

  /** With the mutex free, the owner's release can run to its end, and does what `ReleaseFrees` says. */
  lemma ReleaseRuns(s: Shared, i: nat) returns (t: Shared)
    requires Reaches(Step, Fresh(), s) && s.mutex.Free? && Owner(s, i)
    ensures Reaches(Step, Fresh(), t) && t.mutex.Free? && !t.attached && t.activePid == 0
    ensures Live(t, i) && !t.sessions[i].owns
  {
    var a := Step(s, LockToRelease(i, false)).value;
    ReachesThen(Step, Fresh(), s, LockToRelease(i, false), a);
    var b := Step(a, Act).value;
    ReachesThen(Step, Fresh(), a, Act, b);
    var c := Step(b, Act).value;
    ReachesThen(Step, Fresh(), b, Act, c);
    var d := Step(c, Act).value;
    ReachesThen(Step, Fresh(), c, Act, d);
    t := Step(d, FinishReset(i)).value;
    ReachesThen(Step, Fresh(), d, FinishReset(i), t);
  }

  /** A mutex whose holder died refuses the session that finds it, once: nothing in the header changes,
      and the next attach runs to its end. */
  lemma AbandonedRefusesOnce(s: Shared, i: nat, timedOut: bool) returns (t: Shared)
    requires Reaches(Step, Fresh(), s) && s.mutex.Abandoned? && Live(s, i) && !s.sessions[i].owns
    ensures Step(s, LockToAcquire(i, timedOut)) == Some(s.(mutex := Free))
    ensures Reaches(Step, Fresh(), t) && t.mutex.Free?
    ensures Claimable(s) ==> Attached(t, i)
    ensures !Claimable(s) ==> t == s.(mutex := Free)
  {
    var a := Step(s, LockToAcquire(i, timedOut)).value;
    ReachesThen(Step, Fresh(), s, LockToAcquire(i, timedOut), a);
    t := AttachRuns(a, i);
  }
}
