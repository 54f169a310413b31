/** Exclusive client attachment, memrpc/src/core/session.cpp:33-71, 126-136, 314-341, 381-429.

    Any number of processes, each with any number of client sessions, race for one claim in the
    shared header under a robust process-shared mutex.  A process may die at any point, also
    while it holds the mutex or between two stores to the header; its pid may then be reused.
    Taking the mutex may time out.
 */
module Attachment {
  import opened Runs

  datatype Process = Process(pid: nat, alive: bool)

  /** `owns` is `ownsClientAttachment_`.  `Reset` clears it some time after the release has given
      up the mutex; `resetting` says that the session is between the two. */
  datatype Session = Session(process: nat, owns: bool, resetting: bool)

  /** The next thing that the session holding the mutex does. */
  datatype Point =
    | Testing | ClearingStale | ErasingStale | Claiming | StoringPid | Claimed
    | Withdrawing | ClearingPid | Withdrawn

  datatype Mutex = Free | Held(session: nat, point: Point) | Abandoned

  datatype Shared = Shared(
    attached: bool, activePid: nat, mutex: Mutex, processes: seq<Process>, sessions: seq<Session>)

  /** `Act` is the next store or test of the session that holds the mutex. */
  datatype Label =
    | Spawn(pid: nat) | Die(process: nat) | NewSession(process: nat)
    | LockToAcquire(session: nat, timedOut: bool) | LockToRelease(session: nat, timedOut: bool)
    | Act | FinishReset(session: nat)

  function Fresh(): (s: Shared) {
    Shared(false, 0, Free, [], [])
  }

  /** `ProcessIsAlive`: some living process has this pid. */
  predicate PidAlive(s: Shared, pid: nat) {
    pid != 0 && exists p | 0 <= p < |s.processes| :: s.processes[p].alive && s.processes[p].pid == pid
  }

  predicate Live(s: Shared, i: nat) {
    i < |s.sessions| && s.sessions[i].process < |s.processes| && s.processes[s.sessions[i].process].alive
  }

  function PidOf(s: Shared, i: nat): (pid: nat)
    requires Live(s, i)
  {
    s.processes[s.sessions[i].process].pid
  }

  /** The session has left `ReleaseClientAttachment` and goes on resetting. */
  function Leave(s: Shared, i: nat): (r: Shared)
    requires i < |s.sessions|
  {
    s.(sessions := s.sessions[i := s.sessions[i].(resetting := true)])
  }

  function At(s: Shared, point: Point): (r: Shared)
    requires s.mutex.Held?
  {
    s.(mutex := Held(s.mutex.session, point))
  }

  /** `TryAcquireClientAttachment` and `ReleaseClientAttachment` under the mutex. */
  function Inside(s: Shared): (next: Option<Shared>) {
    if !s.mutex.Held? || !Live(s, s.mutex.session) then None else
    var i := s.mutex.session;
    match s.mutex.point
    case Testing =>
      if !s.attached then Some(At(s, Claiming))
      else if PidAlive(s, s.activePid) then Some(s.(mutex := Free))
      else Some(At(s, ClearingStale))
    case ClearingStale => Some(At(s, ErasingStale).(attached := false))
    case ErasingStale => Some(At(s, Claiming).(activePid := 0))
    case Claiming => Some(At(s, StoringPid).(attached := true))
    case StoringPid => Some(At(s, Claimed).(activePid := PidOf(s, i)))
    case Claimed => Some(s.(sessions := s.sessions[i := s.sessions[i].(owns := true)], mutex := Free))
    case Withdrawing => Some(At(s, ClearingPid).(attached := false))
    case ClearingPid => Some(At(s, Withdrawn).(activePid := 0))
    case Withdrawn => Some(Leave(s, i).(mutex := Free))
  }

  function Step(s: Shared, l: Label): (next: Option<Shared>) {
    match l
    case Spawn(pid) =>
      if pid != 0 && !PidAlive(s, pid) then Some(s.(processes := s.processes + [Process(pid, true)])) else None
    case Die(p) =>
      if p < |s.processes| then
        Some(s.(processes := s.processes[p := s.processes[p].(alive := false)],
                mutex := if s.mutex.Held? && s.mutex.session < |s.sessions| && s.sessions[s.mutex.session].process == p
                         then Abandoned else s.mutex))
      else None
    case NewSession(p) =>
      if p < |s.processes| && s.processes[p].alive
      then Some(s.(sessions := s.sessions + [Session(p, false, false)])) else None
    case LockToAcquire(i, timedOut) =>
      if !Live(s, i) || s.sessions[i].owns || (s.mutex.Held? && s.mutex.session == i) then None
      else if s.mutex.Abandoned? then Some(s.(mutex := Free))     // EOWNERDEAD: made consistent, reported, not taken
      else if timedOut || s.mutex.Held? then Some(s)
      else Some(s.(mutex := Held(i, Testing)))
    case LockToRelease(i, timedOut) =>
      if !Owner(s, i) || (s.mutex.Held? && s.mutex.session == i) then None
      else if s.mutex.Abandoned? then Some(Leave(s, i).(mutex := Free))
      else if timedOut || s.mutex.Held? then Some(Leave(s, i))
      else Some(s.(mutex := Held(i, Withdrawing)))
    case Act => Inside(s)
    case FinishReset(i) =>
      if Live(s, i) && s.sessions[i].resetting
      then Some(s.(sessions := s.sessions[i := s.sessions[i].(owns := false, resetting := false)])) else None
  }

  /** A live session that has the attachment and has not left its release. */
  predicate Owner(s: Shared, i: nat) {
    Live(s, i) && s.sessions[i].owns && !s.sessions[i].resetting
  }

  ghost predicate NoOwner(s: Shared) {
    forall i: nat :: !Owner(s, i)
  }

  predicate Releasing(p: Point) {
    p.Withdrawing? || p.ClearingPid? || p.Withdrawn?
  }

  /** The session has begun to take its claim out of the header. */
  predicate GivingUp(s: Shared, i: nat) {
    s.mutex == Held(i, ClearingPid) || s.mutex == Held(i, Withdrawn)
  }

  /** The claim in the header is the claim of the one live owner, unless it is just giving it up. */
  ghost predicate ClaimOk(s: Shared) {
    && (forall i: nat | Owner(s, i) && !GivingUp(s, i) :: s.attached && s.activePid == PidOf(s, i))
    && (forall i: nat, j: nat | Owner(s, i) && Owner(s, j) :: i == j)
  }

  ghost predicate MutexOk(s: Shared) {
    s.mutex.Held? ==>
      && Live(s, s.mutex.session)
      && (Releasing(s.mutex.point) ==> Owner(s, s.mutex.session))
      && (!Releasing(s.mutex.point) ==> !s.sessions[s.mutex.session].owns)
      && (!Releasing(s.mutex.point) && !s.mutex.point.Testing? ==> NoOwner(s))
      && (s.mutex.point.StoringPid? || s.mutex.point.Claimed? ==> s.attached)
      && (s.mutex.point.Claimed? ==> s.activePid == PidOf(s, s.mutex.session))
  }

  ghost predicate TablesOk(s: Shared) {
    && (forall p | 0 <= p < |s.processes| :: s.processes[p].pid != 0)
    && (forall i | 0 <= i < |s.sessions| ::
          s.sessions[i].process < |s.processes| && (s.sessions[i].resetting ==> s.sessions[i].owns))
  }

  ghost predicate Inv(s: Shared) {
    TablesOk(s) && ClaimOk(s) && MutexOk(s)
  }

  lemma OwnerIsClaimed(s: Shared, i: nat)
    requires Inv(s) && Owner(s, i) && !GivingUp(s, i)
    ensures s.attached && PidAlive(s, s.activePid)
  {
    var p := s.sessions[i].process;
    assert s.processes[p].alive && s.processes[p].pid == s.activePid;
  }

  /** Under the mutex only the last step of a claim makes an owner. */
  lemma InsideOwners(s: Shared, i: nat)
    requires Inv(s) && Inside(s).Some? && Owner(Inside(s).value, i)
    ensures Owner(s, i) || (s.mutex.point.Claimed? && i == s.mutex.session)
    ensures PidOf(Inside(s).value, i) == PidOf(s, i)
  {
  }

  /** A claim that is tested and taken over has no owner. */
  lemma TestFindsNoOwner(s: Shared)
    requires Inv(s) && s.mutex.Held? && s.mutex.point.Testing?
    requires !s.attached || !PidAlive(s, s.activePid)
    ensures NoOwner(s)
  {
    forall i: nat ensures !Owner(s, i) {
      if Owner(s, i) { OwnerIsClaimed(s, i); }
    }
  }

  lemma InsideKeepsMutex(s: Shared)
    requires Inv(s) && Inside(s).Some?
    ensures MutexOk(Inside(s).value)
  {
    var n := Inside(s).value;
    if s.mutex.point.Testing? && n.mutex.Held? {
      TestFindsNoOwner(s);
    }
    forall i: nat | Owner(n, i) && !s.mutex.point.Claimed? ensures Owner(s, i) {
      InsideOwners(s, i);
    }
  }

  lemma InsideKeepsTables(s: Shared)
    requires Inv(s) && Inside(s).Some?
    ensures TablesOk(Inside(s).value)
  {
  }

  lemma InsideKeepsClaim(s: Shared, i: nat)
    requires Inv(s) && Inside(s).Some? && Owner(Inside(s).value, i)
    ensures var n := Inside(s).value; GivingUp(n, i) || (n.attached && n.activePid == PidOf(n, i))
  {
    InsideOwners(s, i);
  }

  lemma InsideKeeps(s: Shared)
    requires Inv(s) && Inside(s).Some?
    ensures Inv(Inside(s).value)
  {
    var n := Inside(s).value;
    InsideKeepsTables(s);
    InsideKeepsMutex(s);
    forall i: nat | Owner(n, i) && !GivingUp(n, i) ensures n.attached && n.activePid == PidOf(n, i) {
      InsideKeepsClaim(s, i);
    }
    forall i: nat, j: nat | Owner(n, i) && Owner(n, j) ensures i == j {
      InsideOwners(s, i);
      InsideOwners(s, j);
    }
  }

  /** Outside the mutex no step makes an owner. */
  lemma OutsideOwners(s: Shared, l: Label, i: nat)
    requires Inv(s) && !l.Act? && Step(s, l).Some? && Owner(Step(s, l).value, i)
    ensures Owner(s, i) && PidOf(Step(s, l).value, i) == PidOf(s, i)
  {
  }

  lemma ProcessKeeps(s: Shared, l: Label)
    requires Inv(s) && (l.Spawn? || l.Die? || l.NewSession?) && Step(s, l).Some?
    ensures Inv(Step(s, l).value)
  {
    var n := Step(s, l).value;
    forall i: nat | Owner(n, i) ensures Owner(s, i) && PidOf(n, i) == PidOf(s, i) {
      OutsideOwners(s, l, i);
    }
    assert n.mutex.Held? ==> n.mutex == s.mutex && Live(n, n.mutex.session)
                             && n.sessions[n.mutex.session] == s.sessions[n.mutex.session];
  }

  lemma LockKeeps(s: Shared, l: Label)
    requires Inv(s) && (l.LockToAcquire? || l.LockToRelease? || l.FinishReset?) && Step(s, l).Some?
    ensures Inv(Step(s, l).value)
  {
    var n := Step(s, l).value;
    forall i: nat | Owner(n, i) ensures Owner(s, i) && PidOf(n, i) == PidOf(s, i) {
      OutsideOwners(s, l, i);
    }
  }

  lemma StepKeeps(s: Shared, l: Label)
    requires Inv(s) && Step(s, l).Some?
    ensures Inv(Step(s, l).value)
  {
    if l.Act? {
      InsideKeeps(s);
    } else if l.Spawn? || l.Die? || l.NewSession? {
      ProcessKeeps(s, l);
    } else {
      LockKeeps(s, l);
    }
  }

  lemma RunKeeps(run: seq<Label>)
    requires Exec(Step, Fresh(), run).Some?
    ensures Inv(Exec(Step, Fresh(), run).value)
  {
    forall s: Shared, l: Label | Inv(s) && Step(s, l).Some? ensures Inv(Step(s, l).value) {
      StepKeeps(s, l);
    }
    Invariant(Step, Inv, Fresh(), run);
  }

  /** Over all sequences of attach, release, death and reclaim: at most one live session owns the
      attachment, and the header names its process until it takes its claim back.  A second flag
      can be set only in a session that has left its release and has not finished resetting. */
  lemma ExclusiveAttachment(run: seq<Label>, s: Shared, i: nat, j: nat)
    requires Exec(Step, Fresh(), run) == Some(s)
    requires Live(s, i) && s.sessions[i].owns && Live(s, j) && s.sessions[j].owns
    ensures i == j || s.sessions[i].resetting || s.sessions[j].resetting
    ensures !s.sessions[i].resetting && !GivingUp(s, i) ==> s.attached && s.activePid == PidOf(s, i)
  {
    RunKeeps(run);
    assert !s.sessions[i].resetting ==> Owner(s, i);
    assert !s.sessions[j].resetting ==> Owner(s, j);
  }

  /** The claim leaves the header in two ways only: the one owner withdraws it and the pid it
      erases is its own, or an attach clears it when no live session owns it. */
  lemma ReleaseClearsOwnClaim(run: seq<Label>, s: Shared, l: Label)
    requires Exec(Step, Fresh(), run) == Some(s) && Step(s, l).Some?
    requires s.attached && !Step(s, l).value.attached
    ensures s.mutex.Held? && Live(s, s.mutex.session)
    ensures if s.mutex.point.Withdrawing?
            then s.activePid == PidOf(s, s.mutex.session) && forall i: nat :: Owner(s, i) <==> i == s.mutex.session
            else s.mutex.point.ClearingStale? && NoOwner(s)
  {
    RunKeeps(run);
    if s.mutex.point.Withdrawing? {
      assert Owner(s, s.mutex.session);
    }
  }

  /** Only a dead claim is taken over: a session that becomes owner finds no live owner. */
  lemma AcquireFindsNoOwner(run: seq<Label>, s: Shared, l: Label, i: nat, j: nat)
    requires Exec(Step, Fresh(), run) == Some(s) && Step(s, l).Some?
    requires !Owner(s, i) && Owner(Step(s, l).value, i)
    ensures !Owner(s, j)
  {
    RunKeeps(run);
    if l.Act? {
      InsideOwners(s, i);
    }
  }

  // --- A claim without an owner ------------------------------------------------------------------

  /** Nobody is in the mutex and nobody owns the attachment, yet the header names a living process. */
  ghost predicate Stuck(s: Shared) {
    s.mutex.Free? && s.attached && PidAlive(s, s.activePid) && NoOwner(s)
  }

  /** The claim names the living process `p`, and no session that has it or is about to. */
  ghost predicate Blocked(s: Shared, p: nat) {
    && Inv(s) && s.attached && NoOwner(s) && (s.mutex.Held? ==> s.mutex.point.Testing?)
    && p < |s.processes| && s.processes[p].alive && s.processes[p].pid == s.activePid
  }

  lemma BlockedStep(s: Shared, l: Label, p: nat)
    requires Blocked(s, p) && l != Die(p) && Step(s, l).Some?
    ensures Blocked(Step(s, l).value, p)
  {
    var n := Step(s, l).value;
    StepKeeps(s, l);
    forall i: nat ensures !Owner(n, i) {
      if Owner(n, i) {
        if l.Act? { InsideOwners(s, i); } else { OutsideOwners(s, l, i); }
      }
    }
    assert PidAlive(s, s.activePid);
  }

  lemma {:induction false} BlockedRun(s: Shared, run: seq<Label>, p: nat)
    requires Blocked(s, p) && Die(p) !in run && Exec(Step, s, run).Some?
    ensures Blocked(Exec(Step, s, run).value, p)
    decreases |run|
  {
    if run != [] {
      BlockedStep(s, run[0], p);
      BlockedRun(Step(s, run[0]).value, run[1..], p);
    }
  }

  /** A stuck claim locks everybody out: until the process it names dies, no attach succeeds in any
      continuation. */
  lemma StuckLocksOut(before: seq<Label>, s: Shared, p: nat, run: seq<Label>, t: Shared)
    requires Exec(Step, Fresh(), before) == Some(s) && Stuck(s)
    requires p < |s.processes| && s.processes[p].alive && s.processes[p].pid == s.activePid
    requires Die(p) !in run && Exec(Step, s, run) == Some(t)
    ensures NoOwner(t) && t.attached && t.activePid == s.processes[p].pid
  {
    RunKeeps(before);
    BlockedRun(s, run, p);
    PidFixed(s, run, p);
  }

  lemma {:induction false} PidFixed(s: Shared, run: seq<Label>, p: nat)
    requires p < |s.processes| && Exec(Step, s, run).Some?
    ensures p < |Exec(Step, s, run).value.processes|
    ensures Exec(Step, s, run).value.processes[p].pid == s.processes[p].pid
    decreases |run|
  {
    if run != [] {
      PidFixed(Step(s, run[0]).value, run[1..], p);
    }
  }

  /** A release that does not get the mutex. */
  predicate ReleaseFails(s: Shared, l: Label) {
    l.LockToRelease? && (l.timedOut || !s.mutex.Free?)
  }

  /** A new process gets the pid of an earlier one. */
  predicate ReusesPid(s: Shared, l: Label) {
    l.Spawn? && exists p | 0 <= p < |s.processes| :: s.processes[p].pid == l.pid
  }

  /** The protocol where releases may fail to lock, or not, and pids may be reused, or not. */
  function Under(mayFail: bool, mayReuse: bool): (step: (Shared, Label) -> Option<Shared>) {
    (s: Shared, l: Label) =>
      if (ReleaseFails(s, l) && !mayFail) || (ReusesPid(s, l) && !mayReuse) then None else Step(s, l)
  }

  /** A living process that the header names has an owner, or its session is about to become one. */
  ghost predicate Backed(s: Shared) {
    && (PidAlive(s, s.activePid) ==>
          || (exists i: nat :: Owner(s, i) && PidOf(s, i) == s.activePid)
          || (s.mutex.Held? && s.mutex.point.Claimed?))
    && (s.mutex.Held? && s.mutex.point.Withdrawn? ==> s.activePid == 0)
  }

  /** Without reuse every process has its own pid, and the header names one of them or none. */
  ghost predicate PidsOk(s: Shared) {
    && (forall p, q | 0 <= p < q < |s.processes| :: s.processes[p].pid != s.processes[q].pid)
    && (s.activePid == 0 || exists p | 0 <= p < |s.processes| :: s.processes[p].pid == s.activePid)
  }

  ghost predicate CalmInv(s: Shared) {
    Inv(s) && Backed(s) && PidsOk(s)
  }

  lemma CalmPids(s: Shared, l: Label)
    requires CalmInv(s) && Under(false, false)(s, l).Some?
    ensures PidsOk(Step(s, l).value)
  {
    var n := Step(s, l).value;
    if n.activePid == s.activePid && s.activePid != 0 {
      var p :| 0 <= p < |s.processes| && s.processes[p].pid == s.activePid;
      assert n.processes[p].pid == n.activePid;
    } else if n.activePid != 0 {
      var p := s.sessions[s.mutex.session].process;
      assert n.processes[p].pid == n.activePid;
    }
  }

  lemma CalmInside(s: Shared)
    requires CalmInv(s) && Inside(s).Some?
    ensures Backed(Inside(s).value)
  {
    var n := Inside(s).value;
    var me := s.mutex.session;
    if s.mutex.point.Claimed? {
      assert Owner(n, me) && PidOf(n, me) == n.activePid;
    } else if PidAlive(n, n.activePid) && !(n.mutex.Held? && n.mutex.point.Claimed?) {
      assert PidAlive(s, s.activePid);
      var i: nat :| Owner(s, i) && PidOf(s, i) == s.activePid;
      assert Owner(n, i) && PidOf(n, i) == n.activePid;
    }
  }

  lemma CalmProcess(s: Shared, l: Label)
    requires CalmInv(s) && (l.Spawn? || l.Die? || l.NewSession?) && Under(false, false)(s, l).Some?
    ensures Backed(Step(s, l).value)
  {
    var n := Step(s, l).value;
    if PidAlive(n, n.activePid) {
      var p :| 0 <= p < |n.processes| && n.processes[p].alive && n.processes[p].pid == n.activePid;
      assert p < |s.processes| && s.processes[p].alive;
      assert PidAlive(s, s.activePid);
      if i: nat :| Owner(s, i) && PidOf(s, i) == s.activePid {
        assert s.sessions[i].process == p;
        assert Owner(n, i) && PidOf(n, i) == n.activePid;
      } else {
        assert s.sessions[s.mutex.session].process == p;
      }
    }
  }

  lemma CalmLock(s: Shared, l: Label)
    requires CalmInv(s) && (l.LockToAcquire? || l.LockToRelease? || l.FinishReset?) && Under(false, false)(s, l).Some?
    ensures Backed(Step(s, l).value)
  {
    var n := Step(s, l).value;
    if i: nat :| Owner(s, i) && PidOf(s, i) == s.activePid {
      assert Owner(n, i) && PidOf(n, i) == n.activePid;
    }
  }

  lemma CalmRun(run: seq<Label>, s: Shared)
    requires Exec(Under(false, false), Fresh(), run) == Some(s)
    ensures !Stuck(s)
  {
    var step := Under(false, false);
    forall x: Shared, l: Label | CalmInv(x) && step(x, l).Some? ensures CalmInv(step(x, l).value) {
      StepKeeps(x, l);
      CalmPids(x, l);
      if l.Act? {
        CalmInside(x);
      } else if l.Spawn? || l.Die? || l.NewSession? {
        CalmProcess(x, l);
      } else {
        CalmLock(x, l);
      }
    }
    Invariant(step, CalmInv, Fresh(), run);
  }

  /** A first process attaches. */
  lemma FirstAttach(mayFail: bool, mayReuse: bool) returns (s: Shared)
    ensures Reaches(Under(mayFail, mayReuse), Fresh(), s)
    ensures s == Shared(true, 1, Free, [Process(1, true)], [Session(0, true, false)])
  {
    var step, s0 := Under(mayFail, mayReuse), Fresh();
    ReachesSelf(step, s0);
    var s1 := Step(s0, Spawn(1)).value;
    ReachesThen(step, s0, s0, Spawn(1), s1);
    var s2 := Step(s1, NewSession(0)).value;
    ReachesThen(step, s0, s1, NewSession(0), s2);
    var s3 := Step(s2, LockToAcquire(0, false)).value;
    ReachesThen(step, s0, s2, LockToAcquire(0, false), s3);
    var s4 := Step(s3, Act).value;
    ReachesThen(step, s0, s3, Act, s4);
    var s5 := Step(s4, Act).value;
    ReachesThen(step, s0, s4, Act, s5);
    var s6 := Step(s5, Act).value;
    ReachesThen(step, s0, s5, Act, s6);
    s := Step(s6, Act).value;
    ReachesThen(step, s0, s6, Act, s);
  }

  /** A release that fails to lock leaves its claim behind. */
  lemma FailedReleaseSticks(mayReuse: bool) returns (s: Shared)
    ensures Reaches(Under(true, mayReuse), Fresh(), s) && Stuck(s)
  {
    var step := Under(true, mayReuse);
    var a := FirstAttach(true, mayReuse);
    var b := Step(a, LockToRelease(0, true)).value;
    ReachesThen(step, Fresh(), a, LockToRelease(0, true), b);
    s := Step(b, FinishReset(0)).value;
    ReachesThen(step, Fresh(), b, FinishReset(0), s);
    assert s.processes[0].alive && s.processes[0].pid == s.activePid;
  }

  /** The claim of a dead process is taken for that of a new one with the same pid. */
  lemma ReusedPidSticks(mayFail: bool) returns (s: Shared)
    ensures Reaches(Under(mayFail, true), Fresh(), s) && Stuck(s)
  {
    var step := Under(mayFail, true);
    var a := FirstAttach(mayFail, true);
    var b := Step(a, Die(0)).value;
    ReachesThen(step, Fresh(), a, Die(0), b);
    s := Step(b, Spawn(1)).value;
    ReachesThen(step, Fresh(), b, Spawn(1), s);
    assert s.processes[1].alive && s.processes[1].pid == s.activePid;
  }

  ghost predicate NeverStuck(mayFail: bool, mayReuse: bool) {
    forall run: seq<Label> ::
      var end := Exec(Under(mayFail, mayReuse), Fresh(), run); end.Some? ==> !Stuck(end.value)
  }

  /** No run leaves a stuck claim if and only if no release fails to lock and no pid is reused. */
  lemma StuckExact(mayFail: bool, mayReuse: bool)
    ensures NeverStuck(mayFail, mayReuse) <==> !mayFail && !mayReuse
  {
    if !mayFail && !mayReuse {
      forall run: seq<Label> | Exec(Under(false, false), Fresh(), run).Some?
        ensures !Stuck(Exec(Under(false, false), Fresh(), run).value)
      {
        CalmRun(run, Exec(Under(false, false), Fresh(), run).value);
      }
    } else {
      var s: Shared;
      if mayFail { s := FailedReleaseSticks(mayReuse); } else { s := ReusedPidSticks(mayFail); }
      var run: seq<Label> :| Exec(Under(mayFail, mayReuse), Fresh(), run) == Some(s);
      assert Stuck(Exec(Under(mayFail, mayReuse), Fresh(), run).value);
    }
  }
}
