/** Payload files over whole runs: when a file stays behind that nothing on its way refers to any
    more.  The code cleans up after a refused push, an undelivered response and a late reply; it
    does not where a request is turned away before it is read, and an entry that is dropped with
    its ring leaves its file to the sweep. */
module EndToEndFiles {
  import opened Runs
  import opened ClientTypes
  import opened ByteCodec
  import opened Envelope
  import opened FilePayload
  import opened EndToEnd

  /** What can take an entry away without resolving it. */
  datatype Loss = RejectedUnread | WithoutHandler | RequestDropped | TaskDropped | ResponseDropped

  function LossOf(l: Label): (r: Option<Loss>) {
    match l
    case Execute(_, treatment, _) =>
      (match treatment
       case RejectUnread(_) => Some(RejectedUnread)
       case NoHandler => Some(WithoutHandler)
       case Handle(_, _) => None)
    case DropRequest(_) => Some(RequestDropped)
    case DropTask(_) => Some(TaskDropped)
    case DropResponse(_) => Some(ResponseDropped)
    case _ => None
  }

  /** The same world where only these losses happen. */
  function Losing(losses: set<Loss>): (step: (World, Label) -> Option<World>) {
    (w: World, l: Label) => if LossOf(l).Some? && LossOf(l).value !in losses then None else Step(w, l)
  }

  /** The transport bytes refer to the file `p`. */
  predicate Names(bytes: seq<Byte>, kind: Byte, p: Path) {
    kind == FILE_KIND && Decode(bytes).Some? && Decode(bytes).value.path == p
  }

  ghost predicate InRequests(s: seq<Request>, p: Path) {
    exists e | e in s :: Names(e.bytes, e.kind, p)
  }

  ghost predicate InResponses(s: seq<Response>, p: Path) {
    exists e | e in s :: Names(e.bytes, e.kind, p)
  }

  /** An entry on its way refers to the file. */
  ghost predicate InFlight(w: World, p: Path) {
    InRequests(w.requests, p) || InRequests(w.tasks, p) || InResponses(w.responses, p)
  }

  /** Every file was there before or is referred to by an entry on its way. */
  ghost predicate Tidy(existing: Files, w: World) {
    forall p | p in w.files :: p in existing || InFlight(w, p)
  }

  /** A reference that the directory's own checks let through. */
  predicate Sound(dir: Path, bytes: seq<Byte>, kind: Byte) {
    kind == FILE_KIND ==> Decode(bytes).Some? && Acceptable(dir, Decode(bytes).value)
  }

  ghost predicate AllSound(w: World) {
    && (forall e | e in w.requests :: Sound(w.dir, e.bytes, e.kind))
    && (forall e | e in w.tasks :: Sound(w.dir, e.bytes, e.kind))
    && (forall e | e in w.responses :: Sound(w.dir, e.bytes, e.kind))
  }

  ghost predicate TidyInv(dir: Path, existing: Files, w: World) {
    w.dir == dir && AllSound(w) && Tidy(existing, w)
  }

  // --- Without losses ------------------------------------------------------------------------------

  lemma PreparedEntry(files: Files, dir: Path, payload: seq<Byte>, limit: nat, io: WriteIo)
    requires GeneratedName(io.name) && !HasDotDot(dir)
    ensures var p := Prepare(files, dir, payload, limit, io);
      && (!p.ok ==> p.files == files)
      && (p.ok ==> Sound(dir, p.bytes, p.kind) && forall q | q in p.files :: q in files || Names(p.bytes, p.kind, q))
  {
    var p := Prepare(files, dir, payload, limit, io);
    GeneratedPathInside(dir, io.name);
    if !p.ok {
      FailedPrepareFiles(files, dir, payload, limit, io);
    } else if p.kind == FILE_KIND {
      PreparedReference(files, dir, payload, limit, io);
    }
  }

  /** Resolving or removing a sound reference takes its file away and no other is added. */
  lemma Consumed(files: Files, dir: Path, bytes: seq<Byte>, kind: Byte, readOk: bool, q: Path)
    requires Sound(dir, bytes, kind)
    ensures q in FilePayload.Resolve(files, dir, bytes, kind, readOk).files ==> q in files && !Names(bytes, kind, q)
    ensures q in RemovedFromTransport(files, dir, bytes, kind) ==> q in files && !Names(bytes, kind, q)
  {
  }

  lemma WithoutKeeps<T>(s: seq<T>, i: nat, e: T)
    requires i < |s| && e in s
    ensures e in Without(s, i) || e == s[i]
  {
    var k :| 0 <= k < |s| && s[k] == e;
    if k != i {
      assert Without(s, i)[if k < i then k else k - 1] == e;
    }
  }

  lemma StillRequested(s: seq<Request>, i: nat, p: Path)
    requires i < |s| && InRequests(s, p)
    ensures InRequests(Without(s, i), p) || Names(s[i].bytes, s[i].kind, p)
  {
    var e :| e in s && Names(e.bytes, e.kind, p);
    WithoutKeeps(s, i, e);
  }

  lemma StillResponded(s: seq<Response>, i: nat, p: Path)
    requires i < |s| && InResponses(s, p)
    ensures InResponses(Without(s, i), p) || Names(s[i].bytes, s[i].kind, p)
  {
    var e :| e in s && Names(e.bytes, e.kind, p);
    WithoutKeeps(s, i, e);
  }

  lemma PushTidy(dir: Path, existing: Files, w: World, l: Label)
    requires TidyInv(dir, existing, w) && !HasDotDot(dir) && l.PushRequest? && StepPush(w, l).Some?
    ensures TidyInv(dir, existing, StepPush(w, l).value)
  {
    var n, payload := StepPush(w, l).value, w.calls[l.id].payload;
    var p := Prepare(w.files, dir, payload, l.limit, l.io);
    PushShape(w, l);
    PreparedEntry(w.files, dir, payload, l.limit, l.io);
    PushEntries(w, l);
    forall q | q in n.files ensures q in existing || InFlight(n, q) {
      Consumed(p.files, dir, p.bytes, p.kind, true, q);
      if q in w.files && q !in existing {
        RequestsGrow(w, n, q);
      } else if q !in w.files {
        assert n.requests[|w.requests|] in n.requests;
      }
    }
  }

  /** What a push does to the rings and the files: the entry stays with its file, or the file goes. */
  lemma PushEntries(w: World, l: Label)
    requires l.PushRequest? && StepPush(w, l).Some?
    ensures var n, call := StepPush(w, l).value, w.calls[l.id];
      var p := Prepare(w.files, w.dir, call.payload, l.limit, l.io);
      var entry := Request(l.id, call.opcode, p.bytes, p.kind);
      if !p.ok then n.files == p.files && n.requests == w.requests
      else if l.outcome.Pushed? then n.files == p.files && n.requests == w.requests + [entry]
      else n.files == RemovedFromTransport(p.files, w.dir, p.bytes, p.kind)
           && n.requests == (if l.outcome.Refused? then w.requests else w.requests + [entry])
  {
  }

  lemma RequestsGrow(w: World, n: World, q: Path)
    requires w.requests <= n.requests && n.tasks == w.tasks && n.responses == w.responses && InFlight(w, q)
    ensures InFlight(n, q)
  {
    if e :| e in w.requests && Names(e.bytes, e.kind, q) {
      assert e in n.requests;
    }
  }

  lemma StartTidy(dir: Path, existing: Files, w: World, i: nat)
    requires TidyInv(dir, existing, w) && i < |w.requests|
    ensures TidyInv(dir, existing, w.(tasks := w.tasks + [w.requests[i]], requests := Without(w.requests, i)))
  {
    var n := w.(tasks := w.tasks + [w.requests[i]], requests := Without(w.requests, i));
    assert n.tasks[|w.tasks|] in n.tasks;
    assert forall e | e in w.tasks :: e in n.tasks;
    forall q | q in n.files ensures q in existing || InFlight(n, q) {
      if q !in existing && InRequests(w.requests, q) {
        StillRequested(w.requests, i, q);
      }
    }
  }

  lemma HandleTidy(dir: Path, existing: Files, w: World, l: Label)
    requires TidyInv(dir, existing, w) && l.Execute? && l.treatment.Handle? && StepExecute(w, l).Some?
    ensures TidyInv(dir, existing, StepExecute(w, l).value)
  {
    var n, e := StepExecute(w, l).value, w.tasks[l.which];
    ExecuteShape(w, l);
    assert e in w.tasks;
    forall q | q in n.files ensures q in existing || InFlight(n, q) {
      Consumed(w.files, dir, e.bytes, e.kind, l.readOk, q);
      if q !in existing && InRequests(w.tasks, q) {
        StillRequested(w.tasks, l.which, q);
      }
    }
  }

  lemma WriteTidy(dir: Path, existing: Files, w: World, l: Label)
    requires TidyInv(dir, existing, w) && !HasDotDot(dir) && l.WriteResponse? && StepWrite(w, l).Some?
    ensures TidyInv(dir, existing, StepWrite(w, l).value)
  {
    var n, a := StepWrite(w, l).value, w.answers[l.which];
    var p := Prepare(w.files, dir, a.payload, l.limit, l.io);
    PreparedEntry(w.files, dir, a.payload, l.limit, l.io);
    assert forall e | e in w.responses :: e in n.responses;
    forall q | q in n.files ensures q in existing || InFlight(n, q) {
      Consumed(p.files, dir, p.bytes, p.kind, true, q);
      if q !in w.files {
        assert n.responses[|w.responses|] in n.responses;
      }
    }
  }

  lemma TakeTidy(dir: Path, existing: Files, w: World, l: Label)
    requires TidyInv(dir, existing, w) && l.TakeResponse? && StepTake(w, l).Some?
    ensures TidyInv(dir, existing, StepTake(w, l).value)
  {
    var n, e := StepTake(w, l).value, w.responses[l.which];
    assert e in w.responses;
    forall q | q in n.files ensures q in existing || InFlight(n, q) {
      Consumed(w.files, dir, e.bytes, e.kind, l.readOk, q);
      if q !in existing && InResponses(w.responses, q) {
        StillResponded(w.responses, l.which, q);
      }
    }
  }

  lemma StepTidy(dir: Path, existing: Files, w: World, l: Label)
    requires TidyInv(dir, existing, w) && !HasDotDot(dir) && Losing({})(w, l).Some?
    ensures TidyInv(dir, existing, Step(w, l).value)
  {
    match l
    case PushRequest(_, _, _, _) => PushTidy(dir, existing, w, l);
    case StartTask(i) => StartTidy(dir, existing, w, i);
    case Execute(_, _, _) => HandleTidy(dir, existing, w, l);
    case WriteResponse(_, _, _, _) => WriteTidy(dir, existing, w, l);
    case TakeResponse(_, _) => TakeTidy(dir, existing, w, l);
    case Invoke(_) =>
    case SweepFile(_) =>
  }

  lemma RunTidy(dir: Path, existing: Files, run: seq<Label>, w: World)
    requires !HasDotDot(dir) && Exec(Losing({}), Start(dir, existing), run) == Some(w)
    ensures Tidy(existing, w)
  {
    var step := Losing({});
    forall x: World, l: Label | TidyInv(dir, existing, x) && step(x, l).Some?
      ensures TidyInv(dir, existing, step(x, l).value)
    {
      StepTidy(dir, existing, x, l);
    }
    Invariant(step, (x: World) => TidyInv(dir, existing, x), Start(dir, existing), run);
  }

  // --- With them ------------------------------------------------------------------------------------

  /** The shortest generated path below the directory, and a payload that goes there. */
  const NAME: Path := [48]

  function AllOk(): (io: WriteIo) {
    WriteIo(NAME, true, true, true)
  }

  function Limit(dir: Path): (n: nat) {
    16 + |PathFor(dir, NAME)|
  }

  function Large(dir: Path): (payload: seq<Byte>) {
    seq(Limit(dir) + 1, _ => 0)
  }

  predicate RoomForFiles(dir: Path) {
    |dir| + 2 < PATH_MAX
  }

  lemma LargeGoesToFile(dir: Path)
    requires RoomForFiles(dir)
    ensures var p := Prepare(map[], dir, Large(dir), Limit(dir), AllOk());
      p.ok && p.kind == FILE_KIND && p.files == map[PathFor(dir, NAME) := Large(dir)]
  {
    PrepareExact(map[], dir, Large(dir), Limit(dir), AllOk());
    PreparedReference(map[], dir, Large(dir), Limit(dir), AllOk());
  }

  /** The file is there and no entry refers to it. */
  ghost predicate Leaked(dir: Path, w: World) {
    PathFor(dir, NAME) in w.files && w.requests == [] && w.tasks == [] && w.responses == []
  }

  lemma StepReaches(losses: set<Loss>, from: World, w: World, l: Label, t: World)
    requires Reaches(Losing(losses), from, w) && (LossOf(l).Some? ==> LossOf(l).value in losses)
    requires match l
      case PushRequest(_, _, _, _) => StepPush(w, l) == Some(t)
      case Execute(_, _, _) => StepExecute(w, l) == Some(t)
      case WriteResponse(_, _, _, _) => StepWrite(w, l) == Some(t)
      case _ => Step(w, l) == Some(t)
    ensures Reaches(Losing(losses), from, t)
  {
    ReachesThen(Losing(losses), from, w, l, t);
  }

  lemma NameIsFresh(w: World)
    requires w.content == map[]
    ensures FreshName(w, AllOk())
  {
    assert NAME[0] == 48 && |NAME| == 1;
  }

  /** A world in which a large call was made and nothing else. */
  ghost predicate LargeCalled(dir: Path, w: World) {
    w == Start(dir, map[]).(calls := [Call(0, Large(dir))])
  }

  lemma CallLarge(losses: set<Loss>, dir: Path) returns (t: World)
    ensures Reaches(Losing(losses), Start(dir, map[]), t) && LargeCalled(dir, t)
  {
    var step, s := Losing(losses), Start(dir, map[]);
    ReachesSelf(step, s);
    t := Step(s, Invoke(Call(0, Large(dir)))).value;
    StepReaches(losses, s, s, Invoke(Call(0, Large(dir))), t);
  }

  /** Pushing it makes a file; a push that is refused removes it again if the directory lets it. */
  lemma PushLarge(dir: Path, w: World, outcome: PushOutcome) returns (l: Label)
    requires LargeCalled(dir, w) && RoomForFiles(dir)
    ensures l == PushRequest(0, Limit(dir), AllOk(), outcome) && StepPush(w, l).Some?
    ensures var n := StepPush(w, l).value;
      && n.dir == dir && n.tasks == [] && n.responses == []
      && |n.requests| == (if outcome.Refused? then 0 else 1)
      && (outcome.Pushed? || HasDotDot(dir) ==> PathFor(dir, NAME) in n.files)
  {
    l := PushRequest(0, Limit(dir), AllOk(), outcome);
    NameIsFresh(w);
    LargeGoesToFile(dir);
    PushEntries(w, l);
    PushShape(w, l);
    if HasDotDot(dir) {
      GeneratedPathInside(dir, NAME);
      PreparedReference(map[], dir, Large(dir), Limit(dir), AllOk());
    }
  }

  /** A large request is on its way. */
  lemma LargeRequest(losses: set<Loss>, dir: Path) returns (t: World)
    requires RoomForFiles(dir)
    ensures Reaches(Losing(losses), Start(dir, map[]), t) && t.dir == dir && PathFor(dir, NAME) in t.files
    ensures |t.requests| == 1 && t.tasks == [] && t.responses == []
  {
    var a := CallLarge(losses, dir);
    var push := PushLarge(dir, a, Pushed);
    t := StepPush(a, push).value;
    StepReaches(losses, Start(dir, map[]), a, push, t);
  }

  lemma LargeTask(losses: set<Loss>, dir: Path) returns (t: World)
    requires RoomForFiles(dir)
    ensures Reaches(Losing(losses), Start(dir, map[]), t) && t.dir == dir && PathFor(dir, NAME) in t.files
    ensures t.requests == [] && |t.tasks| == 1 && t.responses == []
  {
    var a := LargeRequest(losses, dir);
    t := Step(a, StartTask(0)).value;
    StepReaches(losses, Start(dir, map[]), a, StartTask(0), t);
  }

  /** A small request was answered with a large output. */
  lemma LargeResponse(losses: set<Loss>, dir: Path) returns (t: World)
    requires RoomForFiles(dir)
    ensures Reaches(Losing(losses), Start(dir, map[]), t) && t.dir == dir && PathFor(dir, NAME) in t.files
    ensures t.requests == [] && t.tasks == [] && |t.responses| == 1
  {
    var step, s := Losing(losses), Start(dir, map[]);
    ReachesSelf(step, s);
    var a := Step(s, Invoke(Call(0, []))).value;
    StepReaches(losses, s, s, Invoke(Call(0, [])), a);
    var push := PushRequest(0, 0, AllOk(), Pushed);
    NameIsFresh(a);
    PushEntries(a, push);
    PushShape(a, push);
    var b := StepPush(a, push).value;
    StepReaches(losses, s, a, push, b);
    var c := Step(b, StartTask(0)).value;
    StepReaches(losses, s, b, StartTask(0), c);
    t := LargeAnswer(losses, dir, c);
  }

  lemma LargeAnswer(losses: set<Loss>, dir: Path, c: World) returns (t: World)
    requires Reaches(Losing(losses), Start(dir, map[]), c) && RoomForFiles(dir) && c.dir == dir
    requires c.files == map[] && c.content == map[] && c.requests == [] && c.answers == [] && c.responses == []
    requires |c.tasks| == 1 && c.tasks[0].kind == INLINE_KIND
    ensures Reaches(Losing(losses), Start(dir, map[]), t) && t.dir == dir && PathFor(dir, NAME) in t.files
    ensures t.requests == [] && t.tasks == [] && |t.responses| == 1
  {
    var step, s := Losing(losses), Start(dir, map[]);
    var handle := Execute(0, Handle(Ok, Large(dir)), true);
    var d := StepExecute(c, handle).value;
    StepReaches(losses, s, c, handle, d);
    assert d.files == map[] && d.answers == [Answer(c.tasks[0].id, Ok, Large(dir))] && d.tasks == [];
    NameIsFresh(d);
    LargeGoesToFile(dir);
    var write := WriteResponse(0, Limit(dir), AllOk(), true);
    t := StepWrite(d, write).value;
    StepReaches(losses, s, d, write, t);
  }

  /** Every loss leaves a file behind. */
  lemma LossLeaks(losses: set<Loss>, dir: Path, loss: Loss) returns (t: World)
    requires loss in losses && RoomForFiles(dir)
    ensures Reaches(Losing(losses), Start(dir, map[]), t) && Leaked(dir, t)
  {
    var w: World;
    var l: Label;
    match loss {
      case RequestDropped => w := LargeRequest(losses, dir); l := DropRequest(0);
      case TaskDropped => w := LargeTask(losses, dir); l := DropTask(0);
      case ResponseDropped => w := LargeResponse(losses, dir); l := DropResponse(0);
      case RejectedUnread => w := LargeTask(losses, dir); l := Execute(0, RejectUnread(ProtocolMismatch), true);
      case WithoutHandler => w := LargeTask(losses, dir); l := Execute(0, NoHandler, true);
    }
    t := Step(w, l).value;
    StepReaches(losses, Start(dir, map[]), w, l, t);
  }

  /** In a directory with a ".." a refused push leaves its file behind. */
  lemma RefusedPushLeaks(losses: set<Loss>, dir: Path) returns (t: World)
    requires HasDotDot(dir) && RoomForFiles(dir)
    ensures Reaches(Losing(losses), Start(dir, map[]), t) && Leaked(dir, t)
  {
    var a := CallLarge(losses, dir);
    var push := PushLarge(dir, a, Refused);
    t := StepPush(a, push).value;
    StepReaches(losses, Start(dir, map[]), a, push, t);
  }

  /** In a directory whose name is too long no file is ever made. */
  lemma NoRoomRun(dir: Path, existing: Files, losses: set<Loss>, run: seq<Label>, w: World)
    requires !RoomForFiles(dir) && Exec(Losing(losses), Start(dir, existing), run) == Some(w)
    ensures Tidy(existing, w)
  {
    var step := Losing(losses);
    var inv := (x: World) => x.dir == dir && x.files.Keys <= existing.Keys;
    forall x: World, l: Label | inv(x) && step(x, l).Some? ensures inv(step(x, l).value) {
      NoRoomStep(dir, existing, x, l);
    }
    Invariant(step, inv, Start(dir, existing), run);
  }

  lemma NoRoomStep(dir: Path, existing: Files, w: World, l: Label)
    requires !RoomForFiles(dir) && w.dir == dir && w.files.Keys <= existing.Keys && Step(w, l).Some?
    ensures Step(w, l).value.dir == dir && Step(w, l).value.files.Keys <= existing.Keys
  {
    match l
    case PushRequest(_, _, _, _) =>
      PushShape(w, l);
      PushEntries(w, l);
    case Execute(_, _, _) => ExecuteShape(w, l);
    case _ =>
  }

  ghost predicate NeverLeaks(dir: Path, losses: set<Loss>) {
    forall existing: Files, run: seq<Label> ::
      var end := Exec(Losing(losses), Start(dir, existing), run); end.Some? ==> Tidy(existing, end.value)
  }

  /** Over all runs, no payload file is left behind that nothing on its way refers to, if and only if
      the directory has no ".." and no request is turned away unread and no entry is dropped; or no
      file can be made there at all. */
  lemma LeaksExact(dir: Path, losses: set<Loss>)
    ensures NeverLeaks(dir, losses) <==> !RoomForFiles(dir) || (!HasDotDot(dir) && losses == {})
  {
    if !RoomForFiles(dir) || (!HasDotDot(dir) && losses == {}) {
      forall existing: Files, run: seq<Label> | Exec(Losing(losses), Start(dir, existing), run).Some?
        ensures Tidy(existing, Exec(Losing(losses), Start(dir, existing), run).value)
      {
        if RoomForFiles(dir) {
          RunTidy(dir, existing, run, Exec(Losing(losses), Start(dir, existing), run).value);
        } else {
          NoRoomRun(dir, existing, losses, run, Exec(Losing(losses), Start(dir, existing), run).value);
        }
      }
    } else {
      var t: World;
      if losses == {} {
        t := RefusedPushLeaks(losses, dir);
      } else {
        var loss :| loss in losses;
        t := LossLeaks(losses, dir, loss);
      }
      var run: seq<Label> :| Exec(Losing(losses), Start(dir, map[]), run) == Some(t);
      assert !Tidy(map[], Exec(Losing(losses), Start(dir, map[]), run).value);
    }
  }
}
