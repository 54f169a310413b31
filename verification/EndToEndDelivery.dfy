/** The other half of transparency: what a caller gets always goes back to one step of the server
    or the client that accounts for it, and a call that nothing goes wrong with comes back with
    exactly what its handler said. */
module EndToEndDelivery {
  import opened Runs
  import opened ClientTypes
  import opened ByteCodec
  import opened Envelope
  import opened FilePayload
  import opened EndToEnd

  /** The step accounts for answering call `id` with `r`: a handler ran on the opcode and payload of
      this very call, or the step is the failure that `r` reports. */
  predicate Accounts(w: World, l: Label, id: nat, r: Reply) {
    match l
    case Execute(i, treatment, readOk) =>
      && i < |w.tasks| && w.tasks[i].id == id < |w.calls|
      && (match treatment
          case RejectUnread(status) => (status.ProtocolMismatch? || status.PayloadTooLarge?) && r == Reply(status, [])
          case NoHandler => r == Reply(InvalidArgument, [])
          case Handle(status, output) =>
            var input := FilePayload.Resolve(w.files, w.dir, w.tasks[i].bytes, w.tasks[i].kind, readOk).payload;
            if input.None? then r == Reply(ProtocolMismatch, [])
            else r == Reply(status, output) && input.value == w.calls[id].payload
                 && w.tasks[i].opcode == w.calls[id].opcode)
    case WriteResponse(i, limit, io, delivered) =>
      && delivered && i < |w.answers| && w.answers[i].id == id
      && !Prepare(w.files, w.dir, w.answers[i].payload, limit, io).ok
      && r == Reply(PayloadTooLarge, [])
    case TakeResponse(i, readOk) =>
      && i < |w.responses| && w.responses[i].id == id && w.responses[i].kind == FILE_KIND
      && Unreadable(w, w.responses[i], readOk)
      && r == Reply(PeerDisconnected, [])
    case _ => false
  }

  predicate Unreadable(w: World, e: Response, readOk: bool) {
    FilePayload.Resolve(w.files, w.dir, e.bytes, e.kind, readOk).payload.None?
  }

  /** Call `id` was answered with `r`, or an answer or a response is on its way to say so. */
  ghost predicate Answered(w: World, id: nat, r: Reply) {
    || (id in w.replies && w.replies[id] == r)
    || (exists a | a in w.answers :: a.id == id && Reply(a.status, a.payload) == r)
    || (exists e | e in w.responses :: e.id == id && Reply(e.status, e.payload) == r)
  }

  /** Executing a task answers its call, and accounts for the answer. */
  lemma ExecuteAnswers(w: World, l: Label) returns (a: Answer)
    requires Inv(w) && l.Execute? && StepExecute(w, l).Some?
    ensures StepExecute(w, l).value.answers == w.answers + [a] && Accounts(w, l, a.id, Reply(a.status, a.payload))
  {
    var e := w.tasks[l.which];
    assert RequestOk(w, e);
    ResolvedIsCarried(w, e.bytes, e.kind, w.calls[e.id].payload, l.readOk);
    a := StepExecute(w, l).value.answers[|w.answers|];
  }

  lemma ExecuteBack(w: World, l: Label, id: nat, r: Reply)
    requires Inv(w) && l.Execute? && StepExecute(w, l).Some? && Answered(StepExecute(w, l).value, id, r)
    ensures Answered(w, id, r) || Accounts(w, l, id, r)
  {
    ExecuteShape(w, l);
    var a := ExecuteAnswers(w, l);
  }

  lemma WriteBack(w: World, l: Label, id: nat, r: Reply)
    requires Inv(w) && l.WriteResponse? && StepWrite(w, l).Some? && Answered(StepWrite(w, l).value, id, r)
    ensures Answered(w, id, r) || Accounts(w, l, id, r)
  {
    var n := StepWrite(w, l).value;
    var a := w.answers[l.which];
    assert a in w.answers;
    if e :| e in n.responses && e.id == id && Reply(e.status, e.payload) == r {
      if e !in w.responses {
        assert e == n.responses[|w.responses|];
      }
    }
  }

  /** A reply taken from a response is what the response stands for, or reports that its file could
      not be read. */
  lemma TakenReply(w: World, e: Response, readOk: bool)
    requires FilesOk(w.files, w.content) && ResponseOk(w, e)
    ensures ReplyFor(w, e, readOk) ==
      if e.kind == FILE_KIND && Unreadable(w, e, readOk)
      then Reply(PeerDisconnected, []) else Reply(e.status, e.payload)
  {
    ResolvedIsCarried(w, e.bytes, e.kind, e.payload, readOk);
  }

  lemma TakeBack(w: World, l: Label, id: nat, r: Reply)
    requires Inv(w) && l.TakeResponse? && StepTake(w, l).Some? && Answered(StepTake(w, l).value, id, r)
    ensures Answered(w, id, r) || Accounts(w, l, id, r)
  {
    var n := StepTake(w, l).value;
    var e := w.responses[l.which];
    assert e in w.responses;
    TakenReply(w, e, l.readOk);
  }

  lemma StepBack(w: World, l: Label, id: nat, r: Reply)
    requires Inv(w) && Step(w, l).Some? && Answered(Step(w, l).value, id, r)
    ensures Answered(w, id, r) || Accounts(w, l, id, r)
  {
    match l
    case PushRequest(_, _, _, _) => PushShape(w, l);
    case Execute(_, _, _) => ExecuteBack(w, l, id, r);
    case WriteResponse(_, _, _, _) => WriteBack(w, l, id, r);
    case TakeResponse(_, _) => TakeBack(w, l, id, r);
    case _ =>
  }

  /** Some step of the run from `w` accounts for answering `id` with `r`. */
  ghost predicate AccountedIn(w: World, run: seq<Label>, id: nat, r: Reply) {
    exists k | 0 <= k < |run| ::
      Exec(Step, w, run[..k]).Some? && Accounts(Exec(Step, w, run[..k]).value, run[k], id, r)
  }

  lemma {:induction false} RunBack(w: World, run: seq<Label>, id: nat, r: Reply)
    requires Inv(w) && Exec(Step, w, run).Some? && Answered(Exec(Step, w, run).value, id, r)
    ensures Answered(w, id, r) || AccountedIn(w, run, id, r)
    decreases |run|
  {
    if run != [] {
      var n := Step(w, run[0]).value;
      StepKeeps(w, run[0]);
      RunBack(n, run[1..], id, r);
      if Answered(n, id, r) {
        StepBack(w, run[0], id, r);
        if Accounts(w, run[0], id, r) {
          assert Exec(Step, w, run[..0]) == Some(w);
        }
      } else {
        var k :| 0 <= k < |run[1..]| && Exec(Step, n, run[1..][..k]).Some?
          && Accounts(Exec(Step, n, run[1..][..k]).value, run[1..][k], id, r);
        assert run[..k + 1][1..] == run[1..][..k];
        assert Exec(Step, w, run[..k + 1]) == Exec(Step, n, run[1..][..k]);
      }
    }
  }

  /** Over every run, whatever a caller got was the output of a handler run on its own opcode and
      payload, or an error that some step of the run had reason to report: the request was rejected
      unread, no handler was registered, the request or the response could not be read, or the
      output could not be prepared. */
  lemma EveryReplyHasACause(dir: Path, existing: Files, run: seq<Label>, w: World, id: nat)
    requires Exec(Step, Start(dir, existing), run) == Some(w) && id in w.replies
    ensures AccountedIn(Start(dir, existing), run, id, w.replies[id])
  {
    RunBack(Start(dir, existing), run, id, w.replies[id]);
  }

  // --- Delivery ----------------------------------------------------------------

  lemma ReachableOk(dir: Path, existing: Files, w: World)
    requires Reaches(Step, Start(dir, existing), w)
    ensures Inv(w) && w.dir == dir
  {
    var run: seq<Label> :| Exec(Step, Start(dir, existing), run) == Some(w);
    forall x: World, l: Label | (Inv(x) && x.dir == dir) && Step(x, l).Some?
      ensures Inv(Step(x, l).value) && Step(x, l).value.dir == dir
    {
      StepKeeps(x, l);
      DirFixed(x, l);
    }
    Invariant(Step, (x: World) => Inv(x) && x.dir == dir, Start(dir, existing), run);
  }

  lemma DirFixed(w: World, l: Label)
    requires Step(w, l).Some?
    ensures Step(w, l).value.dir == w.dir
  {
    match l
    case PushRequest(_, _, _, _) => PushShape(w, l);
    case Execute(_, _, _) => ExecuteShape(w, l);
    case _ =>
  }

  /** In every reachable world, taking the response to a call that is pending and has no reply gives
      the caller the status and the payload that were written, unless their file cannot be read. */
  lemma TakeDelivers(dir: Path, existing: Files, w: World, i: nat, readOk: bool)
    requires Reaches(Step, Start(dir, existing), w) && i < |w.responses|
    requires w.responses[i].id in w.pending && w.responses[i].id !in w.replies
    ensures Step(w, TakeResponse(i, readOk)).Some?
    ensures var e, n := w.responses[i], Step(w, TakeResponse(i, readOk)).value;
      n.replies == w.replies[e.id := if e.kind == FILE_KIND && Unreadable(w, e, readOk)
                                     then Reply(PeerDisconnected, []) else Reply(e.status, e.payload)]
  {
    ReachableOk(dir, existing, w);
    assert w.responses[i] in w.responses;
    TakenReply(w, w.responses[i], readOk);
  }

  /** The request is pushed and started. */
  lemma Submitted(from: World, w: World, id: nat, limit: nat, io: WriteIo) returns (t: World)
    requires Reaches(Step, from, w) && id < |w.calls| && FreshName(w, io)
    requires Prepare(w.files, w.dir, w.calls[id].payload, limit, io).ok
    ensures Reaches(Step, from, t)
    ensures var p := Prepare(w.files, w.dir, w.calls[id].payload, limit, io);
      t == w.(files := p.files, content := Recorded(w, w.calls[id].payload, io, p), pending := w.pending + {id},
              tasks := w.tasks + [Request(id, w.calls[id].opcode, p.bytes, p.kind)])
  {
    var push := PushRequest(id, limit, io, Pushed);
    var a := StepPush(w, push).value;
    ReachesThen(Step, from, w, push, a);
    t := Step(a, StartTask(|w.requests|)).value;
    ReachesThen(Step, from, a, StartTask(|w.requests|), t);
    assert Without(a.requests, |w.requests|) == w.requests;
  }

  /** The handler runs on the payload of the call, and the file that carried it is gone. */
  lemma Handled(from: World, w: World, files: Files, id: nat, status: Status, output: seq<Byte>) returns (t: World)
    requires Reaches(Step, from, w) && |w.tasks| > 0 && id < |w.calls|
    requires var e := w.tasks[|w.tasks| - 1];
      && e.id == id && e.opcode == w.calls[id].opcode
      && FilePayload.Resolve(w.files, w.dir, e.bytes, e.kind, true) == Fetched(files, Some(w.calls[id].payload))
    ensures Reaches(Step, from, t)
    ensures t == w.(files := files, tasks := w.tasks[..|w.tasks| - 1],
                    answers := w.answers + [Answer(id, status, output)],
                    executed := w.executed + {Execution(id, w.calls[id].opcode, w.calls[id].payload, status, output)})
  {
    var last := |w.tasks| - 1;
    var run := Execute(last, Handle(status, output), true);
    t := StepExecute(w, run).value;
    ReachesThen(Step, from, w, run, t);
    assert Without(w.tasks, last) == w.tasks[..last];
  }

  /** The last answer is written to the ring. */
  lemma Written(from: World, w: World, limit: nat, io: WriteIo) returns (t: World)
    requires Reaches(Step, from, w) && |w.answers| > 0 && FreshName(w, io)
    requires Prepare(w.files, w.dir, w.answers[|w.answers| - 1].payload, limit, io).ok
    ensures Reaches(Step, from, t)
    ensures var a := w.answers[|w.answers| - 1];
      var p := Prepare(w.files, w.dir, a.payload, limit, io);
      t == w.(files := p.files, content := Recorded(w, a.payload, io, p), answers := w.answers[..|w.answers| - 1],
              responses := w.responses + [Response(a.id, a.status, p.bytes, p.kind, a.payload)])
  {
    var last := |w.answers| - 1;
    var write := WriteResponse(last, limit, io, true);
    t := StepWrite(w, write).value;
    ReachesThen(Step, from, w, write, t);
    assert Without(w.answers, last) == w.answers[..last];
  }

  /** The last response is taken and delivered. */
  lemma Taken(from: World, w: World, files: Files) returns (t: World)
    requires Reaches(Step, from, w) && |w.responses| > 0
    requires var e := w.responses[|w.responses| - 1];
      && e.id in w.pending && e.id !in w.replies && e.kind in {INLINE_KIND, FILE_KIND}
      && FilePayload.Resolve(w.files, w.dir, e.bytes, e.kind, true) == Fetched(files, Some(e.payload))
    ensures Reaches(Step, from, t) && t.files == files
    ensures var e := w.responses[|w.responses| - 1];
      t.replies == w.replies[e.id := Reply(e.status, e.payload)] && t.pending == w.pending - {e.id}
  {
    var take := TakeResponse(|w.responses| - 1, true);
    t := StepTake(w, take).value;
    ReachesThen(Step, from, w, take, t);
  }

  lemma Delivered(from: World, w: World, limit: nat, io: WriteIo) returns (t: World)
    requires Reaches(Step, from, w) && |w.answers| > 0 && FreshName(w, io) && !HasDotDot(w.dir)
    requires var a := w.answers[|w.answers| - 1];
      a.id in w.pending && a.id !in w.replies && Prepare(w.files, w.dir, a.payload, limit, io).ok
    ensures Reaches(Step, from, t) && t.files == w.files
    ensures var a := w.answers[|w.answers| - 1];
      t.replies == w.replies[a.id := Reply(a.status, a.payload)] && t.pending == w.pending - {a.id}
  {
    PrepareThenResolve(w.files, w.dir, w.answers[|w.answers| - 1].payload, limit, io);
    var b := Written(from, w, limit, io);
    t := Taken(from, b, w.files);
  }

  /** In every reachable world, a call without a reply that is pushed, handled and answered with
      nothing going wrong comes back with the status and the output of its handler, whichever
      direction needed a file, and leaves the files as they were. */
  lemma CallRoundTrip(from: World, w: World, id: nat, limit: nat, io: WriteIo, status: Status, output: seq<Byte>,
                      backLimit: nat, back: WriteIo) returns (t: World)
    requires Reaches(Step, from, w) && id < |w.calls| && id !in w.replies && !HasDotDot(w.dir)
    requires FreshName(w, io) && Prepare(w.files, w.dir, w.calls[id].payload, limit, io).ok
    requires FreshName(w, back) && Prepare(w.files, w.dir, output, backLimit, back).ok && back.name != io.name
    ensures Reaches(Step, from, t) && t.files == w.files
    ensures t.replies == w.replies[id := Reply(status, output)]
  {
    var p := Prepare(w.files, w.dir, w.calls[id].payload, limit, io);
    PrepareThenResolve(w.files, w.dir, w.calls[id].payload, limit, io);
    var a := Submitted(from, w, id, limit, io);
    var b := Handled(from, a, w.files, id, status, output);
    assert PathFor(w.dir, back.name) != PathFor(w.dir, io.name) by {
      assert PathFor(w.dir, back.name)[|w.dir| + 1..] == back.name;
      assert PathFor(w.dir, io.name)[|w.dir| + 1..] == io.name;
    }
    t := Delivered(from, b, backLimit, back);
  }

  lemma FirstReplyStep(w: World, l: Label, id: nat)
    requires Step(w, l).Some? && id in w.replies
    ensures id in Step(w, l).value.replies && Step(w, l).value.replies[id] == w.replies[id]
  {
    match l
    case PushRequest(_, _, _, _) => PushShape(w, l);
    case Execute(_, _, _) => ExecuteShape(w, l);
    case _ =>
  }

  /** The first reply stands, however often the call was pushed and answered. */
  lemma {:induction false} FirstReplyStands(w: World, run: seq<Label>, t: World, id: nat)
    requires Exec(Step, w, run) == Some(t) && id in w.replies
    ensures id in t.replies && t.replies[id] == w.replies[id]
    decreases |run|
  {
    if run != [] {
      FirstReplyStep(w, run[0], id);
      FirstReplyStands(Step(w, run[0]).value, run[1..], t, id);
    }
  }
}
