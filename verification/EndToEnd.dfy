/** A call from the client through the rings to the handler and back, with payloads inline or in
    files, across any number of sessions.

    Client side: memrpc/src/client/rpc_client.cpp:1123-1146, 1214-1240, 2108-2193.
    Server side: memrpc/src/server/rpc_server.cpp:408-457, 459-506, 532-555, 604-645.
    Entries of all rings of all sessions travel in `requests` and `responses` and may be
    consumed in any order, dropped with their session, or have their payload file swept away at
    any time; that includes what the rings do.  A push may publish its entry and still be
    reported as failed, and is then repeated.  Generated file names are never reused.
    `content`, `executed` and the field `payload` of a response are history.
 */
module EndToEnd {
  import opened Runs
  import opened ClientTypes
  import opened ByteCodec
  import opened Envelope
  import opened FilePayload

  datatype Call = Call(opcode: nat, payload: seq<Byte>)
  datatype Request = Request(id: nat, opcode: nat, bytes: seq<Byte>, kind: Byte)
  datatype Answer = Answer(id: nat, status: Status, payload: seq<Byte>)
  datatype Response = Response(id: nat, status: Status, bytes: seq<Byte>, kind: Byte, payload: seq<Byte>)
  datatype Reply = Reply(status: Status, payload: seq<Byte>)

  /** A handler ran for request `id` on this opcode and payload and produced this reply. */
  datatype Execution = Execution(id: nat, opcode: nat, input: seq<Byte>, status: Status, output: seq<Byte>)

  datatype World = World(
    dir: Path,
    files: Files,
    content: Files,
    calls: seq<Call>,
    pending: set<nat>,
    requests: seq<Request>,
    tasks: seq<Request>,
    answers: seq<Answer>,
    responses: seq<Response>,
    executed: set<Execution>,
    replies: map<nat, Reply>)

  datatype PushOutcome = Pushed | Refused | PublishedButFailed

  /** What the server does with a request: reject it unread, find no handler, or run one. */
  datatype Treatment = RejectUnread(status: Status) | NoHandler | Handle(status: Status, output: seq<Byte>)

  datatype Label =
    | Invoke(call: Call)
    | PushRequest(id: nat, limit: nat, io: WriteIo, outcome: PushOutcome)
    | StartTask(which: nat)
    | Execute(which: nat, treatment: Treatment, readOk: bool)
    | WriteResponse(which: nat, limit: nat, io: WriteIo, delivered: bool)
    | TakeResponse(which: nat, readOk: bool)
    | DropRequest(which: nat)
    | DropTask(which: nat)
    | DropResponse(which: nat)
    | SweepFile(path: Path)

  function Start(dir: Path, existing: Files): (w: World) {
    World(dir, existing, existing, [], {}, [], [], [], [], {}, map[])
  }

  function Without<T>(s: seq<T>, i: nat): (r: seq<T>)
    requires i < |s|
    ensures forall x | x in r :: x in s
  {
    s[..i] + s[i + 1..]
  }

  /** The name is well formed and its path was never used before. */
  predicate FreshName(w: World, io: WriteIo) {
    GeneratedName(io.name) && PathFor(w.dir, io.name) !in w.content
  }

  /** The history after a prepare: a file that was left behind keeps its content on record. */
  function Recorded(w: World, payload: seq<Byte>, io: WriteIo, p: Prepared): (c: Files) {
    var path := PathFor(w.dir, io.name);
    if path in p.files then w.content[path := payload] else w.content
  }

  function StepPush(w: World, l: Label): (next: Option<World>)
    requires l.PushRequest?
  {
    if l.id >= |w.calls| || !FreshName(w, l.io) then None else
    var call := w.calls[l.id];
    var p := Prepare(w.files, w.dir, call.payload, l.limit, l.io);
    var content := Recorded(w, call.payload, l.io, p);
    if !p.ok then
      // PayloadTooLarge: the call fails without an entry
      Some(w.(files := p.files, content := content))
    else
      var entry := Request(l.id, call.opcode, p.bytes, p.kind);
      match l.outcome
      case Pushed =>
        Some(w.(files := p.files, content := content, requests := w.requests + [entry], pending := w.pending + {l.id}))
      case Refused =>
        Some(w.(files := RemovedFromTransport(p.files, w.dir, p.bytes, p.kind), content := content,
                pending := w.pending - {l.id}))
      case PublishedButFailed =>
        Some(w.(files := RemovedFromTransport(p.files, w.dir, p.bytes, p.kind), content := content,
                requests := w.requests + [entry], pending := w.pending - {l.id}))
  }

  function StepExecute(w: World, l: Label): (next: Option<World>)
    requires l.Execute?
  {
    if l.which >= |w.tasks| then None else
    var e := w.tasks[l.which];
    var rest := w.(tasks := Without(w.tasks, l.which));
    match l.treatment
    case RejectUnread(status) =>
      if status.ProtocolMismatch? || status.PayloadTooLarge?
      then Some(rest.(answers := w.answers + [Answer(e.id, status, [])])) else None
    case NoHandler => Some(rest.(answers := w.answers + [Answer(e.id, InvalidArgument, [])]))
    case Handle(status, output) =>
      var f := Resolve(w.files, w.dir, e.bytes, e.kind, l.readOk);
      if f.payload.None?
      then Some(rest.(files := f.files, answers := w.answers + [Answer(e.id, ProtocolMismatch, [])]))
      else Some(rest.(files := f.files, answers := w.answers + [Answer(e.id, status, output)],
                      executed := w.executed + {Execution(e.id, e.opcode, f.payload.value, status, output)}))
  }

  function StepWrite(w: World, l: Label): (next: Option<World>)
    requires l.WriteResponse?
  {
    if l.which >= |w.answers| || !FreshName(w, l.io) then None else
    var a := w.answers[l.which];
    var rest := w.(answers := Without(w.answers, l.which));
    var p := Prepare(w.files, w.dir, a.payload, l.limit, l.io);
    if !p.ok then
      Some(rest.(files := p.files, content := Recorded(w, a.payload, l.io, p),
                 responses := if l.delivered then w.responses + [Response(a.id, PayloadTooLarge, [], INLINE_KIND, [])]
                              else w.responses))
    else if l.delivered then
      Some(rest.(files := p.files, content := Recorded(w, a.payload, l.io, p),
                 responses := w.responses + [Response(a.id, a.status, p.bytes, p.kind, a.payload)]))
    else
      Some(rest.(files := RemovedFromTransport(p.files, w.dir, p.bytes, p.kind),
                 content := Recorded(w, a.payload, l.io, p)))
  }

  /** `ResolveEntryPayload` and the reply it leads to. */
  function ReplyFor(w: World, e: Response, readOk: bool): (r: Reply) {
    if e.kind == INLINE_KIND then Reply(e.status, e.bytes)
    else if e.kind != FILE_KIND then Reply(ProtocolMismatch, [])
    else
      var f := Resolve(w.files, w.dir, e.bytes, e.kind, readOk);
      if f.payload.None? then Reply(PeerDisconnected, []) else Reply(e.status, f.payload.value)
  }

  function StepTake(w: World, l: Label): (next: Option<World>)
    requires l.TakeResponse?
  {
    if l.which >= |w.responses| then None else
    var e := w.responses[l.which];
    var rest := w.(responses := Without(w.responses, l.which));
    if e.id !in w.pending then
      Some(rest.(files := RemovedFromTransport(w.files, w.dir, e.bytes, e.kind)))
    else
      Some(rest.(pending := w.pending - {e.id},
                 files := Resolve(w.files, w.dir, e.bytes, e.kind, l.readOk).files,
                 replies := if e.id in w.replies then w.replies else w.replies[e.id := ReplyFor(w, e, l.readOk)]))
  }

  function Step(w: World, l: Label): (next: Option<World>) {
    match l
    case Invoke(call) => Some(w.(calls := w.calls + [call]))
    case PushRequest(_, _, _, _) => StepPush(w, l)
    case StartTask(i) =>
      if i < |w.requests|
      then Some(w.(tasks := w.tasks + [w.requests[i]], requests := Without(w.requests, i))) else None
    case Execute(_, _, _) => StepExecute(w, l)
    case WriteResponse(_, _, _, _) => StepWrite(w, l)
    case TakeResponse(_, _) => StepTake(w, l)
    case DropRequest(i) => if i < |w.requests| then Some(w.(requests := Without(w.requests, i))) else None
    case DropTask(i) => if i < |w.tasks| then Some(w.(tasks := Without(w.tasks, i))) else None
    case DropResponse(i) => if i < |w.responses| then Some(w.(responses := Without(w.responses, i))) else None
    case SweepFile(path) => Some(w.(files := w.files - {path}))
  }

  // --- Invariant ------------------------------------------------------------------------------

  /** Files still hold what was written to them. */
  ghost predicate FilesOk(files: Files, content: Files) {
    forall p | p in files :: p in content && files[p] == content[p]
  }

  /** The transport bytes stand for `payload`, inline or through a file. */
  predicate Carries(content: Files, bytes: seq<Byte>, kind: Byte, payload: seq<Byte>) {
    || (kind == INLINE_KIND && bytes == payload)
    || (kind == FILE_KIND && Decode(bytes).Some? && Decode(bytes).value.path in content
        && content[Decode(bytes).value.path] == payload)
  }

  /** Statuses that the framework itself answers with; they come with an empty payload. */
  predicate FrameworkError(s: Status) {
    s.InvalidArgument? || s.ProtocolMismatch? || s.PayloadTooLarge? || s.PeerDisconnected?
  }

  /** The reply is what a handler produced for this very call, or an error of the framework. */
  predicate Justified(calls: seq<Call>, executed: set<Execution>, id: nat, status: Status, payload: seq<Byte>) {
    && id < |calls|
    && (Execution(id, calls[id].opcode, calls[id].payload, status, payload) in executed
        || (FrameworkError(status) && payload == []))
  }

  predicate RequestOk(w: World, e: Request) {
    e.id < |w.calls| && e.opcode == w.calls[e.id].opcode && Carries(w.content, e.bytes, e.kind, w.calls[e.id].payload)
  }

  predicate ResponseOk(w: World, e: Response) {
    Carries(w.content, e.bytes, e.kind, e.payload) && Justified(w.calls, w.executed, e.id, e.status, e.payload)
  }

  ghost predicate Inv(w: World) {
    && FilesOk(w.files, w.content)
    && (forall e | e in w.requests :: RequestOk(w, e))
    && (forall e | e in w.tasks :: RequestOk(w, e))
    && (forall a | a in w.answers :: Justified(w.calls, w.executed, a.id, a.status, a.payload))
    && (forall e | e in w.responses :: ResponseOk(w, e))
    && (forall id | id in w.replies :: Justified(w.calls, w.executed, id, w.replies[id].status, w.replies[id].payload))
  }

  /** The history has only grown. */
  ghost predicate Grown(w: World, n: World) {
    && n.dir == w.dir
    && w.calls <= n.calls && w.executed <= n.executed
    && (forall p | p in w.content :: p in n.content && n.content[p] == w.content[p])
  }

  lemma RequestGrown(w: World, n: World, e: Request)
    requires Grown(w, n) && RequestOk(w, e)
    ensures RequestOk(n, e)
  {
  }

  lemma ResponseGrown(w: World, n: World, e: Response)
    requires Grown(w, n) && ResponseOk(w, e)
    ensures ResponseOk(n, e)
  {
  }

  /** It is enough to look at the files and at what a step adds. */
  lemma OnlyNewMatters(w: World, n: World)
    requires Inv(w) && Grown(w, n) && FilesOk(n.files, n.content)
    requires forall e | e in n.requests :: e in w.requests || RequestOk(n, e)
    requires forall e | e in n.tasks :: e in w.requests || e in w.tasks
    requires forall a | a in n.answers :: a in w.answers || Justified(n.calls, n.executed, a.id, a.status, a.payload)
    requires forall e | e in n.responses :: e in w.responses || ResponseOk(n, e)
    requires forall id | id in n.replies ::
      || (id in w.replies && n.replies[id] == w.replies[id])
      || Justified(n.calls, n.executed, id, n.replies[id].status, n.replies[id].payload)
    ensures Inv(n)
  {
    forall e | e in n.requests ensures RequestOk(n, e) {
      if e in w.requests { RequestGrown(w, n, e); }
    }
    forall e | e in n.tasks ensures RequestOk(n, e) {
      RequestGrown(w, n, e);
    }
    forall e | e in n.responses ensures ResponseOk(n, e) {
      if e in w.responses { ResponseGrown(w, n, e); }
    }
  }

  /** A prepared payload is carried by its transport bytes, and the files stay on record. */
  lemma PreparedCarries(w: World, payload: seq<Byte>, limit: nat, io: WriteIo)
    requires FilesOk(w.files, w.content) && FreshName(w, io)
    ensures var p := Prepare(w.files, w.dir, payload, limit, io);
      && FilesOk(p.files, Recorded(w, payload, io, p))
      && (p.ok ==> Carries(Recorded(w, payload, io, p), p.bytes, p.kind, payload))
  {
    var p := Prepare(w.files, w.dir, payload, limit, io);
    if p.ok && p.kind == FILE_KIND {
      PreparedReference(w.files, w.dir, payload, limit, io);
    }
  }

  lemma RemovalKeepsFiles(files: Files, content: Files, dir: Path, bytes: seq<Byte>, kind: Byte, readOk: bool)
    requires FilesOk(files, content)
    ensures FilesOk(RemovedFromTransport(files, dir, bytes, kind), content)
    ensures FilesOk(Resolve(files, dir, bytes, kind, readOk).files, content)
  {
  }

  /** Resolving transport bytes gives the payload they carry, or nothing. */
  lemma ResolvedIsCarried(w: World, bytes: seq<Byte>, kind: Byte, payload: seq<Byte>, readOk: bool)
    requires FilesOk(w.files, w.content) && Carries(w.content, bytes, kind, payload)
    ensures var f := Resolve(w.files, w.dir, bytes, kind, readOk); f.payload.Some? ==> f.payload.value == payload
  {
  }

  /** A push leaves all but the files, the requests and the pending set alone. */
  lemma PushShape(w: World, l: Label)
    requires l.PushRequest? && StepPush(w, l).Some?
    ensures FreshName(w, l.io)
    ensures var n, payload := StepPush(w, l).value, w.calls[l.id].payload;
      var p := Prepare(w.files, w.dir, payload, l.limit, l.io);
      && n == w.(files := n.files, requests := n.requests, pending := n.pending,
                 content := Recorded(w, payload, l.io, p))
      && (n.files == p.files || n.files == RemovedFromTransport(p.files, w.dir, p.bytes, p.kind))
  {
  }

  lemma PushGrows(w: World, l: Label)
    requires l.PushRequest? && StepPush(w, l).Some?
    ensures Grown(w, StepPush(w, l).value)
  {
    PushShape(w, l);
  }

  lemma PushFiles(w: World, l: Label)
    requires FilesOk(w.files, w.content) && l.PushRequest? && StepPush(w, l).Some?
    ensures FilesOk(StepPush(w, l).value.files, StepPush(w, l).value.content)
  {
    var payload := w.calls[l.id].payload;
    var p := Prepare(w.files, w.dir, payload, l.limit, l.io);
    PushShape(w, l);
    PreparedCarries(w, payload, l.limit, l.io);
    RemovalKeepsFiles(p.files, Recorded(w, payload, l.io, p), w.dir, p.bytes, p.kind, true);
  }

  lemma PushedEntryOk(w: World, l: Label, e: Request)
    requires Inv(w) && l.PushRequest? && StepPush(w, l).Some? && e in StepPush(w, l).value.requests
    ensures e in w.requests || RequestOk(StepPush(w, l).value, e)
  {
    PreparedCarries(w, w.calls[l.id].payload, l.limit, l.io);
  }

  lemma PushKeeps(w: World, l: Label)
    requires Inv(w) && l.PushRequest? && StepPush(w, l).Some?
    ensures Inv(StepPush(w, l).value)
  {
    var n := StepPush(w, l).value;
    PushGrows(w, l);
    PushFiles(w, l);
    forall e | e in n.requests ensures e in w.requests || RequestOk(n, e) {
      PushedEntryOk(w, l, e);
    }
    OnlyNewMatters(w, n);
  }

  /** What the server answers to a request is justified. */
  lemma AnswerJustified(w: World, l: Label, a: Answer)
    requires Inv(w) && l.Execute? && StepExecute(w, l).Some? && a in StepExecute(w, l).value.answers
    ensures a in w.answers
            || Justified(w.calls, StepExecute(w, l).value.executed, a.id, a.status, a.payload)
  {
    var e := w.tasks[l.which];
    assert RequestOk(w, e);
    ResolvedIsCarried(w, e.bytes, e.kind, w.calls[e.id].payload, l.readOk);
  }

  lemma ExecuteFiles(w: World, l: Label)
    requires FilesOk(w.files, w.content) && l.Execute? && StepExecute(w, l).Some?
    ensures FilesOk(StepExecute(w, l).value.files, w.content)
  {
    var e := w.tasks[l.which];
    RemovalKeepsFiles(w.files, w.content, w.dir, e.bytes, e.kind, l.readOk);
  }

  /** Executing a task takes it away and leaves all but the files and the answers alone. */
  lemma ExecuteShape(w: World, l: Label)
    requires l.Execute? && StepExecute(w, l).Some?
    ensures var n := StepExecute(w, l).value;
      && n == w.(files := n.files, answers := n.answers, executed := n.executed, tasks := Without(w.tasks, l.which))
      && w.executed <= n.executed
  {
  }

  lemma ExecuteKeeps(w: World, l: Label)
    requires Inv(w) && l.Execute? && StepExecute(w, l).Some?
    ensures Inv(StepExecute(w, l).value)
  {
    var n := StepExecute(w, l).value;
    ExecuteFiles(w, l);
    ExecuteShape(w, l);
    forall a | a in n.answers
      ensures a in w.answers || Justified(n.calls, n.executed, a.id, a.status, a.payload)
    {
      AnswerJustified(w, l, a);
    }
    OnlyNewMatters(w, n);
  }

  lemma WriteKeeps(w: World, l: Label)
    requires Inv(w) && l.WriteResponse? && StepWrite(w, l).Some?
    ensures Inv(StepWrite(w, l).value)
  {
    var n := StepWrite(w, l).value;
    var a := w.answers[l.which];
    assert Justified(w.calls, w.executed, a.id, a.status, a.payload);
    var p := Prepare(w.files, w.dir, a.payload, l.limit, l.io);
    PreparedCarries(w, a.payload, l.limit, l.io);
    RemovalKeepsFiles(p.files, n.content, w.dir, p.bytes, p.kind, true);
    OnlyNewMatters(w, n);
  }

  lemma TakenReplyJustified(w: World, e: Response, readOk: bool)
    requires FilesOk(w.files, w.content) && ResponseOk(w, e)
    ensures var r := ReplyFor(w, e, readOk); Justified(w.calls, w.executed, e.id, r.status, r.payload)
  {
    ResolvedIsCarried(w, e.bytes, e.kind, e.payload, readOk);
  }

  lemma TakeKeeps(w: World, l: Label)
    requires Inv(w) && l.TakeResponse? && StepTake(w, l).Some?
    ensures Inv(StepTake(w, l).value)
  {
    var n := StepTake(w, l).value;
    var e := w.responses[l.which];
    assert ResponseOk(w, e);
    RemovalKeepsFiles(w.files, w.content, w.dir, e.bytes, e.kind, l.readOk);
    TakenReplyJustified(w, e, l.readOk);
    OnlyNewMatters(w, n);
  }

  lemma StepKeeps(w: World, l: Label)
    requires Inv(w) && Step(w, l).Some?
    ensures Inv(Step(w, l).value)
  {
    match l
    case PushRequest(_, _, _, _) => PushKeeps(w, l);
    case Execute(_, _, _) => ExecuteKeeps(w, l);
    case WriteResponse(_, _, _, _) => WriteKeeps(w, l);
    case TakeResponse(_, _) => TakeKeeps(w, l);
    case _ => OnlyNewMatters(w, Step(w, l).value);
  }

  /** End-to-end transparency: over every run, a reply delivered from a response ring is the
      output of a handler execution for that call's own opcode and payload, whichever way each
      direction travelled, or an error of the framework with an empty payload. */
  lemma Transparency(dir: Path, existing: Files, run: seq<Label>, w: World, id: nat)
    requires Exec(Step, Start(dir, existing), run) == Some(w) && id in w.replies
    ensures id < |w.calls|
    ensures var r := w.replies[id];
      || Execution(id, w.calls[id].opcode, w.calls[id].payload, r.status, r.payload) in w.executed
      || (FrameworkError(r.status) && r.payload == [])
  {
    forall x: World, l: Label | Inv(x) && Step(x, l).Some? ensures Inv(Step(x, l).value) {
      StepKeeps(x, l);
    }
    Invariant(Step, Inv, Start(dir, existing), run);
  }
}
