/** The close/reopen protocol of `EngineSessionService`,
    virus_executor_service/src/service/ves_session_service.cpp:116-189, 213-250.

    Sections under `initMutex_` are single steps; what `CloseSession` does between its two
    sections, and what other threads do meanwhile, interleaves.  Any number of threads open and
    close.  A server is named by the order in which servers were started and a host by the
    order in which hosts were made.  `hosts` (the host of each started server), `stopped` and
    `closed` are history.
 */
module SessionService {
  import opened Runs
  import opened ClientTypes

  /** The fields that `initMutex_` protects. */
  datatype Fields = Fields(
    initialized: bool, closing: bool, host: Option<nat>, server: Option<nat>, sessionId: nat)

  /** Where the thread that is closing has got to, with what it moved out of the fields. */
  datatype Closer =
    | NoCloser
    | MarkedClosing(server: Option<nat>, host: Option<nat>)
    | ServerStopped(host: Option<nat>)
    | HostClosed

  datatype Service = Service(
    fields: Fields,
    closer: Closer,
    passed: nat,          // threads of OpenSession between EnsureInitialized and their second section
    nextHost: nat,
    hosts: seq<nat>,
    stopped: seq<nat>,
    closed: seq<nat>)

  datatype Label =
    | Ensure(ensured: Status, started: Status, opening: bool)
    | Attach(attached: Status, id: nat)
    | MarkClosing
    | StopServer
    | CloseHost
    | FinishClosing

  function Constructed(host: Option<nat>): (s: Service) {
    Service(Fields(false, false, host, None, 0), NoCloser, 0,
            if host.Some? then host.value + 1 else 0, [], [], [])
  }

  datatype Ensured = Ensured(fields: Fields, status: Status, startedServer: bool)

  /** `EnsureInitialized`, given what the host's `EnsureSession` and the server's `Start` return. */
  function EnsureInitialized(f: Fields, newHost: nat, newServer: nat, ensured: Status, started: Status): (r: Ensured)
    ensures r.status == Ok <==> r.fields.initialized && !f.closing
    ensures r.startedServer ==> !f.initialized && !f.closing
    ensures r.startedServer ==> r.fields.server == Some(newServer) && r.fields.host.Some?
    ensures !r.startedServer && r.status == Ok ==> r.fields == f
  {
    if f.closing then Ensured(f, PeerDisconnected, false)
    else if f.initialized then Ensured(f, Ok, false)
    else
      var withHost := if f.host.None? then f.(host := Some(newHost)) else f;
      if !ensured.Ok? then Ensured(withHost, ensured, false)
      else if !started.Ok? then Ensured(withHost.(server := None, host := None), started, false)
      else Ensured(withHost.(server := Some(newServer), initialized := true), Ok, true)
  }

  datatype Opened = Opened(fields: Fields, status: Status)

  /** The second section of `OpenSession`; `id` is the session id in the handles of the host. */
  function AttachSession(f: Fields, attached: Status, id: nat): (r: Opened)
    ensures r.status == Ok ==> f.host.Some? && r.fields == f.(sessionId := id)
    ensures r.status != Ok ==> r.fields == f
  {
    if f.host.None? then Opened(f, InvalidArgument)
    else if !attached.Ok? then Opened(f, attached)
    else Opened(f.(sessionId := id), Ok)
  }

  /** The first section of `CloseSession`: the fields afterwards, if there is anything to close. */
  function Marked(f: Fields): (r: Option<Fields>) {
    if f.closing || !f.initialized then None
    else Some(Fields(false, true, None, None, 0))
  }

  function Step(s: Service, l: Label): (next: Option<Service>) {
    match l
    case Ensure(ensured, started, opening) =>
      var e := EnsureInitialized(s.fields, s.nextHost, |s.hosts|, ensured, started);
      Some(s.(fields := e.fields, nextHost := s.nextHost + 1,
              hosts := if e.startedServer then s.hosts + [e.fields.host.value] else s.hosts,
              passed := if opening && e.status.Ok? then s.passed + 1 else s.passed))
    case Attach(attached, id) =>
      if s.passed == 0 then None
      else Some(s.(passed := s.passed - 1, fields := AttachSession(s.fields, attached, id).fields))
    case MarkClosing =>
      (match Marked(s.fields)
       case None => Some(s)
       case Some(f) => Some(s.(fields := f, closer := MarkedClosing(s.fields.server, s.fields.host))))
    case StopServer =>
      if !s.closer.MarkedClosing? then None
      else Some(s.(closer := ServerStopped(s.closer.host),
                   stopped := if s.closer.server.Some? then s.stopped + [s.closer.server.value] else s.stopped))
    case CloseHost =>
      if !s.closer.ServerStopped? then None
      else Some(s.(closer := HostClosed,
                   closed := if s.closer.host.Some? then s.closed + [s.closer.host.value] else s.closed))
    case FinishClosing =>
      if s.closer.HostClosed? then Some(s.(closer := NoCloser, fields := s.fields.(closing := false))) else None
  }

  /** The number of started servers that no close has dealt with yet. */
  function Live(s: Service, dealt: bool): (n: nat) {
    if s.fields.initialized || (!s.closer.NoCloser? && !dealt) then 1 else 0
  }

  ghost predicate Flags(s: Service) {
    && (s.fields.closing <==> !s.closer.NoCloser?)
    && (s.fields.closing ==> !s.fields.initialized && s.fields.host.None? && s.fields.sessionId == 0)
    && (s.fields.server.Some? <==> s.fields.initialized)
    && (s.fields.initialized ==> s.fields.host.Some?)
  }

  /** Servers are stopped, and their hosts closed, once each and in the order of starting; at
      most one server is not yet stopped. */
  ghost predicate Ordered(s: Service) {
    && |s.hosts| == |s.stopped| + Live(s, !s.closer.MarkedClosing?)
    && |s.hosts| == |s.closed| + Live(s, s.closer.HostClosed?)
    && (forall i | 0 <= i < |s.stopped| :: s.stopped[i] == i)
    && (forall i | 0 <= i < |s.closed| :: s.closed[i] == s.hosts[i])
    && (s.fields.initialized ==> s.fields.server == Some(|s.stopped|) && s.fields.host == Some(s.hosts[|s.closed|]))
    && (s.closer.MarkedClosing? ==> s.closer.server == Some(|s.stopped|))
    && (s.closer.MarkedClosing? || s.closer.ServerStopped? ==> s.closer.host == Some(s.hosts[|s.closed|]))
  }

  /** No two servers share a host. */
  ghost predicate HostsFresh(s: Service) {
    && (forall i, j | 0 <= i < j < |s.hosts| :: s.hosts[i] < s.hosts[j])
    && (forall i | 0 <= i < |s.hosts| :: s.hosts[i] < s.nextHost)
    && (s.fields.host.Some? ==> s.fields.host.value < s.nextHost)
    && (s.fields.host.Some? && !s.fields.initialized ==>
          forall i | 0 <= i < |s.hosts| :: s.hosts[i] < s.fields.host.value)
  }

  ghost predicate Inv(s: Service) {
    Flags(s) && Ordered(s) && HostsFresh(s)
  }

  lemma OrderKept(s: Service, l: Label)
    requires Inv(s) && Step(s, l).Some?
    ensures Flags(Step(s, l).value) && Ordered(Step(s, l).value)
  {
  }

  lemma HostsKept(s: Service, l: Label)
    requires Inv(s) && Step(s, l).Some?
    ensures HostsFresh(Step(s, l).value)
  {
  }

  lemma StepKeeps(s: Service, l: Label)
    requires Inv(s) && Step(s, l).Some?
    ensures Inv(Step(s, l).value)
  {
    OrderKept(s, l);
    HostsKept(s, l);
  }

  lemma RunKeeps(host: Option<nat>, run: seq<Label>)
    requires Exec(Step, Constructed(host), run).Some?
    ensures Inv(Exec(Step, Constructed(host), run).value)
  {
    forall s: Service, l: Label | Inv(s) && Step(s, l).Some? ensures Inv(Step(s, l).value) {
      StepKeeps(s, l);
    }
    Invariant(Step, Inv, Constructed(host), run);
  }

  /** While a close is in progress the service has no host, no server and no session id, and no
      open succeeds: neither section of `OpenSession` returns `Ok`. */
  lemma NothingOpensWhileClosing(host: Option<nat>, run: seq<Label>, s: Service)
    requires Exec(Step, Constructed(host), run) == Some(s) && !s.closer.NoCloser?
    ensures s.fields.host == None && s.fields.server == None && s.fields.sessionId == 0
    ensures forall ensured: Status, started: Status ::
      EnsureInitialized(s.fields, s.nextHost, |s.hosts|, ensured, started).status == PeerDisconnected
    ensures forall attached: Status, id: nat :: AttachSession(s.fields, attached, id).status == InvalidArgument
  {
    RunKeeps(host, run);
  }

  /** A new server starts only when every earlier one has been stopped, every earlier host has
      been closed, and no close is still under way; and its host is new. */
  lemma StartsAfterStop(host: Option<nat>, run: seq<Label>, s: Service, l: Label)
    requires Exec(Step, Constructed(host), run) == Some(s) && Step(s, l).Some?
    requires Step(s, l).value.hosts != s.hosts
    ensures s.closer.NoCloser?
    ensures |s.stopped| == |s.hosts| && forall i | 0 <= i < |s.hosts| :: s.stopped[i] == i
    ensures s.closed == s.hosts
    ensures exists h :: Step(s, l).value.hosts == s.hosts + [h] && h !in s.hosts
  {
    RunKeeps(host, run);
    var h := Step(s, l).value.fields.host.value;
    assert Step(s, l).value.hosts == s.hosts + [h];
  }

  /** Each started server is stopped at most once and each host closed at most once, in the
      order of starting; at most one server is not yet stopped. */
  lemma StoppedAtMostOnce(host: Option<nat>, run: seq<Label>, s: Service)
    requires Exec(Step, Constructed(host), run) == Some(s)
    ensures forall i, j | 0 <= i < j < |s.stopped| :: s.stopped[i] != s.stopped[j]
    ensures forall i, j | 0 <= i < j < |s.closed| :: s.closed[i] != s.closed[j]
    ensures s.closed <= s.hosts && |s.closed| <= |s.stopped| <= |s.hosts| <= |s.stopped| + 1
  {
    RunKeeps(host, run);
  }

  // --- A session without a server --------------------------------------------------------------

  /** A session is open but no server runs to answer it. */
  predicate Orphaned(s: Service) {
    s.fields.sessionId != 0 && s.fields.server.None?
  }

  /** The same service on hosts whose `EnsureSession` returns only these statuses. */
  function Within(outcomes: set<Status>): (step: (Service, Label) -> Option<Service>) {
    (s: Service, l: Label) => if l.Ensure? && l.ensured !in outcomes then None else Step(s, l)
  }

  /** One thread has passed `EnsureInitialized`; another then closes the session. */
  lemma OpenThenClose(outcomes: set<Status>, host: Option<nat>) returns (s: Service)
    requires Ok in outcomes
    ensures Reaches(Within(outcomes), Constructed(host), s)
    ensures s.fields == Fields(false, false, None, None, 0) && s.closer.NoCloser? && s.passed == 1
  {
    var step, s0 := Within(outcomes), Constructed(host);
    ReachesSelf(step, s0);
    var s1 := Step(s0, Ensure(Ok, Ok, true)).value;
    ReachesThen(step, s0, s0, Ensure(Ok, Ok, true), s1);
    var s2 := Step(s1, MarkClosing).value;
    ReachesThen(step, s0, s1, MarkClosing, s2);
    var s3 := Step(s2, StopServer).value;
    ReachesThen(step, s0, s2, StopServer, s3);
    var s4 := Step(s3, CloseHost).value;
    ReachesThen(step, s0, s3, CloseHost, s4);
    s := Step(s4, FinishClosing).value;
    ReachesThen(step, s0, s4, FinishClosing, s);
  }

  /** A host whose `EnsureSession` failed, with whatever status, stays in place.  A thread that
      passed `EnsureInitialized` before a close can then open a session on it, with no server. */
  lemma OpenCanBeOrphaned(outcomes: set<Status>, failure: Status, host: Option<nat>) returns (s: Service)
    requires Ok in outcomes && failure in outcomes && failure != Ok
    ensures Reaches(Within(outcomes), Constructed(host), s) && Orphaned(s)
  {
    var step := Within(outcomes);
    var s5 := OpenThenClose(outcomes, host);
    var s6 := Step(s5, Ensure(failure, Ok, false)).value;
    ReachesThen(step, Constructed(host), s5, Ensure(failure, Ok, false), s6);
    s := Step(s6, Attach(Ok, 1)).value;
    ReachesThen(step, Constructed(host), s6, Attach(Ok, 1), s);
  }

  /** While no `EnsureSession` fails, a thread past `EnsureInitialized` finds a host only where
      there is a server. */
  ghost predicate ReliableInv(s: Service) {
    && Inv(s)
    && (s.fields.host.Some? && !s.fields.initialized ==> s.passed == 0)
    && (s.fields.sessionId != 0 ==> s.fields.initialized)
  }

  lemma ReliableRun(host: Option<nat>, run: seq<Label>, s: Service)
    requires Exec(Within({Ok}), Constructed(host), run) == Some(s)
    ensures !Orphaned(s)
  {
    var step := Within({Ok});
    forall x: Service, l: Label | ReliableInv(x) && step(x, l).Some? ensures ReliableInv(step(x, l).value) {
      StepKeeps(x, l);
    }
    Invariant(step, ReliableInv, Constructed(host), run);
  }

  /** While no `EnsureSession` succeeds, no thread gets past `EnsureInitialized`. */
  lemma HopelessRun(outcomes: set<Status>, host: Option<nat>, run: seq<Label>, s: Service)
    requires Ok !in outcomes && Exec(Within(outcomes), Constructed(host), run) == Some(s)
    ensures !Orphaned(s)
  {
    var step := Within(outcomes);
    var inv := (x: Service) => !x.fields.initialized && x.passed == 0 && x.fields.sessionId == 0;
    assert Preserved(step, inv);
    Invariant(step, inv, Constructed(host), run);
  }

  ghost predicate NeverOrphaned(outcomes: set<Status>) {
    forall host: Option<nat>, run: seq<Label> ::
      var end := Exec(Within(outcomes), Constructed(host), run); end.Some? ==> !Orphaned(end.value)
  }

  /** Every open session has a server, in all runs, if and only if `EnsureSession` cannot both
      succeed and fail. */
  lemma OrphansExact(outcomes: set<Status>)
    ensures NeverOrphaned(outcomes) <==> Ok !in outcomes || outcomes == {Ok}
  {
    if Ok !in outcomes || outcomes == {Ok} {
      forall host: Option<nat>, run: seq<Label> | Exec(Within(outcomes), Constructed(host), run).Some?
        ensures !Orphaned(Exec(Within(outcomes), Constructed(host), run).value)
      {
        if Ok in outcomes {
          ReliableRun(host, run, Exec(Within(outcomes), Constructed(host), run).value);
        } else {
          HopelessRun(outcomes, host, run, Exec(Within(outcomes), Constructed(host), run).value);
        }
      }
    } else {
      var failure :| failure in outcomes && failure != Ok;
      var s := OpenCanBeOrphaned(outcomes, failure, None);
      var run: seq<Label> :| Exec(Within(outcomes), Constructed(None), run) == Some(s);
      assert Orphaned(Exec(Within(outcomes), Constructed(None), run).value);
    }
  }

  /** The guard that is missing from the second section of `OpenSession`: in every run, handing out
      a session makes an orphan exactly when the service is not initialised at that moment. */
  lemma AttachOrphansExact(host: Option<nat>, run: seq<Label>, s: Service, id: nat)
    requires Exec(Step, Constructed(host), run) == Some(s)
    requires s.passed > 0 && s.fields.host.Some? && id != 0
    ensures Orphaned(Step(s, Attach(Ok, id)).value) <==> !s.fields.initialized
  {
    RunKeeps(host, run);
  }

  // --- The service, updated in place -------------------------------------------------------------

  class EngineSessionService {
    var initialized: bool
    var closing: bool
    var host: Option<nat>
    var server: Option<nat>
    var sessionId: nat

    ghost function Value(): (f: Fields)
      reads this
    {
      Fields(initialized, closing, host, server, sessionId)
    }

    constructor (sessionHost: Option<nat>)
      ensures Value() == Constructed(sessionHost).fields
    {
      initialized, closing, host, server, sessionId := false, false, sessionHost, None, 0;
    }

    method EnsureInitializedLocked(newHost: nat, newServer: nat, ensured: Status, started: Status)
      returns (status: Status)
      modifies this
      ensures Value() == EnsureInitialized(old(Value()), newHost, newServer, ensured, started).fields
      ensures status == EnsureInitialized(old(Value()), newHost, newServer, ensured, started).status
    {
      if closing {
        return PeerDisconnected;
      }
      if initialized {
        return Ok;
      }
      if host.None? {
        host := Some(newHost);
      }
      if !ensured.Ok? {
        return ensured;
      }
      server := Some(newServer);
      if !started.Ok? {
        server := None;
        host := None;
        return started;
      }
      initialized := true;
      status := Ok;
    }

    method AttachLocked(attached: Status, id: nat) returns (status: Status)
      modifies this
      ensures Opened(Value(), status) == AttachSession(old(Value()), attached, id)
    {
      if host.None? {
        return InvalidArgument;
      }
      if !attached.Ok? {
        return attached;
      }
      sessionId := id;
      status := Ok;
    }

    /** Moves the server and the host out, or returns nothing if there is nothing to close. */
    method MarkClosingLocked() returns (taken: bool, theServer: Option<nat>, theHost: Option<nat>)
      modifies this
      ensures taken <==> Marked(old(Value())).Some?
      ensures taken ==> Value() == Marked(old(Value())).value && theServer == old(server) && theHost == old(host)
      ensures !taken ==> Value() == old(Value()) && theServer == None && theHost == None
    {
      if closing || !initialized {
        return false, None, None;
      }
      closing := true;
      theServer, server := server, None;
      theHost, host := host, None;
      initialized := false;
      sessionId := 0;
      taken := true;
    }
  }
}
