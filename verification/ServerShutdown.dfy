/**
 * The HTTP server's close sequence around the secret settlement, and its set of unused connections.
 * Sockets and `close()` calls are numbered; settling of the HTTP server and of the diagnostic
 * reader is up to the environment.
 */
module ServerShutdown {
  import opened SecretAdmission

  datatype Settlement = Pending | Fulfilled | Rejected

  datatype Outcome = Waiting | Failed | Completed

  /** One call of `close()`: its two settled-together promises, and how the call ended. */
  datatype CloseCall = CloseCall(http: Settlement, diagnostic: Settlement, outcome: Outcome)

  /** `early`, `requested`, `gone` and `sweptBusy` are history. */
  datatype Connections = Connections(
    closing: bool, unused: set<nat>, early: set<nat>, late: set<nat>, requested: set<nat>, gone: set<nat>,
    sweptBusy: set<nat>)
  {
    function OnConnection(socket: nat): Connections {
      if socket in early + late then this
      else if closing then this.(late := late + {socket})
      else this.(unused := unused + {socket}, early := early + {socket})
    }

    function OnRequest(socket: nat): Connections {
      if socket !in early + late then this
      else this.(unused := unused - {socket}, requested := requested + {socket})
    }

    function OnSocketClose(socket: nat): Connections {
      if socket !in early then this else this.(unused := unused - {socket}, gone := gone + {socket})
    }

    /** The sweep destroys every unused socket; a busy one among them would be recorded. */
    function OnClose(): Connections { this.(closing := true, sweptBusy := sweptBusy + unused * requested) }

    ghost predicate Valid() {
      && unused == early - requested - gone
      && requested <= early + late && gone <= early
      && sweptBusy == {}
      && (!closing ==> late == {})
    }
  }

  datatype Event =
    | Secret(e: SecretAdmission.Event)
    | Connect(socket: nat)
    | Request(socket: nat)
    | SocketClosed(socket: nat)
    | CloseCalled
    | HttpSettles(call: nat, ok: bool)
    | DiagnosticSettles(call: nat, ok: bool)
    | Resumes(call: nat, sealThrows: bool)

  /** `secretsRegistered` and `diagnosticsRegistered`: whether the application registered each shutdown hook. */
  datatype Server = Server(
    secretsRegistered: bool, diagnosticsRegistered: bool,
    admission: Admission, connections: Connections, calls: seq<CloseCall>)
  {
    function OnHttpSettles(i: nat, ok: bool): Server {
      if |calls| <= i || !calls[i].http.Pending? then this
      else this.(calls := calls[i := calls[i].(http := if ok then Fulfilled else Rejected)])
    }

    function OnDiagnosticSettles(i: nat, ok: bool): Server {
      if |calls| <= i || !calls[i].diagnostic.Pending? then this
      else
        var settled := if ok && diagnosticsRegistered then Fulfilled else Rejected;
        this.(calls := calls[i := calls[i].(diagnostic := settled)])
    }

    predicate Resumable(i: nat) {
      && i < |calls| && calls[i].outcome.Waiting?
      && !calls[i].http.Pending? && !calls[i].diagnostic.Pending?
    }

    /** Past `allSettled`: rethrow a rejection, else assert the settlement, else log completion. */
    function OnResume(i: nat, sealThrows: bool): Server {
      if !Resumable(i) then this
      else if calls[i].http.Rejected? || calls[i].diagnostic.Rejected? || !secretsRegistered then
        this.(calls := calls[i := calls[i].(outcome := Failed)])
      else
        var outcome := if admission.SettleReply(sealThrows) == Value then Completed else Failed;
        this.(admission := admission.OnSettle(sealThrows), calls := calls[i := calls[i].(outcome := outcome)])
    }

    function Step(e: Event): Server {
      match e
      case Secret(inner) => this.(admission := admission.Step(inner))
      case Connect(socket) => this.(connections := connections.OnConnection(socket))
      case Request(socket) => this.(connections := connections.OnRequest(socket))
      case SocketClosed(socket) => this.(connections := connections.OnSocketClose(socket))
      case CloseCalled =>
        this.(connections := connections.OnClose(), calls := calls + [CloseCall(Pending, Pending, Waiting)])
      case HttpSettles(i, ok) => OnHttpSettles(i, ok)
      case DiagnosticSettles(i, ok) => OnDiagnosticSettles(i, ok)
      case Resumes(i, sealThrows) => OnResume(i, sealThrows)
    }

    ghost predicate Valid() {
      && admission.Valid() && connections.Valid()
      && (forall i :: 0 <= i < |calls| && calls[i].outcome.Completed? ==>
            calls[i].http.Fulfilled? && calls[i].diagnostic.Fulfilled? && admission.Quiescent())
    }
  }

  function Init(secretsRegistered: bool, diagnosticsRegistered: bool): Server {
    Server(secretsRegistered, diagnosticsRegistered, FRESH, Connections(false, {}, {}, {}, {}, {}, {}), [])
  }

  function Run(s: Server, events: seq<Event>): Server
    decreases |events|
  {
    if events == [] then s else Run(s.Step(events[0]), events[1..])
  }

  lemma ResumeKeepsValid(s: Server, i: nat, sealThrows: bool)
    requires s.Valid()
    ensures s.OnResume(i, sealThrows).Valid()
  {
    StepKeepsValid(s.admission, Settle(sealThrows));
    if s.admission.active == 0 {
      assert s.admission.inFlight.Keys == {};
    }
  }

  lemma ServerStepKeepsValid(s: Server, e: Event)
    requires s.Valid()
    ensures s.Step(e).Valid()
  {
    match e
    case Secret(inner) => StepKeepsValid(s.admission, inner);
    case Resumes(i, sealThrows) => ResumeKeepsValid(s, i, sealThrows);
    case _ =>
  }

  lemma {:induction false} ServerRunKeepsValid(s: Server, events: seq<Event>)
    requires s.Valid()
    ensures Run(s, events).Valid()
    decreases |events|
  {
    if events != [] {
      ServerStepKeepsValid(s, events[0]);
      ServerRunKeepsValid(s.Step(events[0]), events[1..]);
    }
  }

  /** A close call that logged completion keeps its outcome. */
  lemma {:induction false} CompletionLasts(s: Server, events: seq<Event>, i: nat)
    requires i < |s.calls| && s.calls[i].outcome.Completed?
    ensures i < |Run(s, events).calls| && Run(s, events).calls[i].outcome.Completed?
    decreases |events|
  {
    if events != [] {
      CompletionLasts(s.Step(events[0]), events[1..], i);
    }
  }

  /**
   * `backend.shutdownCompleted` is logged only with HTTP and the diagnostic reader closed, and then
   * secret work has ended for good: nothing in flight, nothing uncertain, nothing admitted.
   */
  lemma CompletedMeansQuiescent(secrets: bool, diagnostics: bool, before: seq<Event>, after: seq<Event>, i: nat, id: nat)
    requires i < |Run(Init(secrets, diagnostics), before).calls|
    requires Run(Init(secrets, diagnostics), before).calls[i].outcome.Completed?
    ensures var s := Run(Init(secrets, diagnostics), before);
            s.calls[i].http.Fulfilled? && s.calls[i].diagnostic.Fulfilled? && secrets && diagnostics
    ensures var t := Run(Run(Init(secrets, diagnostics), before), after);
            t.admission.Quiescent() && t.admission.BeginReply(id) == Threw(StoreError(NoEffect))
  {
    var s := Run(Init(secrets, diagnostics), before);
    ServerRunKeepsValid(Init(secrets, diagnostics), before);
    ServerRunKeepsValid(s, after);
    CompletionLasts(s, after, i);
    CompletionNeedsHooks(Init(secrets, diagnostics), before);
  }

  ghost predicate HooksAgree(s: Server) {
    && (forall i :: 0 <= i < |s.calls| && s.calls[i].diagnostic.Fulfilled? ==> s.diagnosticsRegistered)
    && (forall i :: 0 <= i < |s.calls| && s.calls[i].outcome.Completed? ==> s.secretsRegistered)
  }

  lemma {:induction false} CompletionNeedsHooks(s: Server, events: seq<Event>)
    requires HooksAgree(s)
    ensures var t := Run(s, events);
            HooksAgree(t) && t.secretsRegistered == s.secretsRegistered
            && t.diagnosticsRegistered == s.diagnosticsRegistered
    decreases |events|
  {
    if events != [] {
      CompletionNeedsHooks(s.Step(events[0]), events[1..]);
    }
  }

  /** The swept set is exactly the sockets opened before close that neither sent a request nor closed. */
  lemma UnusedConnectionsExact(secrets: bool, diagnostics: bool, events: seq<Event>)
    ensures var c := Run(Init(secrets, diagnostics), events).connections;
            c.unused == c.early - c.requested - c.gone && c.sweptBusy == {}
  {
    ServerRunKeepsValid(Init(secrets, diagnostics), events);
  }

  // What each event does, neither more nor less.

  /** A socket that connects for the first time. */
  predicate Connects(c: Connections, e: Event, socket: nat) { e == Connect(socket) && socket !in c.early && socket !in c.late }

  predicate Requests(c: Connections, e: Event, socket: nat) { e == Request(socket) && (socket in c.early || socket in c.late) }

  lemma ConnectionsAreExact(s: Server, e: Event, socket: nat)
    requires s.connections.Valid()
    ensures var (c, d) := (s.connections, s.Step(e).connections);
            && (d.closing <==> c.closing || e.CloseCalled?)
            && (socket in d.early <==> socket in c.early || (Connects(c, e, socket) && !c.closing))
            && (socket in d.late <==> socket in c.late || (Connects(c, e, socket) && c.closing))
            && (socket in d.requested <==> socket in c.requested || Requests(c, e, socket))
            && (socket in d.gone <==> socket in c.gone || (e == SocketClosed(socket) && socket in c.early))
            && (socket in d.unused <==>
                  || (socket in c.unused && !Requests(c, e, socket) && e != SocketClosed(socket))
                  || (Connects(c, e, socket) && !c.closing))
  {
    hide Admission.Step, Admission.OnSettle, Admission.SettleReply;
  }

  /** Past both closes, with the secret hook registered: the settlement is asked for. */
  predicate Asks(s: Server, e: Event, i: nat) {
    && e.Resumes? && e.call == i && i < |s.calls| && s.calls[i].outcome.Waiting?
    && s.calls[i].http.Fulfilled? && s.calls[i].diagnostic.Fulfilled? && s.secretsRegistered
  }

  /** It succeeds: nothing is in flight, nothing is in doubt, and the seal does not throw. */
  predicate Completes(s: Server, e: Event, i: nat) {
    Asks(s, e, i) && s.admission.active == 0 && !s.admission.uncertain && (s.admission.closed || !e.sealThrows)
  }

  /** A close is rejected, the secret hook is missing, or the settlement fails. */
  predicate Breaks(s: Server, e: Event, i: nat) {
    && e.Resumes? && e.call == i && i < |s.calls| && s.calls[i].outcome.Waiting?
    && !s.calls[i].http.Pending? && !s.calls[i].diagnostic.Pending? && !Completes(s, e, i)
  }

  function Settled(before: Settlement, settles: bool, ok: bool): Settlement {
    if before.Pending? && settles then (if ok then Fulfilled else Rejected) else before
  }

  /** Each close call keeps its own account: its two promises as they settle, and its end when both have. */
  lemma CallsAreExact(s: Server, e: Event, i: nat)
    requires i < |s.calls|
    ensures |s.Step(e).calls| == |s.calls| + (if e.CloseCalled? then 1 else 0)
    ensures var (c, d) := (s.calls[i], s.Step(e).calls[i]);
            && d.http == Settled(c.http, e.HttpSettles? && e.call == i, e.HttpSettles? && e.ok)
            && d.diagnostic == Settled(c.diagnostic, e.DiagnosticSettles? && e.call == i,
                                       e.DiagnosticSettles? && e.ok && s.diagnosticsRegistered)
            && d.outcome == (if Completes(s, e, i) then Completed else if Breaks(s, e, i) then Failed else c.outcome)
    ensures e.CloseCalled? ==> s.Step(e).calls[|s.calls|] == CloseCall(Pending, Pending, Waiting)
  {
    hide Admission.Step, Admission.OnSettle;
  }

  /** Secret work is touched by its own events, and by the settlements that close calls ask for. */
  lemma AdmissionIsTouchedExactly(s: Server, e: Event)
    ensures s.Step(e).admission ==
              if e.Secret? then s.admission.Step(e.e)
              else if e.Resumes? && Asks(s, e, e.call) then s.admission.Step(Settle(e.sealThrows))
              else s.admission
  {
    hide Admission.OnSettle, Admission.OnBegin, Admission.OnFinish;
  }

  /** The two variables of `startServer` that its connection handlers and `close()` share. */
  class ConnectionTable {
    var unusedConnections: set<nat>
    var closing: bool
    ghost var early: set<nat>
    ghost var late: set<nat>
    ghost var requested: set<nat>
    ghost var gone: set<nat>
    ghost var sweptBusy: set<nat>

    ghost function State(): Connections
      reads this
    {
      Connections(closing, unusedConnections, early, late, requested, gone, sweptBusy)
    }

    constructor ()
      ensures State() == Connections(false, {}, {}, {}, {}, {}, {})
    {
      unusedConnections, closing := {}, false;
      early, late, requested, gone, sweptBusy := {}, {}, {}, {}, {};
    }

    method OnConnection(socket: nat) returns (destroyed: bool)
      requires socket !in early + late
      modifies this
      ensures State() == old(State()).OnConnection(socket)
      ensures destroyed == old(closing)
    {
      if closing {
        late := late + {socket};
        return true;
      }
      unusedConnections := unusedConnections + {socket};
      early := early + {socket};
      destroyed := false;
    }

    method OnRequest(socket: nat)
      requires socket in early + late
      modifies this
      ensures State() == old(State()).OnRequest(socket)
    {
      unusedConnections := unusedConnections - {socket};
      requested := requested + {socket};
    }

    method OnSocketClose(socket: nat)
      requires socket in early
      modifies this
      ensures State() == old(State()).OnSocketClose(socket)
    {
      unusedConnections := unusedConnections - {socket};
      gone := gone + {socket};
    }

    /** The synchronous part of `close()`: no destroyed socket has had a request accepted. */
    method SweepUnused() returns (destroyed: set<nat>)
      requires State().Valid()
      modifies this
      ensures State() == old(State()).OnClose() && State().Valid()
      ensures destroyed == old(early) - old(requested) - old(gone)
    {
      closing := true;
      destroyed := {};
      var pending := unusedConnections;
      while pending != {}
        invariant unchanged(this`unusedConnections, this`early, this`late, this`requested, this`gone)
        invariant closing && sweptBusy == old(sweptBusy) + destroyed * requested
        invariant destroyed + pending == unusedConnections && destroyed !! pending
        decreases pending
      {
        var socket :| socket in pending;
        pending := pending - {socket};
        destroyed := destroyed + {socket};
        sweptBusy := sweptBusy + {socket} * requested;
      }
    }
  }
}
