/**
 * What a run of the two processes shows, told from its events: each outcome is there exactly when
 * an event of the run caused it.
 */
module HandoffHistory {
  import opened Common
  import opened HandoffTypes
  import P = HandoffParent
  import C = HandoffChild
  import S = HandoffSession
  import RunnerSide = RunnerCauses
  import ControllerSide = ControllerCauses

  /** The event that the runner handles in a step of the session, if any. */
  function AtRunner(s: S.Session, e: S.Event): Option<C.Event> {
    match e
    case AtChild(inner) => if inner.Deliver? then None else Some(inner)
    case ToChild(parsed, e2e, threePorts, sendOk) =>
      if |s.parent.posted| <= s.read || s.child.Dead() then None
      else Some(C.Deliver(s.parent.posted[s.read], parsed, e2e, threePorts, sendOk))
    case _ => None
  }

  /** The event that the controller handles, if any. */
  function AtController(s: S.Session, e: S.Event): Option<P.Event> {
    match e
    case AtParent(own) => if own.Receive? || (own.ExitEvent? && !s.child.Dead()) then None else Some(own)
    case ToParent => if |s.child.posted| <= s.delivered then None else Some(P.Receive(s.child.posted[s.delivered]))
    case _ => None
  }

  ghost predicate RunnerDid(s: S.Session, events: seq<S.Event>, cause: (C.Child, C.Event) -> bool) {
    exists k :: 0 <= k < |events| && RunnerDoes(S.Run(s, events[..k]), events[k], cause)
  }

  ghost predicate RunnerDoes(s: S.Session, e: S.Event, cause: (C.Child, C.Event) -> bool) {
    AtRunner(s, e).Some? && cause(s.child, AtRunner(s, e).value)
  }

  ghost predicate ControllerDid(s: S.Session, events: seq<S.Event>, cause: (P.Parent, P.Event) -> bool) {
    exists k :: 0 <= k < |events| && ControllerDoes(S.Run(s, events[..k]), events[k], cause)
  }

  ghost predicate ControllerDoes(s: S.Session, e: S.Event, cause: (P.Parent, P.Event) -> bool) {
    AtController(s, e).Some? && cause(s.parent, AtController(s, e).value)
  }

  lemma StepsAtRunner(s: S.Session, e: S.Event)
    ensures S.Step(s, e).child == if AtRunner(s, e).Some? then s.child.Step(AtRunner(s, e).value) else s.child
  {
    hide C.Child.Step, P.Parent.Step;
  }

  lemma StepsAtController(s: S.Session, e: S.Event)
    ensures S.Step(s, e).parent == if AtController(s, e).Some? then s.parent.Step(AtController(s, e).value) else s.parent
  {
    hide C.Child.Step, P.Parent.Step;
  }

  /** Something done within a run is done by its first event, or within the rest. */
  lemma RunnerDidNext(s: S.Session, events: seq<S.Event>, cause: (C.Child, C.Event) -> bool)
    requires events != []
    ensures RunnerDid(s, events, cause) <==>
            RunnerDoes(s, events[0], cause) || RunnerDid(S.Step(s, events[0]), events[1..], cause)
  {
    var t, rest := S.Step(s, events[0]), events[1..];
    hide RunnerDoes, S.Step;
    assert S.Run(s, events[..0]) == s;
    forall k | 0 <= k < |rest| ensures S.Run(t, rest[..k]) == S.Run(s, events[..k + 1]) && rest[k] == events[k + 1] {
      assert events[..k + 1][1..] == rest[..k];
    }
    if RunnerDid(t, rest, cause) {
      var k :| 0 <= k < |rest| && RunnerDoes(S.Run(t, rest[..k]), rest[k], cause);
      assert RunnerDoes(S.Run(s, events[..k + 1]), events[k + 1], cause);
    }
    if RunnerDid(s, events, cause) {
      var k :| 0 <= k < |events| && RunnerDoes(S.Run(s, events[..k]), events[k], cause);
      if 0 < k { assert RunnerDoes(S.Run(t, rest[..k - 1]), rest[k - 1], cause); }
    }
  }

  lemma ControllerDidNext(s: S.Session, events: seq<S.Event>, cause: (P.Parent, P.Event) -> bool)
    requires events != []
    ensures ControllerDid(s, events, cause) <==>
            ControllerDoes(s, events[0], cause) || ControllerDid(S.Step(s, events[0]), events[1..], cause)
  {
    var t, rest := S.Step(s, events[0]), events[1..];
    hide ControllerDoes, S.Step;
    assert S.Run(s, events[..0]) == s;
    forall k | 0 <= k < |rest| ensures S.Run(t, rest[..k]) == S.Run(s, events[..k + 1]) && rest[k] == events[k + 1] {
      assert events[..k + 1][1..] == rest[..k];
    }
    if ControllerDid(t, rest, cause) {
      var k :| 0 <= k < |rest| && ControllerDoes(S.Run(t, rest[..k]), rest[k], cause);
      assert ControllerDoes(S.Run(s, events[..k + 1]), events[k + 1], cause);
    }
    if ControllerDid(s, events, cause) {
      var k :| 0 <= k < |events| && ControllerDoes(S.Run(s, events[..k]), events[k], cause);
      if 0 < k { assert ControllerDoes(S.Run(t, rest[..k - 1]), rest[k - 1], cause); }
    }
  }

  /** A state of the runner that is entered by `cause` and never left. */
  ghost predicate RunnerCaused(shows: C.Child -> bool, cause: (C.Child, C.Event) -> bool) {
    forall c: C.Child, e: C.Event :: c.Valid() ==> (shows(c.Step(e)) <==> shows(c) || cause(c, e))
  }

  ghost predicate ControllerCaused(shows: P.Parent -> bool, cause: (P.Parent, P.Event) -> bool) {
    forall p: P.Parent, e: P.Event :: p.Valid() ==> (shows(p.Step(e)) <==> shows(p) || cause(p, e))
  }

  /** It shows after a run exactly if it showed before, or an event of the run caused it. */
  lemma {:induction false} RunnerShows(s: S.Session, events: seq<S.Event>, shows: C.Child -> bool, cause: (C.Child, C.Event) -> bool)
    requires S.Inv(s) && RunnerCaused(shows, cause)
    ensures shows(S.Run(s, events).child) <==> shows(s.child) || RunnerDid(s, events, cause)
    decreases |events|
  {
    hide RunnerDid, C.Child.Step;
    if events == [] {
      assert !RunnerDid(s, events, cause) by { NothingDone(s, cause); }
    } else {
      S.StepKeepsInv(s, events[0]);
      StepsAtRunner(s, events[0]);
      RunnerDidNext(s, events, cause);
      hide S.Step;
      RunnerShows(S.Step(s, events[0]), events[1..], shows, cause);
    }
  }

  lemma NothingDone(s: S.Session, cause: (C.Child, C.Event) -> bool)
    ensures !RunnerDid(s, [], cause)
  {
  }

  lemma NothingDecided(s: S.Session, cause: (P.Parent, P.Event) -> bool)
    ensures !ControllerDid(s, [], cause)
  {
  }

  lemma {:induction false} ControllerShows(s: S.Session, events: seq<S.Event>, shows: P.Parent -> bool, cause: (P.Parent, P.Event) -> bool)
    requires S.Inv(s) && ControllerCaused(shows, cause)
    ensures shows(S.Run(s, events).parent) <==> shows(s.parent) || ControllerDid(s, events, cause)
    decreases |events|
  {
    hide ControllerDid, P.Parent.Step;
    if events == [] {
      NothingDecided(s, cause);
    } else {
      S.StepKeepsInv(s, events[0]);
      StepsAtController(s, events[0]);
      ControllerDidNext(s, events, cause);
      hide S.Step;
      ControllerShows(S.Step(s, events[0]), events[1..], shows, cause);
    }
  }

  /** A state of the runner that only `cause` can lead to, though it may be left. */
  ghost predicate RunnerOnlyBy(shows: C.Child -> bool, cause: (C.Child, C.Event) -> bool) {
    forall c: C.Child, e: C.Event :: c.Valid() && shows(c.Step(e)) ==> shows(c) || cause(c, e)
  }

  lemma {:induction false} RunnerNeeds(s: S.Session, events: seq<S.Event>, shows: C.Child -> bool, cause: (C.Child, C.Event) -> bool)
    requires S.Inv(s) && RunnerOnlyBy(shows, cause)
    ensures shows(S.Run(s, events).child) ==> shows(s.child) || RunnerDid(s, events, cause)
    decreases |events|
  {
    hide RunnerDid, C.Child.Step;
    if events != [] {
      S.StepKeepsInv(s, events[0]);
      StepsAtRunner(s, events[0]);
      RunnerDidNext(s, events, cause);
      hide S.Step;
      RunnerNeeds(S.Step(s, events[0]), events[1..], shows, cause);
    }
  }

  // The runner.

  ghost predicate Did(reservation: Descriptor, port: int, events: seq<S.Event>, cause: (C.Child, C.Event) -> bool) {
    RunnerDid(S.Init(reservation, port), events, cause)
  }

  ghost predicate Decided(reservation: Descriptor, port: int, events: seq<S.Event>, cause: (P.Parent, P.Event) -> bool) {
    ControllerDid(S.Init(reservation, port), events, cause)
  }

  /**
   * The writing import starts if and only if, in the run so far, the ownership check before it came
   * back well in a runner then current; and likewise for the reservation, the server and `ready`.
   */
  lemma ImportNeedsOwnership(reservation: Descriptor, port: int, events: seq<S.Event>)
    ensures S.Run(S.Init(reservation, port), events).child.writingImportStarted.On?
            <==> Did(reservation, port, events, RunnerSide.StartsImport)
  {
    var shows := (c: C.Child) => c.writingImportStarted.On?;
    forall c: C.Child, e: C.Event | c.Valid()
      ensures shows(c.Step(e)) <==> shows(c) || RunnerSide.StartsImport(c, e)
    {
      RunnerSide.StepIsExact(c, e);
      hide C.Child.Step, C.Child.Valid, RunnerSide.StartsImport;
    }
    RunnerShows(S.Init(reservation, port), events, shows, RunnerSide.StartsImport);
  }

  lemma ReservationNeedsOwnership(reservation: Descriptor, port: int, events: seq<S.Event>)
    ensures S.Run(S.Init(reservation, port), events).child.reservationReady.On?
            <==> Did(reservation, port, events, RunnerSide.OwnsReservation)
  {
    var shows := (c: C.Child) => c.reservationReady.On?;
    forall c: C.Child, e: C.Event | c.Valid()
      ensures shows(c.Step(e)) <==> shows(c) || RunnerSide.OwnsReservation(c, e)
    {
      RunnerSide.StepIsExact(c, e);
      hide C.Child.Step, C.Child.Valid, RunnerSide.OwnsReservation;
    }
    RunnerShows(S.Init(reservation, port), events, shows, RunnerSide.OwnsReservation);
  }

  /** The backend is started, and a server comes of it, only after the ownership check that follows the import. */
  lemma BackendNeedsOwnership(reservation: Descriptor, port: int, events: seq<S.Event>)
    ensures var c := S.Run(S.Init(reservation, port), events).child;
            && (!c.owned.server.Absent? <==> Did(reservation, port, events, RunnerSide.ServerStarts))
            && (c.startTask.StartingBackend? || c.startTask.OwningBeforeReady? || !c.owned.server.Absent? ==>
                  Did(reservation, port, events, RunnerSide.StartsBackend))
  {
    var there := (c: C.Child) => !c.owned.server.Absent?;
    var past := (c: C.Child) => c.startTask.StartingBackend? || c.startTask.OwningBeforeReady? || !c.owned.server.Absent?;
    forall c: C.Child, e: C.Event | c.Valid()
      ensures there(c.Step(e)) <==> there(c) || RunnerSide.ServerStarts(c, e)
      ensures past(c.Step(e)) ==> past(c) || RunnerSide.StartsBackend(c, e)
    {
      RunnerSide.StepIsExact(c, e);
      hide C.Child.Step, C.Child.Valid;
    }
    RunnerShows(S.Init(reservation, port), events, there, RunnerSide.ServerStarts);
    RunnerNeeds(S.Init(reservation, port), events, past, RunnerSide.StartsBackend);
  }

  ghost predicate ShowsReady(c: C.Child) { exists i :: 0 <= i < |c.posted| && c.posted[i].Ready? }

  /** `ready` is posted if and only if the last ownership check came back well, the runner current and the port open. */
  lemma ReadyNeedsOwnership(reservation: Descriptor, port: int, events: seq<S.Event>)
    ensures ShowsReady(S.Run(S.Init(reservation, port), events).child)
            <==> Did(reservation, port, events, RunnerSide.PostsReady)
  {
    var shows := (c: C.Child) => ShowsReady(c);
    forall c: C.Child, e: C.Event | c.Valid()
      ensures shows(c.Step(e)) <==> shows(c) || RunnerSide.PostsReady(c, e)
    {
      RunnerSide.StepIsExact(c, e);
      hide C.Child.Step, C.Child.Valid;
      var d := c.Step(e);
      if ShowsReady(c) {
        var i :| 0 <= i < |c.posted| && c.posted[i].Ready?;
        assert d.posted[i].Ready?;
      }
      if RunnerSide.PostsReady(c, e) { assert d.posted[|c.posted|].Ready?; }
    }
    RunnerShows(S.Init(reservation, port), events, shows, RunnerSide.PostsReady);
  }

  /** The runner that exits does so with 0 if and only if no failure of any kind came in the whole run. */
  lemma ExitCodeIsExact(reservation: Descriptor, port: int, events: seq<S.Event>)
    ensures var c := S.Run(S.Init(reservation, port), events).child;
            && (c.failed.On? <==> Did(reservation, port, events, RunnerSide.Trouble))
            && (c.shutdownTask.Exited? ==>
                  (c.shutdownTask.code == 0 <==> !Did(reservation, port, events, RunnerSide.Trouble)))
  {
    var failed := (c: C.Child) => c.failed.On?;
    var liar := (c: C.Child) => c.shutdownTask.Exited? && (c.shutdownTask.code == 0) == c.failed.On?;
    var never := (c: C.Child, e: C.Event) => false;
    forall c: C.Child, e: C.Event | c.Valid()
      ensures failed(c.Step(e)) <==> failed(c) || RunnerSide.Trouble(c, e)
      ensures liar(c.Step(e)) ==> liar(c) || never(c, e)
    {
      RunnerSide.StepIsExact(c, e);
      hide C.Child.Step, C.Child.Valid;
    }
    RunnerShows(S.Init(reservation, port), events, failed, RunnerSide.Trouble);
    RunnerNeeds(S.Init(reservation, port), events, liar, never);
  }

  // The controller.

  /** Each outcome of the start, and the withdrawal of its reservation, has its cause in the run, and every cause its outcome. */
  lemma OutcomesHaveCauses(reservation: Descriptor, port: int, events: seq<S.Event>)
    ensures var p := S.Run(S.Init(reservation, port), events).parent;
            && (p.promise.Resolved? <==> Decided(reservation, port, events, ControllerSide.Accepts))
            && (p.promise.Rejected? <==> Decided(reservation, port, events, ControllerSide.Fails))
            && (p.invalidated.On? <==> Decided(reservation, port, events, ControllerSide.Withdraws))
  {
    var resolved, rejected, withdrawn :=
      (p: P.Parent) => p.promise.Resolved?, (p: P.Parent) => p.promise.Rejected?, (p: P.Parent) => p.invalidated.On?;
    forall p: P.Parent, e: P.Event | p.Valid()
      ensures resolved(p.Step(e)) <==> resolved(p) || ControllerSide.Accepts(p, e)
      ensures rejected(p.Step(e)) <==> rejected(p) || ControllerSide.Fails(p, e)
      ensures withdrawn(p.Step(e)) <==> withdrawn(p) || ControllerSide.Withdraws(p, e)
    {
      ControllerSide.StepIsExact(p, e);
      hide P.Parent.Step;
    }
    ControllerShows(S.Init(reservation, port), events, resolved, ControllerSide.Accepts);
    ControllerShows(S.Init(reservation, port), events, rejected, ControllerSide.Fails);
    ControllerShows(S.Init(reservation, port), events, withdrawn, ControllerSide.Withdraws);
  }

  predicate SendsPrepare(p: P.Parent, e: P.Event) { ControllerSide.Prepares(p, e) && e.sendOk }

  predicate SendsStart(p: P.Parent, e: P.Event) { ControllerSide.Grants(p, e) && e.sendOk }

  predicate SendsShutdown(p: P.Parent, e: P.Event) { ControllerSide.Stops(p, e) && e.sendOk }

  ghost predicate Posted(p: P.Parent, command: Command) { command in p.posted }

  /** `prepare`, `start` and `shutdown` are each posted if and only if their oracle, and the send, went well in the run. */
  lemma CommandsHaveCauses(reservation: Descriptor, port: int, events: seq<S.Event>)
    ensures var p := S.Run(S.Init(reservation, port), events).parent;
            && (Posted(p, Prepare(reservation)) <==> Decided(reservation, port, events, SendsPrepare))
            && (Posted(p, Start(reservation.generationId)) <==> Decided(reservation, port, events, SendsStart))
            && (Posted(p, Shutdown) <==> Decided(reservation, port, events, SendsShutdown))
  {
    var r, g := reservation, reservation.generationId;
    var prepared, started, stopped :=
      (p: P.Parent) => p.reservation != r || Posted(p, Prepare(r)),
      (p: P.Parent) => p.reservation != r || Posted(p, Start(g)),
      (p: P.Parent) => Posted(p, Shutdown);
    forall p: P.Parent, e: P.Event | p.Valid()
      ensures prepared(p.Step(e)) <==> prepared(p) || SendsPrepare(p, e)
      ensures started(p.Step(e)) <==> started(p) || SendsStart(p, e)
      ensures stopped(p.Step(e)) <==> stopped(p) || SendsShutdown(p, e)
    {
      PostedGrows(p, e, r);
    }
    ControllerShows(S.Init(r, port), events, prepared, SendsPrepare);
    ControllerShows(S.Init(r, port), events, started, SendsStart);
    ControllerShows(S.Init(r, port), events, stopped, SendsShutdown);
    S.RunKeepsInv(S.Init(r, port), events);
  }

  lemma PostedGrows(p: P.Parent, e: P.Event, r: Descriptor)
    requires p.Valid()
    ensures p.Step(e).reservation == p.reservation
    ensures p.reservation == r ==>
              (Posted(p.Step(e), Prepare(r)) <==> Posted(p, Prepare(r)) || SendsPrepare(p, e))
              && (Posted(p.Step(e), Start(r.generationId)) <==> Posted(p, Start(r.generationId)) || SendsStart(p, e))
    ensures Posted(p.Step(e), Shutdown) <==> Posted(p, Shutdown) || SendsShutdown(p, e)
  {
    ControllerSide.StepIsExact(p, e);
    hide P.Parent.Step, P.Parent.Valid, ControllerSide.Prepares, ControllerSide.Grants, ControllerSide.Stops;
    ExclusiveCauses(p, e);
  }

  lemma ExclusiveCauses(p: P.Parent, e: P.Event)
    ensures ControllerSide.Prepares(p, e) ==> e.PrepareSettles? && !ControllerSide.Grants(p, e) && !ControllerSide.Stops(p, e)
    ensures ControllerSide.Grants(p, e) ==> e.GrantSettles? && !ControllerSide.Stops(p, e)
    ensures ControllerSide.Stops(p, e) ==> e.StopCalled?
  {
  }
}
