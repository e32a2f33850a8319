/**
 * One start attempt with both processes: the controller's closure, the runner, and the two FIFO
 * channels between them.  A channel is what one side posted and how much of it the other side has
 * taken, so the statuses and commands double as the history of the run.
 */
module HandoffSession {
  import opened Common
  import opened HandoffTypes
  import P = HandoffParent
  import C = HandoffChild

  datatype Session = Session(parent: P.Parent, child: C.Child, read: nat, delivered: nat)

  datatype Event =
    | AtParent(own: P.Event)
    | AtChild(inner: C.Event)
    | ToChild(parsed: bool, e2e: bool, threePorts: bool, sendOk: bool)
    | ToParent

  function Init(reservation: Descriptor, port: int): Session {
    Session(P.Init(reservation, port), C.Init(), 0, 0)
  }

  /** Statuses come only through the channel, and an exit is observed only of a process that ended. */
  function StepParent(s: Session, e: P.Event): Session {
    if e.Receive? || (e.ExitEvent? && !s.child.Dead()) then s else s.(parent := s.parent.Step(e))
  }

  function StepChild(s: Session, e: C.Event): Session {
    if e.Deliver? then s else s.(child := s.child.Step(e))
  }

  function DeliverCommand(s: Session, parsed: bool, e2e: bool, threePorts: bool, sendOk: bool): Session {
    if |s.parent.posted| <= s.read || s.child.Dead() then s
    else
      var command := s.parent.posted[s.read];
      s.(child := s.child.Step(C.Deliver(command, parsed, e2e, threePorts, sendOk)), read := s.read + 1)
  }

  function DeliverStatus(s: Session): Session {
    if |s.child.posted| <= s.delivered then s
    else s.(parent := s.parent.Step(P.Receive(s.child.posted[s.delivered])), delivered := s.delivered + 1)
  }

  function Step(s: Session, e: Event): Session {
    match e
    case AtParent(own) => StepParent(s, own)
    case AtChild(inner) => StepChild(s, inner)
    case ToChild(parsed, e2e, threePorts, sendOk) => DeliverCommand(s, parsed, e2e, threePorts, sendOk)
    case ToParent => DeliverStatus(s)
  }

  function Run(s: Session, events: seq<Event>): Session
    decreases |events|
  {
    if events == [] then s else Run(Step(s, events[0]), events[1..])
  }

  ghost predicate HeardReservation(s: Session) {
    exists i :: 0 <= i < s.delivered && i < |s.child.posted| && s.child.posted[i].ReservationReady?
  }

  ghost predicate HeardReady(s: Session) {
    exists i :: 0 <= i < s.delivered && i < |s.child.posted| && s.child.posted[i] == Ready(s.parent.port)
  }

  /** What each side has learnt is what the other side really did. */
  ghost predicate Linked(s: Session) {
    && s.read <= |s.parent.posted| && s.delivered <= |s.child.posted|
    && (s.child.prepared.Some? ==> 1 <= s.read && s.child.prepared.value == s.parent.reservation)
    && (s.child.startAttempted.On? ==> 2 <= s.read)
    && (P.Announced(s.parent.handoff) ==> HeardReservation(s))
    && (s.parent.promise.Resolved? ==> HeardReady(s))
    && s.parent.misordered.Off? && s.child.misordered.Off?
    && (s.parent.exitSeen.On? ==> s.child.Dead())
  }

  ghost predicate Inv(s: Session) { s.parent.Valid() && s.child.Valid() && Linked(s) }

  /** The relation every step keeps, whatever its cause. */
  ghost predicate Follows(s: Session, t: Session) {
    P.Moves(s.parent, t.parent) && C.Grows(s.child, t.child) && s.read <= t.read && s.delivered <= t.delivered
  }

  /** Statuses already taken stay taken. */
  lemma HearingLasts(s: Session, t: Session)
    requires s.parent.port == t.parent.port && s.child.posted <= t.child.posted && s.delivered <= t.delivered
    ensures HeardReservation(s) ==> HeardReservation(t)
    ensures HeardReady(s) ==> HeardReady(t)
  {
    if HeardReservation(s) {
      var i :| 0 <= i < s.delivered && i < |s.child.posted| && s.child.posted[i].ReservationReady?;
      assert t.child.posted[i].ReservationReady?;
    }
    if HeardReady(s) {
      var i :| 0 <= i < s.delivered && i < |s.child.posted| && s.child.posted[i] == Ready(s.parent.port);
      assert t.child.posted[i] == Ready(t.parent.port);
    }
  }

  lemma ParentStepKeepsInv(s: Session, e: P.Event)
    requires Inv(s)
    ensures Inv(StepParent(s, e)) && Follows(s, StepParent(s, e))
  {
    P.StepMoves(s.parent, e);
    P.StepCauses(s.parent, e);
    assert s.parent.grantTask.Awaiting? ==> P.Announced(s.parent.handoff);
    if !e.Receive? {
      P.StepKeepsValid(s.parent, e);
      if s.parent.Step(e).promise.Resolved? && !s.parent.promise.Resolved? {
        P.OnlyReadyResolves(s.parent, e);
      }
    }
    HearingLasts(s, StepParent(s, e));
    hide P.Parent.Step, P.Parent.Valid, C.Child.Valid;
  }

  lemma ChildStepKeepsInv(s: Session, e: C.Event)
    requires Inv(s)
    ensures Inv(StepChild(s, e)) && Follows(s, StepChild(s, e))
  {
    C.StepKeepsValid(s.child, e);
    if s.child.Dead() { C.DeadStaysDead(s.child, e); }
    hide C.Child.Step, P.Parent.Valid, C.Child.Valid, C.Child.Dead;
    HearingLasts(s, StepChild(s, e));
  }

  /** Commands arrive in the order the runner expects them. */
  lemma CommandKeepsInv(s: Session, parsed: bool, e2e: bool, threePorts: bool, sendOk: bool)
    requires Inv(s)
    ensures Inv(DeliverCommand(s, parsed, e2e, threePorts, sendOk))
    ensures Follows(s, DeliverCommand(s, parsed, e2e, threePorts, sendOk))
  {
    if s.read < |s.parent.posted| && !s.child.Dead() {
      var command := s.parent.posted[s.read];
      C.StepKeepsValid(s.child, C.Deliver(command, parsed, e2e, threePorts, sendOk));
      if HeardReservation(s) {
        var i :| 0 <= i < s.delivered && i < |s.child.posted| && s.child.posted[i].ReservationReady?;
        assert s.child.Explains(s.child.posted[i]);
      }
      HearingLasts(s, DeliverCommand(s, parsed, e2e, threePorts, sendOk));
      C.CommandEffects(s.child, command, parsed, e2e, threePorts, sendOk);
      hide C.Child.Step;
    }
  }

  /** Statuses arrive only when the controller is ready for them. */
  lemma StatusKeepsInv(s: Session)
    requires Inv(s)
    ensures Inv(DeliverStatus(s)) && Follows(s, DeliverStatus(s))
  {
    if s.delivered < |s.child.posted| {
      var status := s.child.posted[s.delivered];
      assert s.child.Explains(status);
      P.StepKeepsValid(s.parent, P.Receive(status));
      P.StepMoves(s.parent, P.Receive(status));
      HearingLasts(s, DeliverStatus(s));
      if DeliverStatus(s).parent.promise.Resolved? && !s.parent.promise.Resolved? {
        P.OnlyReadyResolves(s.parent, P.Receive(status));
        assert DeliverStatus(s).child.posted[s.delivered] == Ready(s.parent.port);
      }
    }
  }

  lemma StepKeepsInv(s: Session, e: Event)
    requires Inv(s)
    ensures Inv(Step(s, e)) && Follows(s, Step(s, e))
  {
    hide Inv, Follows, StepParent, StepChild, DeliverCommand, DeliverStatus;
    match e
    case AtParent(own) => ParentStepKeepsInv(s, own);
    case AtChild(inner) => ChildStepKeepsInv(s, inner);
    case ToChild(parsed, e2e, threePorts, sendOk) => CommandKeepsInv(s, parsed, e2e, threePorts, sendOk);
    case ToParent => StatusKeepsInv(s);
  }

  lemma FollowsIsTransitive(s: Session, t: Session, u: Session)
    requires Follows(s, t) && Follows(t, u)
    ensures Follows(s, u)
  {
  }

  lemma {:induction false} RunKeepsInv(s: Session, events: seq<Event>)
    requires Inv(s)
    ensures Inv(Run(s, events)) && Follows(s, Run(s, events))
    decreases |events|
  {
    if events != [] {
      StepKeepsInv(s, events[0]);
      RunKeepsInv(Step(s, events[0]), events[1..]);
      FollowsIsTransitive(s, Step(s, events[0]), Run(s, events));
    }
  }

  // The theorems.  `before` is any run of the two processes from a fresh fork, `after` any continuation.

  /** The two processes make progress only along the one path, and the start resolves only at its end. */
  lemma ResolvesOnlyAfterFullHandshake(reservation: Descriptor, port: int, before: seq<Event>)
    ensures var s := Run(Init(reservation, port), before);
            && s.parent.milestones <= P.FULL_START
            && (s.parent.promise.Resolved? <==> s.parent.milestones == P.FULL_START)
            && (s.parent.promise.Resolved? ==> HeardReservation(s) && HeardReady(s) && s.child.writingImportStarted.On?)
  {
    var s := Run(Init(reservation, port), before);
    RunKeepsInv(Init(reservation, port), before);
    if s.parent.promise.Resolved? {
      var i :| 0 <= i < s.delivered && i < |s.child.posted| && s.child.posted[i] == Ready(s.parent.port);
      assert s.child.Explains(s.child.posted[i]);
    }
  }

  /** The writing import starts only in a runner whose controller has granted and posted `start`. */
  lemma ImportOnlyAfterGrant(reservation: Descriptor, port: int, before: seq<Event>)
    ensures var s := Run(Init(reservation, port), before);
            s.child.writingImportStarted.On? ==>
              && s.parent.handoff.Granted? && P.FULL_START[..6] <= s.parent.milestones
              && s.child.prepared == Some(reservation) && 2 <= s.read <= |s.parent.posted|
              && s.parent.posted[1] == Start(reservation.generationId)
  {
    var s := Run(Init(reservation, port), before);
    RunKeepsInv(Init(reservation, port), before);
    if s.child.writingImportStarted.On? {
      assert P.FULL_START[..6] == s.parent.milestones[..6];
    }
  }

  /** Neither side ever refuses the other's message as out of order. */
  lemma PeersNeverMisorder(reservation: Descriptor, port: int, before: seq<Event>)
    ensures var s := Run(Init(reservation, port), before);
            s.parent.misordered.Off? && s.child.misordered.Off?
  {
    RunKeepsInv(Init(reservation, port), before);
  }

  /** Shutting down before the import means no import, and shutting down at all means no later `ready`. */
  lemma CancelledRunnerStaysQuiet(reservation: Descriptor, port: int, before: seq<Event>, after: seq<Event>)
    ensures var s := Run(Init(reservation, port), before);
            var t := Run(s, after);
            s.child.cancelled.On? ==>
              && t.child.writingImportStarted == s.child.writingImportStarted
              && forall i :: |s.child.posted| <= i < |t.child.posted| ==> !t.child.posted[i].Ready?
  {
    RunKeepsInv(Init(reservation, port), before);
    RunKeepsInv(Run(Init(reservation, port), before), after);
  }

  /** A runner that reaches `process.exit` has tried to close all it created; code 0 admits no failure. */
  lemma ExitLeaksNothing(reservation: Descriptor, port: int, before: seq<Event>)
    ensures var c := Run(Init(reservation, port), before).child;
            c.shutdownTask.Exited? ==>
              && c.owned.NoneOpen()
              && (c.shutdownTask.code == 0 ==> c.closeFailed.Off? && Failed !in c.posted)
    ensures var posted := Run(Init(reservation, port), before).child.posted;
            forall i, j :: 0 <= i < j < |posted| && posted[i].Failed? ==> !posted[j].Ready?
  {
    RunKeepsInv(Init(reservation, port), before);
    var c := Run(Init(reservation, port), before).child;
    forall i, j | 0 <= i < j < |c.posted| && c.posted[i].Failed? ensures !c.posted[j].Ready? {
      assert C.MayFollow(c.posted[i], c.posted[j]);
    }
    if Failed in c.posted {
      var i :| 0 <= i < |c.posted| && c.posted[i] == Failed;
      assert c.Explains(c.posted[i]);
    }
  }

  /** Once settled, a start keeps its outcome and its controller posts nothing but `shutdown`. */
  lemma NoStartAfterSettlement(reservation: Descriptor, port: int, before: seq<Event>, after: seq<Event>)
    ensures var s := Run(Init(reservation, port), before);
            var t := Run(s, after);
            s.parent.settled.On? ==>
              && !s.parent.promise.Pending? && t.parent.promise == s.parent.promise
              && s.parent.posted <= t.parent.posted
              && forall i :: |s.parent.posted| <= i < |t.parent.posted| ==> t.parent.posted[i].Shutdown?
  {
    RunKeepsInv(Init(reservation, port), before);
    RunKeepsInv(Run(Init(reservation, port), before), after);
  }

  /** A rejected start has withdrawn its reservation; an unsettled one still has its timer running. */
  lemma RejectedStartIsInvalidated(reservation: Descriptor, port: int, before: seq<Event>)
    ensures var p := Run(Init(reservation, port), before).parent;
            && (p.promise.Rejected? ==> p.invalidated.On? && p.aborted.On?)
            && (p.promise.Pending? <==> p.timerArmed.On?)
            && (p.exitSeen.On? && p.stopping.Off? ==> p.invalidated.On?)
  {
    RunKeepsInv(Init(reservation, port), before);
  }

  /** An event of the run that ends an unsettled start, at either end of the status channel. */
  predicate EndsStart(s: Session, e: Event) {
    match e
    case AtParent(own) => !own.Receive? && P.Ends(s.parent, own) && (own.ExitEvent? ==> s.child.Dead())
    case ToParent => s.delivered < |s.child.posted| && P.Ends(s.parent, P.Receive(s.child.posted[s.delivered]))
    case _ => false
  }

  /** A rejected start, for good: reservation withdrawn, operations aborted, timer off. */
  ghost predicate RejectedForGood(s: Session) {
    s.parent.promise.Rejected? && s.parent.invalidated.On? && s.parent.aborted.On? && s.parent.timerArmed.Off?
  }

  lemma RejectedLeaves(s: Session)
    requires Inv(s) && s.parent.promise.Rejected?
    ensures RejectedForGood(s)
  {
  }

  /** Whatever ends an unsettled start, in any run, rejects it and withdraws its reservation for good. */
  lemma FailuresReject(reservation: Descriptor, port: int, before: seq<Event>, e: Event, after: seq<Event>)
    requires Run(Init(reservation, port), before).parent.settled.Off? && EndsStart(Run(Init(reservation, port), before), e)
    ensures RejectedForGood(Run(Step(Run(Init(reservation, port), before), e), after))
  {
    var s := Run(Init(reservation, port), before);
    RunKeepsInv(Init(reservation, port), before);
    hide Run;
    var own := if e.AtParent? then e.own else P.Receive(s.child.posted[s.delivered]);
    P.EndingRejects(s.parent, own);
    StepKeepsInv(s, e);
    RunKeepsInv(Step(s, e), after);
    assert Step(s, e).parent.promise.Rejected?;
    RejectedLeaves(Run(Step(s, e), after));
  }

  lemma DoomLastsAStep(s: Session, e: Event)
    requires Inv(s) && P.Doomed(s.parent)
    ensures P.Doomed(Step(s, e).parent)
  {
    match e
    case AtParent(own) =>
      if !own.Receive? { P.DoomLasts(s.parent, own); }
    case ToParent =>
      if s.delivered < |s.child.posted| {
        assert s.child.Explains(s.child.posted[s.delivered]);
        P.DoomLasts(s.parent, P.Receive(s.child.posted[s.delivered]));
      }
    case _ =>
  }

  lemma {:induction false} DoomLasts(s: Session, events: seq<Event>)
    requires Inv(s) && P.Doomed(s.parent)
    ensures P.Doomed(Run(s, events).parent)
    decreases |events|
  {
    if events != [] {
      StepKeepsInv(s, events[0]);
      DoomLastsAStep(s, events[0]);
      hide Inv, Step, P.Doomed;
      DoomLasts(Step(s, events[0]), events[1..]);
    }
  }

  /**
   * A prepare or a grant that fails, is out of date, or cannot be posted dooms its start: in no
   * continuation does it resolve, and once settled it is rejected with its reservation withdrawn.
   */
  lemma OracleFailuresDoom(reservation: Descriptor, port: int, before: seq<Event>, own: P.Event, after: seq<Event>)
    requires Run(Init(reservation, port), before).parent.settled.Off?
    requires P.OracleFails(Run(Init(reservation, port), before).parent, own)
    ensures var t := Run(Step(Run(Init(reservation, port), before), AtParent(own)), after);
            !t.parent.promise.Resolved? && (t.parent.settled.On? ==> RejectedForGood(t))
  {
    var s := Run(Init(reservation, port), before);
    RunKeepsInv(Init(reservation, port), before);
    hide Run;
    P.OracleFailureDooms(s.parent, own);
    StepKeepsInv(s, AtParent(own));
    DoomLasts(Step(s, AtParent(own)), after);
    RunKeepsInv(Step(s, AtParent(own)), after);
    DoomedIsUnresolved(Run(Step(s, AtParent(own)), after));
  }

  lemma DoomedIsUnresolved(t: Session)
    requires Inv(t) && P.Doomed(t.parent)
    ensures !t.parent.promise.Resolved? && (t.parent.settled.On? ==> RejectedForGood(t))
  {
  }

  // The one path to a resolved start exists: a run along it.

  lemma {:induction false} RunJoins(s: Session, first: seq<Event>, second: seq<Event>)
    ensures Run(s, first + second) == Run(Run(s, first), second)
    decreases |first|
  {
    hide Step;
    if first == [] {
      assert first + second == second;
    } else {
      assert (first + second)[1..] == first[1..] + second;
      RunJoins(Step(s, first[0]), first[1..], second);
    }
  }

  lemma RunOfOne(s: Session, e: Event)
    ensures Run(s, [e]) == Step(s, e)
  {
    hide Step;
  }

  const PREPARE_STEPS: seq<Event> :=
    [AtParent(P.SpawnEvent)] + [AtParent(P.PrepareBegins)] + [AtParent(P.PrepareSettles(true, true))] +
    [ToChild(true, true, true, true)]

  const RESERVE_STEPS: seq<Event> :=
    [AtChild(C.AcquireSettles(true, false))] + [AtChild(C.OwnedSettles(true, true))] + [ToParent] +
    [AtParent(P.GrantBegins)]

  const GRANT_STEPS: seq<Event> :=
    [AtParent(P.GrantSettles(true, true, true))] + [ToChild(true, true, true, true)] +
    [AtChild(C.OwnedBeforeImport(true, 2, true, true))] + [AtChild(C.ImportSettles(true, true, true))]

  function ReadySteps(port: int): seq<Event> {
    [AtChild(C.OwnedAfterImport(true, true, true))] + [AtChild(C.BackendStarts(true, true, true, true))] +
    [AtChild(C.OwnedBeforeReady(true, port, true, true, true))] + [ToParent]
  }

  lemma RunOfFour(s: Session, a: Event, b: Event, c: Event, d: Event)
    ensures Run(s, [a] + [b] + [c] + [d]) == Step(Step(Step(Step(s, a), b), c), d)
  {
    hide Step, Run;
    RunJoins(s, [a] + [b] + [c], [d]);
    RunJoins(s, [a] + [b], [c]);
    RunJoins(s, [a], [b]);
    RunOfOne(s, a);
    RunOfOne(Step(s, a), b);
    RunOfOne(Step(Step(s, a), b), c);
    RunOfOne(Step(Step(Step(s, a), b), c), d);
  }

  function PreparedState(r: Descriptor, port: int): Session {
    Session(
      P.Init(r, port).(spawnSeen := On, handoff := P.Reserved, prepareTask := P.Done,
                       posted := [Prepare(r)], milestones := P.FULL_START[..2]),
      C.Init().(prepared := Some(r), prepareTask := C.Acquiring), 1, 0)
  }

  function ReservedState(r: Descriptor, port: int): Session {
    var s := PreparedState(r, port);
    Session(
      s.parent.(handoff := P.Authorizing, grantTask := P.Awaiting, milestones := P.FULL_START[..4]),
      s.child.(held := On, listening := On, reservationReady := On, prepareTask := C.Prepared,
               posted := [ReservationReady(r)]), 1, 1)
  }

  function GrantedState(r: Descriptor, port: int): Session {
    var s := ReservedState(r, port);
    Session(
      s.parent.(handoff := P.Granted, grantTask := P.Done, milestones := P.FULL_START[..6],
                posted := [Prepare(r), Start(r.generationId)]),
      s.child.(startAttempted := On, writingImportStarted := On, startTask := C.OwningAfterImport,
               owned := C.Owned(C.Absent, C.Created, C.Created, C.Absent)), 2, 1)
  }

  lemma Prepares(r: Descriptor, port: int)
    ensures Run(Init(r, port), PREPARE_STEPS) == PreparedState(r, port)
  {
    RunOfFour(Init(r, port), AtParent(P.SpawnEvent), AtParent(P.PrepareBegins), AtParent(P.PrepareSettles(true, true)),
              ToChild(true, true, true, true));
    hide Run;
  }

  lemma Reserves(r: Descriptor, port: int)
    ensures Run(PreparedState(r, port), RESERVE_STEPS) == ReservedState(r, port)
  {
    RunOfFour(PreparedState(r, port), AtChild(C.AcquireSettles(true, false)), AtChild(C.OwnedSettles(true, true)), ToParent,
              AtParent(P.GrantBegins));
    hide Run;
  }

  lemma Grants(r: Descriptor, port: int)
    ensures Run(ReservedState(r, port), GRANT_STEPS) == GrantedState(r, port)
  {
    RunOfFour(ReservedState(r, port), AtParent(P.GrantSettles(true, true, true)), ToChild(true, true, true, true),
              AtChild(C.OwnedBeforeImport(true, 2, true, true)), AtChild(C.ImportSettles(true, true, true)));
    hide Run;
  }

  lemma Readies(r: Descriptor, port: int)
    ensures Run(GrantedState(r, port), ReadySteps(port)).parent.promise.Resolved?
  {
    RunOfFour(GrantedState(r, port), AtChild(C.OwnedAfterImport(true, true, true)),
              AtChild(C.BackendStarts(true, true, true, true)),
              AtChild(C.OwnedBeforeReady(true, port, true, true, true)), ToParent);
    hide Run;
  }

  /** With every oracle answering well, the start resolves. */
  lemma FullStartHappens(r: Descriptor, port: int)
    ensures Run(Init(r, port), PREPARE_STEPS + RESERVE_STEPS + GRANT_STEPS + ReadySteps(port)).parent.promise.Resolved?
  {
    hide Run, PREPARE_STEPS, RESERVE_STEPS, GRANT_STEPS, ReadySteps, PreparedState, ReservedState, GrantedState;
    RunJoins(Init(r, port), PREPARE_STEPS + RESERVE_STEPS + GRANT_STEPS, ReadySteps(port));
    RunJoins(Init(r, port), PREPARE_STEPS + RESERVE_STEPS, GRANT_STEPS);
    RunJoins(Init(r, port), PREPARE_STEPS, RESERVE_STEPS);
    Prepares(r, port);
    Reserves(r, port);
    Grants(r, port);
    Readies(r, port);
  }
}
