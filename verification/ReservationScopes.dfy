/**
 * Reservation scopes of the first-start proof and the clean-up of their common directory.  A call
 * of `withWorkspaceReservation` is cut at its awaits; what an await brings is part of the event.
 */
module ReservationScopes {
  import opened Common

  datatype Outcome = Returned | BodyThrew(error: string) | CleanupThrew(error: string)

  /** Where one call stands.  `reserved` says that it holds a reservation, `failure` what its body threw. */
  datatype Scope =
    | Acquiring
    | Using
    | Asserting(reserved: bool, failure: Option<string>)
    | Closing(reserved: bool, failure: Option<string>)
    | Ended(outcome: Outcome, cleanupFailed: bool)

  /** The result of an awaited step: nothing, or the error thrown. */
  type Settled = Option<string>

  datatype Event =
    | Enter(id: nat)
    | AcquireSettles(id: nat, result: Settled, factories: Settled)
    | BodySettles(id: nat, result: Settled)
    | AssertSettles(id: nat, result: Settled)
    | CloseSettles(id: nat, result: Settled)
    | Cleanup
    | RemovalSettles(removed: bool)

  /** `scopes` (every call admitted), `removing` and `removed` (of the directory) are history. */
  datatype Scopes = Scopes(
    active: Option<nat>, retain: bool, cleanupFailed: bool, closed: bool,
    scopes: map<nat, Scope>, removing: nat, removed: bool)
  {
    predicate Admits() { active == None && !retain && !closed }

    function At(id: nat): Option<Scope> { if id in scopes then Some(scopes[id]) else None }

    function Put(id: nat, scope: Scope): Scopes { this.(scopes := scopes[id := scope]) }

    /** A fresh identity enters, or is turned away. */
    function OnEnter(id: nat): Scopes {
      if id in scopes || !Admits() then this else Put(id, Acquiring).(active := Some(id))
    }

    /** The body, from the first await to the last, has come to an end. */
    function BodyEnds(id: nat, reserved: bool, failure: Settled): Scopes {
      Put(id, Asserting(reserved, failure)).(retain := retain || failure.Some?)
    }

    /** With the reservation in hand the factories are made; that may throw as well. */
    function OnAcquire(id: nat, result: Settled, factories: Settled): Scopes {
      if At(id) != Some(Acquiring) then this
      else if result.Some? then BodyEnds(id, false, result)
      else if factories.Some? then BodyEnds(id, true, factories)
      else Put(id, Using)
    }

    function OnBody(id: nat, result: Settled): Scopes {
      if At(id) != Some(Using) then this else BodyEnds(id, true, result)
    }

    /** The call is over: its own error comes first, then that of the clean-up. */
    function End(id: nat, failure: Settled, trouble: Settled): Scopes {
      var outcome := if failure.Some? then BodyThrew(failure.value) else if trouble.Some? then CleanupThrew(trouble.value) else Returned;
      Put(id, Ended(outcome, trouble.Some?)).(
        active := None, retain := retain || trouble.Some?, cleanupFailed := cleanupFailed || trouble.Some?)
    }

    function OnAssert(id: nat, result: Settled): Scopes {
      if id !in scopes || !scopes[id].Asserting? then this
      else
        var scope := scopes[id];
        if scope.reserved && result.Some? then End(id, scope.failure, result)
        else Put(id, Closing(scope.reserved, scope.failure))
    }

    function OnClose(id: nat, result: Settled): Scopes {
      if id !in scopes || !scopes[id].Closing? then this
      else End(id, scopes[id].failure, if scopes[id].reserved then result else None)
    }

    predicate AdmitsCleanup() { active == None && !retain }

    function OnCleanup(): Scopes {
      if AdmitsCleanup() then this.(closed := true, removing := removing + 1) else this
    }

    function OnRemoval(success: bool): Scopes {
      if removing == 0 then this else this.(removing := removing - 1, removed := removed || success)
    }

    function Step(e: Event): Scopes {
      match e
      case Enter(id) => OnEnter(id)
      case AcquireSettles(id, result, factories) => OnAcquire(id, result, factories)
      case BodySettles(id, result) => OnBody(id, result)
      case AssertSettles(id, result) => OnAssert(id, result)
      case CloseSettles(id, result) => OnClose(id, result)
      case Cleanup => OnCleanup()
      case RemovalSettles(success) => OnRemoval(success)
    }

    /** The scope assertion of one call, given who owns the single instance. */
    predicate AssertsScope(id: nat, ownsInstance: bool) { ownsInstance && active == Some(id) }

    predicate Live(id: nat) { id in scopes && !scopes[id].Ended? }

    predicate Failed(id: nat) {
      id in scopes && match scopes[id]
        case Acquiring => false
        case Using => false
        case Asserting(_, failure) => failure.Some?
        case Closing(_, failure) => failure.Some?
        case Ended(outcome, _) => outcome != Returned
    }

    predicate CleanupFailed(id: nat) { id in scopes && scopes[id].Ended? && scopes[id].cleanupFailed }

    ghost predicate Valid() {
      && (forall id: nat :: active == Some(id) <==> Live(id))
      && (retain <==> exists id :: Failed(id))
      && (cleanupFailed <==> exists id :: CleanupFailed(id))
      && (forall id :: CleanupFailed(id) ==> Failed(id))
      && (closed ==> active == None && !retain)
      && (0 < removing || removed ==> closed)
    }
  }

  const FRESH: Scopes := Scopes(None, false, false, false, map[], 0, false)

  function Run(s: Scopes, events: seq<Event>): Scopes
    decreases |events|
  {
    if events == [] then s else Run(s.Step(events[0]), events[1..])
  }

  /** Moving one live call on: what must hold of its new stage. */
  lemma PutKeepsValid(s: Scopes, id: nat, scope: Scope, t: Scopes)
    requires s.Valid() && s.Live(id) && t.scopes == s.scopes[id := scope]
    requires s.Failed(id) ==> t.Failed(id)
    requires t.active == (if scope.Ended? then None else s.active)
    requires t.retain == (s.retain || t.Failed(id))
    requires t.cleanupFailed == (s.cleanupFailed || t.CleanupFailed(id))
    requires t.CleanupFailed(id) ==> t.Failed(id)
    requires t.closed == s.closed && t.removing == s.removing && t.removed == s.removed
    ensures t.Valid()
  {
    assert forall k :: k != id ==> (s.Failed(k) <==> t.Failed(k)) && (s.CleanupFailed(k) <==> t.CleanupFailed(k));
    assert forall k :: k != id ==> (s.Live(k) <==> t.Live(k));
  }

  lemma EnterKeepsValid(s: Scopes, id: nat)
    requires s.Valid()
    ensures s.OnEnter(id).Valid()
  {
    if id !in s.scopes && s.Admits() {
      var t := s.OnEnter(id);
      assert forall k :: s.Failed(k) <==> t.Failed(k);
      assert forall k :: s.CleanupFailed(k) <==> t.CleanupFailed(k);
      assert forall k :: k != id ==> (s.Live(k) <==> t.Live(k));
    }
  }

  lemma StepKeepsValid(s: Scopes, e: Event)
    requires s.Valid()
    ensures s.Step(e).Valid()
  {
    match e {
      case Enter(id) => EnterKeepsValid(s, id);
      case Cleanup => CleanupKeepsValid(s, e);
      case RemovalSettles(_) => CleanupKeepsValid(s, e);
      case _ => ProgressKeepsValid(s, e);
    }
  }

  lemma CleanupKeepsValid(s: Scopes, e: Event)
    requires s.Valid() && (e.Cleanup? || e.RemovalSettles?)
    ensures s.Step(e).Valid()
  {
    var t := s.Step(e);
    assert forall k :: (s.Failed(k) <==> t.Failed(k)) && (s.CleanupFailed(k) <==> t.CleanupFailed(k)) && (s.Live(k) <==> t.Live(k));
  }

  lemma ProgressKeepsValid(s: Scopes, e: Event)
    requires s.Valid() && !e.Enter? && !e.Cleanup? && !e.RemovalSettles?
    ensures s.Step(e).Valid()
  {
    var t := s.Step(e);
    if t != s {
      assert s.Live(e.id);
      PutKeepsValid(s, e.id, t.scopes[e.id], t);
    }
  }

  lemma {:induction false} RunKeepsValid(s: Scopes, events: seq<Event>)
    requires s.Valid()
    ensures Run(s, events).Valid()
    decreases |events|
  {
    if events != [] {
      StepKeepsValid(s, events[0]);
      RunKeepsValid(s.Step(events[0]), events[1..]);
    }
  }

  /** At most one call is live, and it alone passes the scope assertion. */
  lemma ScopesExclude(events: seq<Event>, a: nat, b: nat, ownsInstance: bool)
    ensures var s := Run(FRESH, events);
            && (s.Live(a) && s.Live(b) ==> a == b)
            && (s.AssertsScope(a, ownsInstance) <==> ownsInstance && s.Live(a))
  {
    assert FRESH.Valid();
    RunKeepsValid(FRESH, events);
  }

  lemma EndingLastsAStep(s: Scopes, id: nat, e: Event)
    requires id in s.scopes && s.scopes[id].Ended?
    ensures s.Step(e).At(id) == s.At(id)
  {
  }

  lemma {:induction false} EndingLasts(s: Scopes, id: nat, events: seq<Event>)
    requires id in s.scopes && s.scopes[id].Ended?
    ensures Run(s, events).At(id) == s.At(id)
    decreases |events|
  {
    if events != [] {
      EndingLastsAStep(s, id, events[0]);
      hide Scopes.Step;
      EndingLasts(s.Step(events[0]), id, events[1..]);
    }
  }

  /** The authority of a call that has ended never revives. */
  lemma AuthorityNeverRevives(before: seq<Event>, id: nat, after: seq<Event>, ownsInstance: bool)
    requires id in Run(FRESH, before).scopes && Run(FRESH, before).scopes[id].Ended?
    ensures !Run(Run(FRESH, before), after).AssertsScope(id, ownsInstance)
  {
    assert FRESH.Valid();
    RunKeepsValid(FRESH, before);
    RunKeepsValid(Run(FRESH, before), after);
    EndingLasts(Run(FRESH, before), id, after);
  }

  /** After a failure: no call is admitted, no clean-up is, and the directory stays. */
  lemma {:induction false} EvidenceIsKept(s: Scopes, events: seq<Event>)
    requires s.Valid() && s.retain
    ensures var t := Run(s, events);
            t.retain && !t.Admits() && !t.AdmitsCleanup() && !t.removed && t.removing == 0 && t.scopes.Keys == s.scopes.Keys
    decreases |events|
  {
    if events != [] {
      StepKeepsValid(s, events[0]);
      var t := s.Step(events[0]);
      assert t.retain && t.scopes.Keys == s.scopes.Keys;
      EvidenceIsKept(t, events[1..]);
    }
  }

  /** Any failure of a call or of its reservation's close forbids every later call and the removal. */
  lemma FailureForbids(before: seq<Event>, id: nat, after: seq<Event>)
    requires Run(FRESH, before).Failed(id)
    ensures var s := Run(FRESH, before);
            var t := Run(s, after);
            !t.Admits() && !t.AdmitsCleanup() && !t.removed && t.removing == 0 && t.scopes.Keys == s.scopes.Keys
  {
    assert FRESH.Valid();
    RunKeepsValid(FRESH, before);
    EvidenceIsKept(Run(FRESH, before), after);
  }

  /** The directory is removed only when every call ever admitted has returned and closed its reservation. */
  lemma RemovalMeansSuccess(events: seq<Event>, id: nat)
    ensures var s := Run(FRESH, events);
            (s.removed || 0 < s.removing) && id in s.scopes ==> s.scopes[id] == Ended(Returned, false)
  {
    assert FRESH.Valid();
    RunKeepsValid(FRESH, events);
    var s := Run(FRESH, events);
    if (s.removed || 0 < s.removing) && id in s.scopes {
      assert !s.Live(id) && !s.Failed(id) && !s.CleanupFailed(id);
    }
  }

  predicate Carries(scope: Scope, error: string) {
    match scope
    case Acquiring => false
    case Using => false
    case Asserting(_, failure) => failure == Some(error)
    case Closing(_, failure) => failure == Some(error)
    case Ended(outcome, _) => outcome == BodyThrew(error)
  }

  /** The error `id` carries is still there in `t`. */
  ghost predicate StillCarries(t: Scopes, id: nat, error: string) { id in t.scopes && Carries(t.scopes[id], error) }

  lemma OthersLeaveError(s: Scopes, id: nat, error: string, other: nat)
    requires StillCarries(s, id, error)
    ensures StillCarries(s.OnEnter(other), id, error)
    ensures StillCarries(s.OnCleanup(), id, error)
    ensures StillCarries(s.OnRemoval(true), id, error) && StillCarries(s.OnRemoval(false), id, error)
  {
  }

  lemma BodyLeavesError(s: Scopes, id: nat, error: string, other: nat, result: Settled, factories: Settled)
    requires StillCarries(s, id, error)
    ensures StillCarries(s.OnAcquire(other, result, factories), id, error)
    ensures StillCarries(s.OnBody(other, result), id, error)
  {
  }

  lemma AssertLeavesError(s: Scopes, id: nat, error: string, other: nat, result: Settled)
    requires StillCarries(s, id, error)
    ensures StillCarries(s.OnAssert(other, result), id, error)
  {
  }

  lemma CloseLeavesError(s: Scopes, id: nat, error: string, other: nat, result: Settled)
    requires StillCarries(s, id, error)
    ensures StillCarries(s.OnClose(other, result), id, error)
  {
  }

  lemma BodyErrorSurvivesAStep(s: Scopes, id: nat, error: string, e: Event)
    requires StillCarries(s, id, error)
    ensures StillCarries(s.Step(e), id, error)
  {
    hide StillCarries, Scopes.OnEnter, Scopes.OnAcquire, Scopes.OnBody, Scopes.OnAssert, Scopes.OnClose;
    hide Scopes.OnCleanup, Scopes.OnRemoval;
    match e
    case Enter(other) => OthersLeaveError(s, id, error, other);
    case AcquireSettles(other, result, factories) => BodyLeavesError(s, id, error, other, result, factories);
    case BodySettles(other, result) => BodyLeavesError(s, id, error, other, result, None);
    case AssertSettles(other, result) => AssertLeavesError(s, id, error, other, result);
    case CloseSettles(other, result) => CloseLeavesError(s, id, error, other, result);
    case Cleanup => OthersLeaveError(s, id, error, id);
    case RemovalSettles(_) => OthersLeaveError(s, id, error, id);
  }

  /** What the body threw is what the call throws, however its clean-up goes. */
  lemma {:induction false} BodyErrorSurvives(s: Scopes, id: nat, error: string, events: seq<Event>)
    requires StillCarries(s, id, error)
    ensures StillCarries(Run(s, events), id, error)
    decreases |events|
  {
    if events != [] {
      BodyErrorSurvivesAStep(s, id, error, events[0]);
      hide Scopes.Step, StillCarries;
      BodyErrorSurvives(s.Step(events[0]), id, error, events[1..]);
    }
  }

  /** The factory's variables.  A call's own variables are the arguments of its later parts. */
  class ProofFactories {
    var activeScope: Option<nat>
    var retainEvidence: bool
    var reservationCleanupFailed: bool
    var closed: bool
    ghost var scopes: map<nat, Scope>
    ghost var removing: nat
    ghost var removed: bool

    ghost function State(): Scopes
      reads this
    {
      Scopes(activeScope, retainEvidence, reservationCleanupFailed, closed, scopes, removing, removed)
    }

    constructor ()
      ensures State() == FRESH
    {
      activeScope, retainEvidence, reservationCleanupFailed, closed := None, false, false, false;
      scopes, removing, removed := map[], 0, false;
    }

    /** `admitted` is false where the source throws. */
    method EnterScope(scopeId: nat) returns (admitted: bool)
      requires scopeId !in scopes
      modifies this
      ensures admitted <==> old(State()).Admits()
      ensures State() == old(State()).Step(Enter(scopeId))
    {
      if activeScope != None || retainEvidence || closed { return false; }
      activeScope := Some(scopeId);
      scopes := scopes[scopeId := Acquiring];
      admitted := true;
    }

    method CatchBody(ghost id: nat, ghost reserved: bool, failure: Settled)
      modifies this
      ensures State() == old(State()).BodyEnds(id, reserved, failure)
    {
      if failure.Some? { retainEvidence := true; }
      scopes := scopes[id := Asserting(reserved, failure)];
    }

    method FinishAcquire(ghost id: nat, result: Settled, factories: Settled)
      requires State().At(id) == Some(Acquiring)
      modifies this
      ensures State() == old(State()).Step(AcquireSettles(id, result, factories))
    {
      if result.Some? {
        CatchBody(id, false, result);
      } else if factories.Some? {
        CatchBody(id, true, factories);
      } else {
        scopes := scopes[id := Using];
      }
    }

    method FinishBody(ghost id: nat, result: Settled)
      requires State().At(id) == Some(Using)
      modifies this
      ensures State() == old(State()).Step(BodySettles(id, result))
    {
      CatchBody(id, true, result);
    }

    /** The outer `finally`, once the reservation is closed or one of its two awaits threw. */
    method EndScope(ghost id: nat, failure: Settled, trouble: Settled) returns (outcome: Outcome)
      modifies this
      ensures State() == old(State()).End(id, failure, trouble)
      ensures outcome == State().scopes[id].outcome
      ensures failure.Some? ==> outcome == BodyThrew(failure.value)
    {
      if failure.Some? { outcome := BodyThrew(failure.value); } else { outcome := Returned; }
      if trouble.Some? {
        retainEvidence := true;
        reservationCleanupFailed := true;
        if failure == None { outcome := CleanupThrew(trouble.value); }
      }
      activeScope := None;
      scopes := scopes[id := Ended(outcome, trouble.Some?)];
    }

    method FinishAssert(ghost id: nat, reserved: bool, failure: Settled, result: Settled) returns (outcome: Option<Outcome>)
      requires State().At(id) == Some(Asserting(reserved, failure))
      modifies this
      ensures State() == old(State()).Step(AssertSettles(id, result))
      ensures outcome.Some? <==> reserved && result.Some?
      ensures outcome.Some? ==> scopes[id].Ended? && outcome.value == scopes[id].outcome
    {
      if reserved && result.Some? {
        var thrown := EndScope(id, failure, result);
        return Some(thrown);
      }
      scopes := scopes[id := Closing(reserved, failure)];
      outcome := None;
    }

    method FinishClose(ghost id: nat, reserved: bool, failure: Settled, result: Settled) returns (outcome: Outcome)
      requires State().At(id) == Some(Closing(reserved, failure))
      modifies this
      ensures State() == old(State()).Step(CloseSettles(id, result))
      ensures outcome == scopes[id].outcome
    {
      outcome := EndScope(id, failure, if reserved then result else None);
    }

    method BeginCleanup() returns (admitted: bool)
      modifies this
      ensures admitted <==> old(State()).AdmitsCleanup()
      ensures State() == old(State()).Step(Event.Cleanup)
    {
      if activeScope != None || retainEvidence { return false; }
      closed := true;
      removing := removing + 1;
      admitted := true;
    }
  }
}
