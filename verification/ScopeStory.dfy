/** What becomes of each call of a reservation scope, told from the events of the run. */
module ScopeStory {
  import opened Common
  import opened ReservationScopes

  // Causes, told from where the call stands and from what its await brings.

  /** The acquisition, the factories or the body of the call throw this error. */
  predicate BodyFails(s: Scopes, e: Event, id: nat, error: string) {
    match e
    case AcquireSettles(k, result, factories) =>
      k == id && s.At(id) == Some(Acquiring) && (result == Some(error) || (result == None && factories == Some(error)))
    case BodySettles(k, result) => k == id && s.At(id) == Some(Using) && result == Some(error)
    case _ => false
  }

  /** The ownership assertion or the close of the reservation throws this error, whatever the body did. */
  predicate ReservationFails(s: Scopes, e: Event, id: nat, error: string) {
    match e
    case AssertSettles(k, result) =>
      k == id && id in s.scopes && s.scopes[id].Asserting? && s.scopes[id].reserved && result == Some(error)
    case CloseSettles(k, result) =>
      k == id && id in s.scopes && s.scopes[id].Closing? && s.scopes[id].reserved && result == Some(error)
    case _ => false
  }

  predicate BodyWentWell(scope: Scope) {
    match scope
    case Asserting(_, failure) => failure == None
    case Closing(_, failure) => failure == None
    case _ => false
  }

  predicate OnlyReservationFails(s: Scopes, e: Event, id: nat, error: string) {
    ReservationFails(s, e, id, error) && BodyWentWell(s.scopes[id])
  }

  /** The close, if there is anything to close, comes back well after a body that did. */
  predicate Finishes(s: Scopes, e: Event, id: nat) {
    && e.CloseSettles? && e.id == id && id in s.scopes && s.scopes[id].Closing? && s.scopes[id].failure == None
    && (s.scopes[id].reserved ==> e.result == None)
  }

  /** A new call is made while no other is live, nothing has failed, and the clean-up has not begun. */
  predicate IsAdmitted(s: Scopes, e: Event, id: nat) {
    e == Enter(id) && id !in s.scopes && s.active == None && !s.retain && !s.closed
  }

  ghost predicate AnyFails(s: Scopes, e: Event) {
    exists id, error :: BodyFails(s, e, id, error) || ReservationFails(s, e, id, error)
  }

  ghost predicate AnyReservationFails(s: Scopes, e: Event) { exists id, error :: ReservationFails(s, e, id, error) }

  predicate CleanupBegins(s: Scopes, e: Event) { e.Cleanup? && s.active == None && !s.retain }

  predicate Removes(s: Scopes, e: Event) { e == RemovalSettles(true) && 0 < s.removing }

  // The same as causes of one call.

  function BodyFailure(id: nat, error: string): (Scopes, Event) -> bool { (s, e) => BodyFails(s, e, id, error) }

  function ReservationFailure(id: nat, error: string): (Scopes, Event) -> bool { (s, e) => OnlyReservationFails(s, e, id, error) }

  function Finish(id: nat): (Scopes, Event) -> bool { (s, e) => Finishes(s, e, id) }

  function Admission(id: nat): (Scopes, Event) -> bool { (s, e) => IsAdmitted(s, e, id) }

  // One step.

  lemma CallsAreAdmittedExactly(s: Scopes, e: Event, id: nat)
    ensures id in s.Step(e).scopes <==> id in s.scopes || IsAdmitted(s, e, id)
  {
  }

  lemma CallIsExact(s: Scopes, e: Event, id: nat, error: string)
    ensures StillCarries(s.Step(e), id, error) <==> StillCarries(s, id, error) || BodyFails(s, e, id, error)
  {
    if StillCarries(s, id, error) {
      BodyErrorSurvivesAStep(s, id, error, e);
      CarriedIsPastBody(s, e, id, error);
      hide Scopes.Step, StillCarries;
    } else {
      match e
      case AcquireSettles(_, _, _) =>
      case BodySettles(_, _) =>
      case AssertSettles(_, _) =>
      case CloseSettles(_, _) =>
      case _ =>
    }
  }

  lemma CarriedIsPastBody(s: Scopes, e: Event, id: nat, error: string)
    requires StillCarries(s, id, error)
    ensures forall other :: !BodyFails(s, e, id, other)
  {
  }

  /** Whether an event settles the await that this call is in. */
  predicate IsFor(scope: Scope, e: Event, id: nat) {
    match scope
    case Acquiring => e.AcquireSettles? && e.id == id
    case Using => e.BodySettles? && e.id == id
    case Asserting(_, _) => e.AssertSettles? && e.id == id
    case Closing(_, _) => e.CloseSettles? && e.id == id
    case Ended(_, _) => false
  }

  /** Where the call stands after its await: on to the body, on to the clean-up, or at its end. */
  predicate GoesTo(scope: Scope, e: Event, id: nat, next: Scope)
    requires IsFor(scope, e, id)
  {
    match scope
    case Acquiring =>
      if e.result == None && e.factories == None then next.Using? else next.Asserting? && (next.reserved <==> e.result == None)
    case Using => next.Asserting? && next.reserved
    case Asserting(reserved, _) =>
      if reserved && e.result.Some? then next.Ended? else next.Closing? && next.reserved == reserved
    case Closing(_, _) => next.Ended?
    case Ended(_, _) => false
  }

  /** A call goes on by its own awaits alone, one stage at a time, and never stays behind. */
  lemma CallGoesOn(s: Scopes, e: Event, id: nat)
    requires id in s.scopes
    ensures id in s.Step(e).scopes
    ensures if IsFor(s.scopes[id], e, id) then GoesTo(s.scopes[id], e, id, s.Step(e).scopes[id])
            else s.Step(e).scopes[id] == s.scopes[id]
  {
    match e
    case AssertSettles(_, _) =>
    case CloseSettles(_, _) =>
    case _ =>
  }

  ghost predicate EndedWith(s: Scopes, id: nat, outcome: Outcome) {
    id in s.scopes && s.scopes[id].Ended? && s.scopes[id].outcome == outcome
  }

  lemma AssertEndsExactly(s: Scopes, e: Event, id: nat, error: string)
    requires e.AssertSettles?
    ensures var t := s.Step(e);
            && (EndedWith(t, id, CleanupThrew(error)) <==> EndedWith(s, id, CleanupThrew(error)) || OnlyReservationFails(s, e, id, error))
            && (EndedWith(t, id, Returned) <==> EndedWith(s, id, Returned) || Finishes(s, e, id))
  {
  }

  lemma CloseEndsExactly(s: Scopes, e: Event, id: nat, error: string)
    requires e.CloseSettles?
    ensures var t := s.Step(e);
            && (EndedWith(t, id, CleanupThrew(error)) <==> EndedWith(s, id, CleanupThrew(error)) || OnlyReservationFails(s, e, id, error))
            && (EndedWith(t, id, Returned) <==> EndedWith(s, id, Returned) || Finishes(s, e, id))
  {
  }

  lemma EndIsExact(s: Scopes, e: Event, id: nat, error: string)
    ensures var t := s.Step(e);
            && (EndedWith(t, id, CleanupThrew(error)) <==> EndedWith(s, id, CleanupThrew(error)) || OnlyReservationFails(s, e, id, error))
            && (EndedWith(t, id, Returned) <==> EndedWith(s, id, Returned) || Finishes(s, e, id))
  {
    match e
    case AssertSettles(_, _) => AssertEndsExactly(s, e, id, error);
    case CloseSettles(_, _) => CloseEndsExactly(s, e, id, error);
    case _ =>
  }

  lemma CleanupIsExact(s: Scopes, e: Event)
    ensures var t := s.Step(e);
            && (t.closed <==> s.closed || CleanupBegins(s, e))
            && (t.removed <==> s.removed || Removes(s, e))
            && t.removing == s.removing + (if CleanupBegins(s, e) then 1 else 0)
                             - (if e.RemovalSettles? && 0 < s.removing then 1 else 0)
  {
  }

  /** Evidence is kept for any failure, and the other flag set for one of a reservation. */
  lemma FlagsAreExact(s: Scopes, e: Event)
    ensures var t := s.Step(e);
            && (t.retain <==> s.retain || AnyFails(s, e))
            && (t.cleanupFailed <==> s.cleanupFailed || AnyReservationFails(s, e))
  {
    match e
    case AcquireSettles(id, result, factories) =>
      if result.Some? { assert BodyFails(s, e, id, result.value) <==> s.At(id) == Some(Acquiring); }
      else if factories.Some? { assert BodyFails(s, e, id, factories.value) <==> s.At(id) == Some(Acquiring); }
    case BodySettles(id, result) =>
      if result.Some? { assert BodyFails(s, e, id, result.value) <==> s.At(id) == Some(Using); }
    case AssertSettles(id, result) =>
      if result.Some? { assert ReservationFails(s, e, id, result.value) <==> id in s.scopes && s.scopes[id].Asserting? && s.scopes[id].reserved; }
    case CloseSettles(id, result) =>
      if result.Some? { assert ReservationFails(s, e, id, result.value) <==> id in s.scopes && s.scopes[id].Closing? && s.scopes[id].reserved; }
    case _ =>
  }

  // Whole runs.

  ghost predicate Did(s: Scopes, events: seq<Event>, cause: (Scopes, Event) -> bool) {
    exists k :: 0 <= k < |events| && cause(Run(s, events[..k]), events[k])
  }

  lemma DidNext(s: Scopes, events: seq<Event>, cause: (Scopes, Event) -> bool)
    requires events != []
    ensures Did(s, events, cause) <==> cause(s, events[0]) || Did(s.Step(events[0]), events[1..], cause)
  {
    var t, rest := s.Step(events[0]), events[1..];
    hide Scopes.Step;
    assert Run(s, events[..0]) == s;
    forall k | 0 <= k < |rest| ensures Run(t, rest[..k]) == Run(s, events[..k + 1]) && rest[k] == events[k + 1] {
      assert events[..k + 1][1..] == rest[..k];
    }
    if Did(t, rest, cause) {
      var k :| 0 <= k < |rest| && cause(Run(t, rest[..k]), rest[k]);
      assert cause(Run(s, events[..k + 1]), events[k + 1]);
    }
    if Did(s, events, cause) {
      var k :| 0 <= k < |events| && cause(Run(s, events[..k]), events[k]);
      if 0 < k { assert cause(Run(t, rest[..k - 1]), rest[k - 1]); }
    }
  }

  ghost predicate Caused(shows: Scopes -> bool, cause: (Scopes, Event) -> bool) {
    forall s: Scopes, e: Event :: shows(s.Step(e)) <==> shows(s) || cause(s, e)
  }

  lemma {:induction false} Shows(s: Scopes, events: seq<Event>, shows: Scopes -> bool, cause: (Scopes, Event) -> bool)
    requires Caused(shows, cause)
    ensures shows(Run(s, events)) <==> shows(s) || Did(s, events, cause)
    decreases |events|
  {
    hide Scopes.Step;
    if events != [] {
      DidNext(s, events, cause);
      hide Did;
      Shows(s.Step(events[0]), events[1..], shows, cause);
    }
  }

  ghost predicate Happened(events: seq<Event>, cause: (Scopes, Event) -> bool) { Did(FRESH, events, cause) }

  /** Evidence is kept, and the other flags are set, exactly when the history holds their cause. */
  lemma FlagsHaveCauses(events: seq<Event>)
    ensures var s := Run(FRESH, events);
            && (s.retain <==> Happened(events, AnyFails))
            && (s.cleanupFailed <==> Happened(events, AnyReservationFails))
            && (s.closed <==> Happened(events, CleanupBegins))
            && (s.removed <==> Happened(events, Removes))
  {
    forall s: Scopes, e: Event
      ensures s.Step(e).retain <==> s.retain || AnyFails(s, e)
      ensures s.Step(e).cleanupFailed <==> s.cleanupFailed || AnyReservationFails(s, e)
      ensures s.Step(e).closed <==> s.closed || CleanupBegins(s, e)
      ensures s.Step(e).removed <==> s.removed || Removes(s, e)
    {
      FlagsAreExact(s, e);
      CleanupIsExact(s, e);
    }
    hide Scopes.Step, AnyFails, AnyReservationFails, CleanupBegins, Removes, Did;
    Shows(FRESH, events, (s: Scopes) => s.retain, AnyFails);
    Shows(FRESH, events, (s: Scopes) => s.cleanupFailed, AnyReservationFails);
    Shows(FRESH, events, (s: Scopes) => s.closed, CleanupBegins);
    Shows(FRESH, events, (s: Scopes) => s.removed, Removes);
  }

  /**
   * A call throws an error of its body exactly when the body threw it; an error of its clean-up
   * exactly when that threw it and the body did not throw; and it returns exactly when neither did.
   */
  lemma OutcomesHaveCauses(events: seq<Event>, id: nat, error: string)
    ensures var s := Run(FRESH, events);
            && (StillCarries(s, id, error) <==> Happened(events, BodyFailure(id, error)))
            && (EndedWith(s, id, CleanupThrew(error)) <==> Happened(events, ReservationFailure(id, error)))
            && (EndedWith(s, id, Returned) <==> Happened(events, Finish(id)))
            && (id in s.scopes <==> Happened(events, Admission(id)))
  {
    forall s: Scopes, e: Event
      ensures StillCarries(s.Step(e), id, error) <==> StillCarries(s, id, error) || BodyFails(s, e, id, error)
      ensures id in s.Step(e).scopes <==> id in s.scopes || IsAdmitted(s, e, id)
      ensures EndedWith(s.Step(e), id, CleanupThrew(error)) <==>
              EndedWith(s, id, CleanupThrew(error)) || OnlyReservationFails(s, e, id, error)
      ensures EndedWith(s.Step(e), id, Returned) <==> EndedWith(s, id, Returned) || Finishes(s, e, id)
    {
      CallIsExact(s, e, id, error);
      CallsAreAdmittedExactly(s, e, id);
      EndIsExact(s, e, id, error);
    }
    hide Scopes.Step, StillCarries, EndedWith, BodyFails, OnlyReservationFails, Finishes, IsAdmitted, Did;
    Shows(FRESH, events, (s: Scopes) => StillCarries(s, id, error), BodyFailure(id, error));
    Shows(FRESH, events, (s: Scopes) => EndedWith(s, id, CleanupThrew(error)), ReservationFailure(id, error));
    Shows(FRESH, events, (s: Scopes) => EndedWith(s, id, Returned), Finish(id));
    Shows(FRESH, events, (s: Scopes) => id in s.scopes, Admission(id));
  }
}
