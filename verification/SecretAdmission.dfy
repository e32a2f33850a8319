/**
 * Admission of email-secret operations.  `Begin` is an operation up to its await, `Finish` the
 * rest of it, and `Settle` the assertion that server shutdown makes.  Whatever an operation or the
 * adapter's seal does is an argument of the event.
 */
module SecretAdmission {

  datatype Code = AuditIncomplete | OutcomeUnknown | OperationFailed

  datatype Effect = NoEffect | UnknownEffect

  datatype Error = OperationError(code: Code) | StoreError(effect: Effect) | OtherError

  datatype Kind = Lifecycle | ProviderRead

  datatype Completion = Returns | Throws(error: Error)

  datatype Event =
    | Begin(id: nat, kind: Kind)
    | Finish(id: nat, completion: Completion, sealThrows: bool)
    | Settle(sealThrows: bool)

  /** What a caller observes of an event. */
  datatype Reply = Nothing | Admitted | Value | Threw(error: Error)

  const OUTCOME_UNKNOWN: Error := OperationError(OutcomeUnknown)

  /** The errors that leave the secret store in an unknown state. */
  predicate LeavesDoubt(e: Error) {
    (e.OperationError? && e.code != OperationFailed) || (e.StoreError? && e.effect.UnknownEffect?)
  }

  /** The provider port maps every error of another type to a store error of unknown effect. */
  function OwnError(kind: Kind, e: Error): Error {
    if kind.ProviderRead? && !e.StoreError? then StoreError(UnknownEffect) else e
  }

  /** `inFlight` (admitted, unfinished operations) and `seals` (adapter calls) are history. */
  datatype Admission = Admission(active: int, uncertain: bool, closed: bool, inFlight: map<nat, Kind>, seals: nat) {

    function Seal(throws: bool): Admission {
      if closed then this else this.(closed := true, seals := seals + 1, uncertain := uncertain || throws)
    }

    function OnBegin(id: nat, kind: Kind): Admission {
      if id in inFlight || uncertain || closed then this
      else this.(active := active + 1, inFlight := inFlight[id := kind])
    }

    function BeginReply(id: nat): Reply {
      if id in inFlight then Nothing
      else if uncertain then Threw(OUTCOME_UNKNOWN)
      else if closed then Threw(StoreError(NoEffect))
      else Admitted
    }

    function FinishReply(id: nat, completion: Completion): Reply {
      if id !in inFlight then Nothing
      else match completion
        case Returns => if inFlight[id].ProviderRead? && uncertain then Threw(OUTCOME_UNKNOWN) else Value
        case Throws(e) => Threw(OwnError(inFlight[id], e))
    }

    function OnFinish(id: nat, completion: Completion, sealThrows: bool): Admission {
      if id !in inFlight then this
      else
        var reply := FinishReply(id, completion);
        var caught := if reply.Threw? && LeavesDoubt(reply.error) then this.(uncertain := true).Seal(sealThrows) else this;
        caught.(active := active - 1, inFlight := inFlight - {id})
    }

    function SettleReply(sealThrows: bool): Reply {
      if (!closed && sealThrows) || active != 0 || uncertain then Threw(OUTCOME_UNKNOWN) else Value
    }

    function OnSettle(sealThrows: bool): Admission {
      var shut := Seal(sealThrows);
      if active != 0 || shut.uncertain then shut.(uncertain := true) else shut
    }

    function Step(e: Event): Admission {
      match e
      case Begin(id, kind) => OnBegin(id, kind)
      case Finish(id, completion, sealThrows) => OnFinish(id, completion, sealThrows)
      case Settle(sealThrows) => OnSettle(sealThrows)
    }

    ghost predicate Valid() {
      && active == |inFlight|
      && (uncertain ==> closed)
      && seals == (if closed then 1 else 0)
    }

    /** Closed, certain and drained. */
    ghost predicate Quiescent() { closed && !uncertain && inFlight == map[] && active == 0 }
  }

  const FRESH: Admission := Admission(0, false, false, map[], 0)

  function Run(s: Admission, events: seq<Event>): Admission
    decreases |events|
  {
    if events == [] then s else Run(s.Step(events[0]), events[1..])
  }

  lemma StepKeepsValid(s: Admission, e: Event)
    requires s.Valid()
    ensures s.Step(e).Valid()
  {
    if e.Finish? && e.id in s.inFlight {
      assert (s.inFlight - {e.id}).Keys == s.inFlight.Keys - {e.id};
      assert |s.inFlight - {e.id}| == |s.inFlight.Keys - {e.id}|;
      assert |s.inFlight| == |s.inFlight.Keys|;
    }
  }

  /** Counter, seal and flag agree with what really happened, in every interleaving. */
  lemma {:induction false} RunKeepsValid(s: Admission, events: seq<Event>)
    requires s.Valid()
    ensures Run(s, events).Valid()
    decreases |events|
  {
    if events != [] {
      StepKeepsValid(s, events[0]);
      RunKeepsValid(s.Step(events[0]), events[1..]);
    }
  }

  /** The counter is what is in flight, doubt means closed, and the adapter was sealed at most once. */
  lemma AdmissionIsSound(events: seq<Event>)
    ensures var s := Run(FRESH, events);
            && s.active == |s.inFlight| && (s.uncertain ==> s.closed)
            && s.seals <= 1 && (s.seals == 1 <==> s.closed)
  {
    RunKeepsValid(FRESH, events);
  }

  /**
   * Whether an operation of this kind, failing like this, may have changed the secret without
   * anyone knowing.  Of a provider read, every error but a store error counts as such.
   */
  predicate MayHaveChanged(kind: Kind, e: Error) {
    match (kind, e)
    case (_, StoreError(UnknownEffect)) => true
    case (_, StoreError(NoEffect)) => false
    case (ProviderRead, _) => true
    case (Lifecycle, OperationError(AuditIncomplete)) => true
    case (Lifecycle, OperationError(OutcomeUnknown)) => true
    case (Lifecycle, OperationError(OperationFailed)) => false
    case (Lifecycle, OtherError) => false
  }

  /** An event that must leave doubt, told from the operations in flight and not from the counter. */
  predicate Causes(s: Admission, e: Event) {
    match e
    case Begin(_, _) => false
    case Finish(id, completion, _) =>
      id in s.inFlight && completion.Throws? && MayHaveChanged(s.inFlight[id], completion.error)
    case Settle(sealThrows) => s.inFlight != map[] || (!s.closed && sealThrows)
  }

  ghost predicate CausedWithin(s: Admission, events: seq<Event>) {
    exists k :: 0 <= k < |events| && Causes(Run(s, events[..k]), events[k])
  }

  lemma StepDoubtsIffCaused(s: Admission, e: Event)
    requires s.Valid()
    ensures s.Step(e).uncertain <==> s.uncertain || Causes(s, e)
  {
    if e.Settle? && s.active == 0 {
      assert s.inFlight.Keys == {};
    }
  }

  /** Uncertainty is recorded if and only if the history holds a cause for it. */
  lemma {:induction false} UncertainIffCaused(s: Admission, events: seq<Event>)
    requires s.Valid()
    ensures Run(s, events).uncertain <==> s.uncertain || CausedWithin(s, events)
    decreases |events|
  {
    if events != [] {
      var t, rest := s.Step(events[0]), events[1..];
      StepKeepsValid(s, events[0]);
      StepDoubtsIffCaused(s, events[0]);
      UncertainIffCaused(t, rest);
      CausesFromNext(s, events);
    }
  }

  /** A cause within the events is the first of them, or within the rest. */
  lemma CausesFromNext(s: Admission, events: seq<Event>)
    requires events != []
    ensures CausedWithin(s, events) <==> Causes(s, events[0]) || CausedWithin(s.Step(events[0]), events[1..])
  {
    var t, rest := s.Step(events[0]), events[1..];
    hide Causes, Admission.Step;
    if Causes(s, events[0]) {
      assert Run(s, events[..0]) == s && Causes(Run(s, events[..0]), events[0]);
    }
    forall k | 0 <= k < |rest| ensures Run(t, rest[..k]) == Run(s, events[..k + 1]) && rest[k] == events[k + 1] {
      assert events[..k + 1][1..] == rest[..k];
    }
    if CausedWithin(t, rest) {
      var k :| 0 <= k < |rest| && Causes(Run(t, rest[..k]), rest[k]);
      assert Causes(Run(s, events[..k + 1]), events[k + 1]);
    }
    if CausedWithin(s, events) {
      var k :| 0 <= k < |events| && Causes(Run(s, events[..k]), events[k]);
      if 0 < k {
        assert Causes(Run(t, rest[..k - 1]), rest[k - 1]);
      }
    }
  }

  lemma {:induction false} DoubtLasts(s: Admission, events: seq<Event>)
    requires s.uncertain
    ensures Run(s, events).uncertain
    decreases |events|
  {
    if events != [] {
      DoubtLasts(s.Step(events[0]), events[1..]);
    }
  }

  lemma {:induction false} QuiescenceLasts(s: Admission, events: seq<Event>)
    requires s.Quiescent()
    ensures Run(s, events) == s
    decreases |events|
  {
    if events != [] {
      assert s.Step(events[0]) == s;
      QuiescenceLasts(s, events[1..]);
    }
  }

  /**
   * One settlement assertion decides all later ones, whatever runs in between.  If it succeeds,
   * nothing is in flight any more and no operation is ever admitted again.
   */
  lemma SettlementDecides(before: seq<Event>, sealThrows: bool, after: seq<Event>, sealThrowsLater: bool, id: nat)
    ensures var s := Run(FRESH, before);
            var t := Run(s.Step(Settle(sealThrows)), after);
            && t.SettleReply(sealThrowsLater) == s.SettleReply(sealThrows)
            && (s.SettleReply(sealThrows) == Value ==> t.Quiescent() && t.BeginReply(id) == Threw(StoreError(NoEffect)))
  {
    var s := Run(FRESH, before);
    RunKeepsValid(FRESH, before);
    if s.SettleReply(sealThrows) == Value {
      assert s.inFlight.Keys == {};
      QuiescenceLasts(s.Step(Settle(sealThrows)), after);
    } else {
      DoubtLasts(s.Step(Settle(sealThrows)), after);
    }
  }

  /** The error a caller sees of one thrown: its own, but for a provider read a store error of unknown effect. */
  predicate Surfaces(kind: Kind, thrown: Error, seen: Error) {
    if kind.Lifecycle? || thrown.StoreError? then seen == thrown else seen == StoreError(UnknownEffect)
  }

  /**
   * The answer to an operation in flight, after any run: a value if and only if its work returned
   * and, for a provider read, nothing so far gave cause for doubt; else the error that surfaces, or
   * for such a read "outcome unknown".
   */
  lemma AnswersAreExact(before: seq<Event>, id: nat, completion: Completion)
    requires id in Run(FRESH, before).inFlight
    ensures var s := Run(FRESH, before);
            var reply, doubtful := s.FinishReply(id, completion), s.inFlight[id].ProviderRead? && CausedWithin(FRESH, before);
            match completion
            case Returns => reply == if doubtful then Threw(OUTCOME_UNKNOWN) else Value
            case Throws(error) => reply.Threw? && Surfaces(s.inFlight[id], error, reply.error)
  {
    UncertainIffCaused(FRESH, before);
  }

  /** What a provider read that is in flight may be answered with. */
  ghost predicate ReadInFlight(s: Admission, id: nat) { id in s.inFlight && s.inFlight[id].ProviderRead? }

  /**
   * A provider read hands out a value if and only if its reader returned one and nothing in the
   * whole history so far, in whatever interleaving, gave cause for doubt: no failure of unknown
   * effect, no seal that threw, no settlement over work in flight.
   */
  lemma ProviderReadIsHonest(before: seq<Event>, id: nat, completion: Completion)
    requires ReadInFlight(Run(FRESH, before), id)
    ensures Run(FRESH, before).FinishReply(id, completion) == Value
            <==> completion.Returns? && !CausedWithin(FRESH, before)
  {
    UncertainIffCaused(FRESH, before);
  }

  /** In doubt for good: every later operation and settlement is told that the outcome is unknown. */
  ghost predicate Doubted(s: Admission) {
    && s.uncertain && s.closed
    && (forall id: nat :: id !in s.inFlight ==> s.BeginReply(id) == Threw(OUTCOME_UNKNOWN) && id !in s.OnBegin(id, Lifecycle).inFlight)
    && (forall throws :: s.SettleReply(throws) == Threw(OUTCOME_UNKNOWN))
    && (forall id: nat, completion :: ReadInFlight(s, id) ==> s.FinishReply(id, completion) != Value)
  }

  /** A provider read that fails otherwise than with "no effect" says so, and whatever comes later meets the doubt. */
  lemma FailedReadPoisons(before: seq<Event>, id: nat, error: Error, sealThrows: bool, after: seq<Event>)
    requires ReadInFlight(Run(FRESH, before), id) && error != StoreError(NoEffect)
    ensures Run(FRESH, before).FinishReply(id, Throws(error)) == Threw(StoreError(UnknownEffect))
    ensures Doubted(Run(Run(FRESH, before).Step(Finish(id, Throws(error), sealThrows)), after))
  {
    var s := Run(FRESH, before);
    RunKeepsValid(FRESH, before);
    StepKeepsValid(s, Finish(id, Throws(error), sealThrows));
    RunKeepsValid(s.Step(Finish(id, Throws(error), sealThrows)), after);
    DoubtLasts(s.Step(Finish(id, Throws(error), sealThrows)), after);
  }

  /** A failure that is known to have changed nothing leaves all as it was, but for the operation itself. */
  lemma HarmlessFailureLeavesNoTrace(s: Admission, id: nat, error: Error, sealThrows: bool)
    requires id in s.inFlight && !MayHaveChanged(s.inFlight[id], error)
    ensures s.Step(Finish(id, Throws(error), sealThrows)) == s.(active := s.active - 1, inFlight := s.inFlight - {id})
  {
  }

  ghost predicate SettledWithin(events: seq<Event>) { exists k :: 0 <= k < |events| && events[k].Settle? }

  lemma StepClosesIffAsked(s: Admission, e: Event)
    requires s.Valid()
    ensures s.Step(e).closed <==> s.closed || Causes(s, e) || e.Settle?
  {
    if e.Settle? && s.active == 0 { assert s.inFlight.Keys == {}; }
  }

  /** Admission is closed if and only if the history holds a cause for doubt or a settlement. */
  lemma {:induction false} ClosedIffAsked(s: Admission, events: seq<Event>)
    requires s.Valid()
    ensures Run(s, events).closed <==> s.closed || CausedWithin(s, events) || SettledWithin(events)
    decreases |events|
  {
    if events != [] {
      var t, rest := s.Step(events[0]), events[1..];
      StepKeepsValid(s, events[0]);
      StepClosesIffAsked(s, events[0]);
      ClosedIffAsked(t, rest);
      CausesFromNext(s, events);
      assert SettledWithin(events) <==> events[0].Settle? || SettledWithin(rest) by {
        if SettledWithin(rest) { var k :| 0 <= k < |rest| && rest[k].Settle?; assert events[k + 1].Settle?; }
        if SettledWithin(events) && !events[0].Settle? {
          var k :| 0 <= k < |events| && events[k].Settle?;
          assert rest[k - 1].Settle?;
        }
      }
    }
  }

  /** An operation is admitted if and only if the history holds neither, and is refused with its reason otherwise. */
  lemma AdmissionIsExact(before: seq<Event>, id: nat, kind: Kind)
    requires id !in Run(FRESH, before).inFlight
    ensures var s := Run(FRESH, before);
            var open := !CausedWithin(FRESH, before) && !SettledWithin(before);
            && (id in s.Step(Begin(id, kind)).inFlight <==> open)
            && (open ==> s.Step(Begin(id, kind)).inFlight[id] == kind)
            && s.BeginReply(id) == if open then Admitted
                                   else if CausedWithin(FRESH, before) then Threw(OUTCOME_UNKNOWN) else Threw(StoreError(NoEffect))
  {
    RunKeepsValid(FRESH, before);
    UncertainIffCaused(FRESH, before);
    ClosedIffAsked(FRESH, before);
  }

  /** Operations come into flight by their admission alone, and leave by their own end alone. */
  lemma InFlightIsExact(s: Admission, e: Event, id: nat)
    ensures id in s.Step(e).inFlight <==>
            || (id in s.inFlight && !(e.Finish? && e.id == id))
            || (id !in s.inFlight && e.Begin? && e.id == id && !s.uncertain && !s.closed)
    ensures id in s.inFlight && id in s.Step(e).inFlight ==> s.Step(e).inFlight[id] == s.inFlight[id]
  {
  }

  /** A settlement succeeds if and only if nothing is in flight, no cause came before, and its own seal, if it is the first, works. */
  lemma SettlementIsExact(before: seq<Event>, sealThrows: bool)
    ensures var s := Run(FRESH, before);
            && (s.SettleReply(sealThrows) == Value <==>
                  && s.inFlight == map[] && !CausedWithin(FRESH, before) && !(sealThrows && !SettledWithin(before)))
            && (s.SettleReply(sealThrows) != Value ==> s.SettleReply(sealThrows) == Threw(OUTCOME_UNKNOWN))
  {
    RunKeepsValid(FRESH, before);
    UncertainIffCaused(FRESH, before);
    ClosedIffAsked(FRESH, before);
    var s := Run(FRESH, before);
    if s.active == 0 { assert s.inFlight.Keys == {}; }
  }

  /** The closure variables of the composition, updated in place around each await. */
  class SecretGate {
    var activeSecretOperations: int
    var secretOutcomeUncertain: bool
    var secretAdmissionClosed: bool
    ghost var inFlight: map<nat, Kind>
    ghost var seals: nat

    ghost function State(): Admission
      reads this
    {
      Admission(activeSecretOperations, secretOutcomeUncertain, secretAdmissionClosed, inFlight, seals)
    }

    constructor ()
      ensures State() == FRESH
    {
      activeSecretOperations, secretOutcomeUncertain, secretAdmissionClosed := 0, false, false;
      inFlight, seals := map[], 0;
    }

    /** `threw` tells whether the call itself throws: only the one call that reaches the adapter can. */
    method SealSecretAdmission(adapterThrows: bool) returns (threw: bool)
      modifies this
      ensures State() == old(State()).Seal(adapterThrows)
      ensures threw <==> !old(secretAdmissionClosed) && adapterThrows
    {
      if secretAdmissionClosed { return false; }
      secretAdmissionClosed := true;
      seals := seals + 1;
      threw := adapterThrows;
      if adapterThrows { secretOutcomeUncertain := true; }
    }

    method BeginOperation(ghost id: nat, kind: Kind) returns (reply: Reply)
      requires id !in inFlight
      modifies this
      ensures State() == old(State()).OnBegin(id, kind)
      ensures reply == old(State()).BeginReply(id)
    {
      if secretOutcomeUncertain { return Threw(OUTCOME_UNKNOWN); }
      if secretAdmissionClosed { return Threw(StoreError(NoEffect)); }
      activeSecretOperations := activeSecretOperations + 1;
      inFlight := inFlight[id := kind];
      reply := Admitted;
    }

    /** The error of a failed operation survives the seal it triggers, even one that throws. */
    method FinishOperation(ghost id: nat, kind: Kind, completion: Completion, adapterThrows: bool) returns (reply: Reply)
      requires id in inFlight && inFlight[id] == kind
      modifies this
      ensures State() == old(State()).OnFinish(id, completion, adapterThrows)
      ensures reply == old(State()).FinishReply(id, completion)
      ensures completion.Throws? ==> reply.Threw? && Surfaces(kind, completion.error, reply.error)
      ensures completion.Throws? && MayHaveChanged(kind, completion.error) ==> secretOutcomeUncertain
    {
      match completion {
        case Returns =>
          reply := if kind.ProviderRead? && secretOutcomeUncertain then Threw(OUTCOME_UNKNOWN) else Value;
        case Throws(e) => reply := Threw(OwnError(kind, e));
      }
      if reply.Threw? && LeavesDoubt(reply.error) {
        secretOutcomeUncertain := true;
        var _ := SealSecretAdmission(adapterThrows);
      }
      activeSecretOperations := activeSecretOperations - 1;
      inFlight := inFlight - {id};
    }

    method AssertSettled(adapterThrows: bool) returns (reply: Reply)
      modifies this
      ensures State() == old(State()).OnSettle(adapterThrows)
      ensures reply == old(State()).SettleReply(adapterThrows)
    {
      var threw := SealSecretAdmission(adapterThrows);
      if threw { return Threw(OUTCOME_UNKNOWN); }
      if activeSecretOperations != 0 || secretOutcomeUncertain {
        secretOutcomeUncertain := true;
        return Threw(OUTCOME_UNKNOWN);
      }
      reply := Value;
    }
  }
}
