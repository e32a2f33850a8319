/** Which reply the relay holds, told from the events alone. */
module RelayStory {
  import opened Common
  import opened ReplyRelay

  predicate Arms(e: Event) { e.Arm? && (e.operation.SetSecret? || e.operation.RemoveSecret?) }

  /** A request for that mutation, bound to this generation. */
  predicate Asks(generationId: string, operation: Operation, e: Event) {
    && e.RequestArrives? && e.request.Bound?
    && e.request.binding.operation == operation && e.request.binding.generationId == generationId
  }

  /** A success reply to that request. */
  predicate Acks(binding: Binding, e: Event) { e.ReplyArrives? && e.reply.Configured? && e.reply.binding == binding }

  /** The first event from `from` on that is such, and comes before any release. */
  ghost predicate First(events: seq<Event>, from: nat, such: Event -> bool, m: nat) {
    && from <= m < |events| && such(events[m]) && NeverReleased(events[..m])
    && forall j :: from <= j < m ==> !such(events[j])
  }

  /** None such comes before a release. */
  ghost predicate NoneYet(events: seq<Event>, from: nat, such: Event -> bool) {
    forall m :: from <= m < |events| && such(events[m]) ==> !NeverReleased(events[..m])
  }

  function IsAsk(generationId: string, operation: Operation): Event -> bool { e => Asks(generationId, operation, e) }

  function IsAck(binding: Binding): Event -> bool { e => Acks(binding, e) }

  lemma FirstLasts(done: seq<Event>, e: Event, from: nat, such: Event -> bool, m: nat)
    requires First(done, from, such, m)
    ensures First(done + [e], from, such, m)
  {
    assert (done + [e])[..m] == done[..m];
  }

  lemma NoneYetLasts(done: seq<Event>, e: Event, from: nat, such: Event -> bool)
    requires NoneYet(done, from, such) && (such(e) ==> !NeverReleased(done))
    ensures NoneYet(done + [e], from, such)
  {
    forall m | from <= m < |done + [e]| && such((done + [e])[m]) ensures !NeverReleased((done + [e])[..m]) {
      assert (done + [e])[..m] == done[..m];
      if m == |done| { assert done[..m] == done; }
    }
  }

  lemma FirstBegins(done: seq<Event>, e: Event, from: nat, such: Event -> bool)
    requires NoneYet(done, from, such) && such(e) && NeverReleased(done) && from <= |done|
    ensures First(done + [e], from, such, |done|)
  {
    assert (done + [e])[..|done|] == done && (done + [e])[|done|] == e;
    forall j | from <= j < |done| ensures !such((done + [e])[j]) {
      assert done[j] == (done + [e])[j];
      assert NeverReleased(done[..j]);
    }
  }

  lemma FirstIsUnique(events: seq<Event>, from: nat, such: Event -> bool, m: nat, k: nat)
    requires First(events, from, such, m) && First(events, from, such, k)
    ensures m == k
  {
  }

  // The relay's three variables, one after the other.

  ghost predicate AckTold(r: Relay, done: seq<Event>, n: nat, binding: Binding) {
    if r.heldAt == None then NoneYet(done, n + 1, IsAck(binding))
    else exists i: nat :: First(done, n + 1, IsAck(binding), i) && r.heldAt.value == RepliesBefore(done, i)
  }

  ghost predicate AskTold(r: Relay, done: seq<Event>, a: nat, operation: Operation) {
    if r.expected == None then r.heldAt == None && NoneYet(done, a + 1, IsAsk(r.generationId, operation))
    else
      exists n: nat :: First(done, a + 1, IsAsk(r.generationId, operation), n)
        && r.expected.value == done[n].request.binding && AckTold(r, done, n, r.expected.value)
  }

  ghost predicate Told(r: Relay, done: seq<Event>) {
    && (r.released == Off <==> NeverReleased(done)) && r.received == |RepliesOf(done)|
    && (r.used == On <==> r.operation.Some?)
    && (r.held.Some? <==> r.heldAt.Some? && r.released == Off)
    && if r.operation == None then r.expected == None && r.heldAt == None && NoneYet(done, 0, Arms)
       else exists a: nat :: First(done, 0, Arms, a) && r.operation.value == done[a].operation && AskTold(r, done, a, r.operation.value)
  }

  /** One event more, when it is not a new acknowledgement. */
  lemma AckToldLasts(r: Relay, t: Relay, done: seq<Event>, e: Event, n: nat, binding: Binding)
    requires AckTold(r, done, n, binding) && t.heldAt == r.heldAt
    requires r.heldAt == None && Acks(binding, e) ==> !NeverReleased(done)
    ensures AckTold(t, done + [e], n, binding)
  {
    if r.heldAt == None {
      NoneYetLasts(done, e, n + 1, IsAck(binding));
    } else {
      var i: nat :| First(done, n + 1, IsAck(binding), i) && r.heldAt.value == RepliesBefore(done, i);
      FirstLasts(done, e, n + 1, IsAck(binding), i);
      RepliesBeforeLasts(done, e, i);
    }
  }

  lemma AckToldBegins(t: Relay, done: seq<Event>, e: Event, n: nat, binding: Binding)
    requires NoneYet(done, n + 1, IsAck(binding)) && Acks(binding, e) && NeverReleased(done) && n < |done|
    requires t.heldAt == Some(|RepliesOf(done)|)
    ensures AckTold(t, done + [e], n, binding)
  {
    FirstBegins(done, e, n + 1, IsAck(binding));
    RepliesBeforeLasts(done, e, |done|);
    assert done[..|done|] == done;
  }

  lemma AskToldLasts(r: Relay, t: Relay, done: seq<Event>, e: Event, a: nat, operation: Operation)
    requires AskTold(r, done, a, operation) && t.expected == r.expected && t.generationId == r.generationId
    requires r.expected == None && Asks(r.generationId, operation, e) ==> !NeverReleased(done)
    requires t.heldAt == r.heldAt || (r.heldAt == None && t.heldAt == Some(|RepliesOf(done)|) && NeverReleased(done)
                                      && r.expected.Some? && Acks(r.expected.value, e))
    requires r.expected.Some? && r.heldAt == None && t.heldAt == None && Acks(r.expected.value, e) ==> !NeverReleased(done)
    ensures AskTold(t, done + [e], a, operation)
  {
    if r.expected == None {
      NoneYetLasts(done, e, a + 1, IsAsk(r.generationId, operation));
    } else {
      var n: nat :| First(done, a + 1, IsAsk(r.generationId, operation), n)
        && r.expected.value == done[n].request.binding && AckTold(r, done, n, r.expected.value);
      FirstLasts(done, e, a + 1, IsAsk(r.generationId, operation), n);
      assert (done + [e])[n] == done[n];
      if t.heldAt == r.heldAt {
        AckToldLasts(r, t, done, e, n, r.expected.value);
      } else {
        AckToldBegins(t, done, e, n, r.expected.value);
      }
      hide First, AckTold;
    }
  }

  lemma AskToldBegins(t: Relay, done: seq<Event>, e: Event, a: nat, operation: Operation)
    requires NoneYet(done, a + 1, IsAsk(t.generationId, operation)) && Asks(t.generationId, operation, e)
    requires NeverReleased(done) && a < |done|
    requires t.expected == Some(e.request.binding) && t.heldAt == None
    ensures AskTold(t, done + [e], a, operation)
  {
    FirstBegins(done, e, a + 1, IsAsk(t.generationId, operation));
    assert (done + [e])[|done|] == e;
    assert AckTold(t, done + [e], |done|, t.expected.value);
  }

  /** What one event sets, while the relay stays open. */
  lemma StepSets(r: Relay, e: Event)
    requires r.disposed == Off && r.Step(e).disposed == Off && (r.held.Some? <==> r.heldAt.Some? && r.released == Off)
    ensures var t := r.Step(e);
            var armed := Arms(e) && r.used == Off && r.released == Off;
            var asked := r.released == Off && r.operation.Some? && r.expected == None && Asks(r.generationId, r.operation.value, e);
            var acked := r.released == Off && r.expected.Some? && Acks(r.expected.value, e);
            && t.operation == (if armed then Some(e.operation) else r.operation) && (t.used == On <==> r.used == On || armed)
            && t.expected == (if asked then Some(e.request.binding) else r.expected)
            && t.heldAt == (if acked then Some(r.received) else r.heldAt) && (acked ==> r.heldAt == None)
            && t.received == r.received + |ReplyIn(e)| && t.generationId == r.generationId
            && (t.released == On <==> r.released == On || e.Release?)
            && (t.held.Some? <==> t.heldAt.Some? && t.released == Off)
  {
    match e
    case RequestArrives(_, _) =>
    case ReplyArrives(_, _) =>
    case _ =>
  }

  lemma StepTells(r: Relay, e: Event, done: seq<Event>)
    requires r.disposed == Off && Told(r, done)
    ensures r.Step(e).disposed == Off ==> Told(r.Step(e), done + [e])
  {
    var t := r.Step(e);
    if t.disposed == Off {
      StepSets(r, e);
      RepliesAppend(done, e);
      TellingLasts(done, e, Binding("", "", HasSecret, ""), 0);
      hide Relay.Step, AskTold, First, NoneYet, NeverReleased, RepliesOf;
      if r.operation == None { StepTellsUnarmed(r, t, e, done); } else { StepTellsArmed(r, t, e, done); }
    }
  }

  /** The chain of the three variables, when the relay was not armed before. */
  lemma StepTellsUnarmed(r: Relay, t: Relay, e: Event, done: seq<Event>)
    requires r.operation == None && r.expected == None && r.heldAt == None && NoneYet(done, 0, Arms)
    requires (r.released == Off <==> NeverReleased(done)) && t.generationId == r.generationId
    requires t.operation == if Arms(e) && r.released == Off then Some(e.operation) else None
    requires t.expected == None && t.heldAt == None
    ensures if t.operation == None then NoneYet(done + [e], 0, Arms)
            else exists a: nat :: First(done + [e], 0, Arms, a) && t.operation.value == (done + [e])[a].operation
                   && AskTold(t, done + [e], a, t.operation.value)
  {
    if t.operation.Some? {
      FirstBegins(done, e, 0, Arms);
      assert (done + [e])[|done|] == e;
      assert AskTold(t, done + [e], |done|, e.operation);
    } else {
      NoneYetLasts(done, e, 0, Arms);
    }
  }

  /** And when it was. */
  lemma StepTellsArmed(r: Relay, t: Relay, e: Event, done: seq<Event>)
    requires Told(r, done) && r.operation.Some? && t.operation == r.operation && t.generationId == r.generationId
    requires t.expected == if r.released == Off && r.expected == None && Asks(r.generationId, r.operation.value, e)
                           then Some(e.request.binding) else r.expected
    requires var acked := r.released == Off && r.expected.Some? && Acks(r.expected.value, e);
             t.heldAt == (if acked then Some(r.received) else r.heldAt) && (acked ==> r.heldAt == None)
    ensures exists a: nat :: First(done + [e], 0, Arms, a) && t.operation.value == (done + [e])[a].operation
              && AskTold(t, done + [e], a, t.operation.value)
  {
    var a: nat :| First(done, 0, Arms, a) && r.operation.value == done[a].operation && AskTold(r, done, a, r.operation.value);
    FirstLasts(done, e, 0, Arms, a);
    assert (done + [e])[a] == done[a];
    if r.expected == None && t.expected.Some? {
      AskToldBegins(t, done, e, a, r.operation.value);
    } else {
      AskToldLasts(r, t, done, e, a, r.operation.value);
    }
  }

  lemma {:induction false} RunTells(r: Relay, events: seq<Event>, done: seq<Event>)
    requires r.disposed == Off ==> Told(r, done)
    ensures Run(r, events).disposed == Off ==> Told(Run(r, events), done + events)
    decreases |events|
  {
    hide Told, Relay.Step;
    if r.disposed == On {
      DisposedLasts(r, events);
    } else if events == [] {
      assert done + [] == done;
    } else {
      StepTells(r, events[0], done);
      RunTells(r.Step(events[0]), events[1..], done + [events[0]]);
      assert done + [events[0]] + events[1..] == done + events;
    }
  }

  /** The relay is armed at `a`, asked at `n` and answered at `i`: each the first such, and before any release. */
  ghost predicate HoldsAt(generationId: string, events: seq<Event>, a: nat, n: nat, i: nat) {
    && First(events, 0, Arms, a)
    && First(events, a + 1, IsAsk(generationId, events[a].operation), n)
    && First(events, n + 1, IsAck(events[n].request.binding), i)
  }

  /**
   * In every run that leaves the relay open, a reply is held back if and only if the first arming
   * is followed by a request for its mutation and that by its acknowledgement, all before any
   * release; and then it is the first acknowledgement of the first such request.
   */
  lemma HeldIsExact(generationId: string, events: seq<Event>)
    requires Run(Init(generationId), events).disposed == Off
    ensures var r := Run(Init(generationId), events);
            && (r.heldAt.Some? ==> exists a: nat, n: nat, i: nat :: HoldsAt(generationId, events, a, n, i) && r.heldAt.value == RepliesBefore(events, i))
            && (r.heldAt == None ==> forall a: nat, n: nat, i: nat :: !HoldsAt(generationId, events, a, n, i))
            && (r.held.Some? <==> r.heldAt.Some? && NeverReleased(events))
  {
    assert Told(Init(generationId), []);
    RunTells(Init(generationId), events, []);
    assert [] + events == events;
    GenerationStays(Init(generationId), events);
    hide Run;
    ToldMeans(Run(Init(generationId), events), events);
  }

  lemma {:induction false} GenerationStays(r: Relay, events: seq<Event>)
    ensures Run(r, events).generationId == r.generationId
    decreases |events|
  {
    if events != [] { GenerationStays(r.Step(events[0]), events[1..]); }
  }

  lemma ToldMeans(r: Relay, events: seq<Event>)
    requires Told(r, events)
    ensures r.heldAt.Some? ==>
              exists a: nat, n: nat, i: nat :: HoldsAt(r.generationId, events, a, n, i) && r.heldAt.value == RepliesBefore(events, i)
    ensures r.heldAt == None ==> forall a: nat, n: nat, i: nat :: !HoldsAt(r.generationId, events, a, n, i)
    ensures r.held.Some? <==> r.heldAt.Some? && NeverReleased(events)
  {
    if r.heldAt.Some? {
      var a: nat :| First(events, 0, Arms, a) && r.operation.value == events[a].operation && AskTold(r, events, a, r.operation.value);
      var n: nat :| First(events, a + 1, IsAsk(r.generationId, r.operation.value), n)
        && r.expected.value == events[n].request.binding && AckTold(r, events, n, r.expected.value);
      var i: nat :| First(events, n + 1, IsAck(r.expected.value), i) && r.heldAt.value == RepliesBefore(events, i);
      assert HoldsAt(r.generationId, events, a, n, i);
    }
    forall a: nat, n: nat, i: nat | HoldsAt(r.generationId, events, a, n, i) ensures r.heldAt.Some? {
      HoldMeansHeld(r, events, a, n, i);
    }
  }

  lemma HoldMeansHeld(r: Relay, events: seq<Event>, a: nat, n: nat, i: nat)
    requires Told(r, events) && HoldsAt(r.generationId, events, a, n, i)
    ensures r.heldAt.Some?
  {
  }
}
