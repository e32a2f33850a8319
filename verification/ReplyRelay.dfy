/**
 * The relay between the main process and the backend that may hold back one acknowledgement.
 * Messages arrive as the broker protocol classifies them; whether a `postMessage` or a `close`
 * throws is part of the event.
 */
module ReplyRelay {
  import opened Common

  datatype Operation = HasSecret | ReadSecret | RemoveSecret | SetSecret

  datatype Binding = Binding(companyId: string, generationId: string, operation: Operation, requestId: string)

  datatype Request = Bound(binding: Binding, payload: string) | Unbound(payload: string)

  datatype Reply =
    | Configured(binding: Binding, configured: bool)
    | Secret(binding: Binding, secret: string)
    | Refusal(binding: Binding, errorCode: string)
    | Unparsed(payload: string)

  datatype Failure = SendFailed | CloseFailed | DuplicateReply

  datatype Event =
    | RequestArrives(request: Request, sends: bool)
    | ReplyArrives(reply: Reply, sends: bool)
    | Arm(operation: Operation)
    | Release(sends: bool)
    | Dispose(closes: bool)

  predicate IsMutation(op: Operation) { op.SetSecret? || op.RemoveSecret? }

  /**
   * `toMain` and `toBackend` are what the two ports have delivered.  `received`, how many replies
   * arrived, and the two positions (of the reply held, of the release) are history.
   */
  datatype Relay = Relay(
    generationId: string,
    operation: Option<Operation>, expected: Option<Binding>, held: Option<Reply>,
    used: Flag, released: Flag, disposed: Flag, failure: Option<Failure>,
    toMain: seq<Request>, toBackend: seq<Reply>,
    received: nat, heldAt: Option<nat>, releasedAt: Option<nat>)
  {
    function Disposed(closes: bool): Relay {
      if disposed == On then this
      else this.(disposed := On, held := None, failure := if failure == None && !closes then Some(CloseFailed) else failure)
    }

    /** A send that throws is remembered and ends the relay. */
    function SendFailure(): Relay {
      this.(failure := if failure == None then Some(SendFailed) else failure).Disposed(true)
    }

    predicate Expects(request: Request) {
      && released == Off && operation.Some? && expected == None
      && request.Bound? && request.binding.operation == operation.value && request.binding.generationId == generationId
    }

    function OnRequest(request: Request, sends: bool): Relay {
      if disposed == On then this
      else
        var armed := if Expects(request) then this.(expected := Some(request.binding)) else this;
        if sends then armed.(toMain := toMain + [request]) else armed.SendFailure()
    }

    /** The acknowledgement of the expected mutation. */
    predicate Acknowledges(reply: Reply) {
      released == Off && expected.Some? && reply.Configured? && reply.binding == expected.value
    }

    /** The first acknowledgement is held, a second one ends the relay. */
    function Acknowledged(reply: Reply): Relay {
      var counted := this.(received := received + 1);
      if held.Some? then counted.(failure := Some(DuplicateReply)).Disposed(true)
      else counted.(held := Some(reply), heldAt := Some(received))
    }

    function OnReply(reply: Reply, sends: bool): Relay {
      if disposed == On then this
      else
        var counted := this.(received := received + 1);
        if Acknowledges(reply) then Acknowledged(reply)
        else if sends then counted.(toBackend := toBackend + [reply])
        else counted.SendFailure()
    }

    predicate Armable(op: Operation) { used == Off && disposed == Off && released == Off && IsMutation(op) }

    function OnArm(op: Operation): Relay {
      if Armable(op) then this.(operation := Some(op), used := On) else this
    }

    function OnRelease(sends: bool): Relay {
      if released == On then this
      else
        var done := this.(released := On, held := None);
        if disposed == On || held == None then done
        else if sends then done.(toBackend := toBackend + [held.value], releasedAt := Some(received))
        else done.SendFailure()
    }

    function Step(e: Event): Relay {
      match e
      case RequestArrives(request, sends) => OnRequest(request, sends)
      case ReplyArrives(reply, sends) => OnReply(reply, sends)
      case Arm(op) => OnArm(op)
      case Release(sends) => OnRelease(sends)
      case Dispose(closes) => Disposed(closes)
    }
  }

  function Init(generationId: string): Relay {
    Relay(generationId, None, None, None, Off, Off, Off, None, [], [], 0, None, None)
  }

  function Run(r: Relay, events: seq<Event>): Relay
    decreases |events|
  {
    if events == [] then r else Run(r.Step(events[0]), events[1..])
  }

  function RequestIn(e: Event): seq<Request> { if e.RequestArrives? then [e.request] else [] }

  function ReplyIn(e: Event): seq<Reply> { if e.ReplyArrives? then [e.reply] else [] }

  function RequestsOf(events: seq<Event>): seq<Request> {
    if events == [] then [] else RequestIn(events[0]) + RequestsOf(events[1..])
  }

  function RepliesOf(events: seq<Event>): seq<Reply> {
    if events == [] then [] else ReplyIn(events[0]) + RepliesOf(events[1..])
  }

  /** `arrived` with the one at `heldAt` left out, or moved behind the first `releasedAt`. */
  function Rearranged(arrived: seq<Reply>, heldAt: Option<nat>, releasedAt: Option<nat>): seq<Reply>
    requires heldAt.Some? ==> heldAt.value < |arrived|
    requires releasedAt.Some? ==> heldAt.Some? && heldAt.value < releasedAt.value <= |arrived|
  {
    match (heldAt, releasedAt)
    case (None, _) => arrived
    case (Some(i), None) => arrived[..i] + arrived[i + 1..]
    case (Some(i), Some(j)) => arrived[..i] + arrived[i + 1..j] + [arrived[i]] + arrived[j..]
  }

  ghost predicate InOrder(arrived: seq<Reply>, heldAt: Option<nat>, releasedAt: Option<nat>) {
    && (heldAt.Some? ==> heldAt.value < |arrived|)
    && (releasedAt.Some? ==> heldAt.Some? && heldAt.value < releasedAt.value <= |arrived|)
  }

  /** The state of an undisposed relay, told from all that arrived. */
  ghost predicate Delivers(r: Relay, requests: seq<Request>, replies: seq<Reply>) {
    && r.toMain == requests && r.received == |replies|
    && InOrder(replies, r.heldAt, r.releasedAt)
    && r.toBackend == Rearranged(replies, r.heldAt, r.releasedAt)
    && r.failure == None
    && (r.held == if r.heldAt.Some? && r.releasedAt == None then Some(replies[r.heldAt.value]) else None)
    && (r.releasedAt.Some? ==> r.released == On)
    && (r.held.Some? ==> r.released == Off)
    && (r.released == On || r.heldAt == None ==> r.held == None)
  }

  /** The one acknowledgement held answers a request that arrived earlier, of the armed operation. */
  ghost predicate Justified(r: Relay, requests: seq<Request>, replies: seq<Reply>) {
    && (r.operation.Some? ==> r.used == On && IsMutation(r.operation.value))
    && (r.expected.Some? ==>
          && r.operation == Some(r.expected.value.operation) && r.expected.value.generationId == r.generationId
          && exists k :: 0 <= k < |requests| && requests[k].Bound? && requests[k].binding == r.expected.value)
    && (r.heldAt.Some? ==>
          && r.expected.Some? && r.heldAt.value < |replies|
          && replies[r.heldAt.value].Configured? && replies[r.heldAt.value].binding == r.expected.value)
  }

  lemma RearrangedGrows(arrived: seq<Reply>, reply: Reply, heldAt: Option<nat>, releasedAt: Option<nat>)
    requires InOrder(arrived, heldAt, releasedAt)
    ensures Rearranged(arrived + [reply], heldAt, releasedAt) == Rearranged(arrived, heldAt, releasedAt) + [reply]
    ensures Rearranged(arrived + [reply], Some(|arrived|), None) == arrived
  {
    var more := arrived + [reply];
    assert more[..|arrived|] == arrived && more[|arrived| + 1..] == [];
    if heldAt.Some? {
      var i := heldAt.value;
      SlicesGrow(arrived, reply, i, i + 1);
      if releasedAt.Some? {
        var j := releasedAt.value;
        SlicesGrow(arrived, reply, j, j);
        assert more[i + 1..j] == arrived[i + 1..j];
      }
    }
  }

  lemma SlicesGrow(arrived: seq<Reply>, reply: Reply, i: nat, j: nat)
    requires i <= j <= |arrived|
    ensures (arrived + [reply])[..i] == arrived[..i]
    ensures (arrived + [reply])[j..] == arrived[j..] + [reply]
  {
  }

  lemma RearrangedReleases(arrived: seq<Reply>, i: nat)
    requires i < |arrived|
    ensures Rearranged(arrived, Some(i), Some(|arrived|)) == Rearranged(arrived, Some(i), None) + [arrived[i]]
  {
  }

  lemma ReplyDelivers(r: Relay, reply: Reply, sends: bool, requests: seq<Request>, replies: seq<Reply>)
    requires r.disposed == Off && Delivers(r, requests, replies) && Justified(r, requests, replies)
    ensures var t := r.OnReply(reply, sends);
            t.disposed == Off ==> Delivers(t, requests, replies + [reply]) && Justified(t, requests, replies + [reply])
  {
    RearrangedGrows(replies, reply, r.heldAt, r.releasedAt);
    hide Rearranged;
    if r.Acknowledges(reply) && r.held == None {
      assert r.heldAt == None;
    }
  }

  lemma RequestDelivers(r: Relay, request: Request, sends: bool, requests: seq<Request>, replies: seq<Reply>)
    requires r.disposed == Off && Delivers(r, requests, replies) && Justified(r, requests, replies)
    ensures var t := r.OnRequest(request, sends);
            t.disposed == Off ==> Delivers(t, requests + [request], replies) && Justified(t, requests + [request], replies)
  {
    hide Rearranged;
    var t := r.OnRequest(request, sends);
    if t.disposed == Off && t.expected.Some? {
      if r.Expects(request) {
        assert (requests + [request])[|requests|] == request;
      } else {
        var k :| 0 <= k < |requests| && requests[k].Bound? && requests[k].binding == r.expected.value;
        assert (requests + [request])[k] == requests[k];
      }
    }
  }

  lemma ControlDelivers(r: Relay, e: Event, requests: seq<Request>, replies: seq<Reply>)
    requires r.disposed == Off && Delivers(r, requests, replies) && Justified(r, requests, replies)
    requires e.Arm? || e.Release? || e.Dispose?
    ensures var t := r.Step(e);
            t.disposed == Off ==> Delivers(t, requests, replies) && Justified(t, requests, replies)
  {
    if r.heldAt.Some? { RearrangedReleases(replies, r.heldAt.value); }
    hide Rearranged;
  }

  lemma {:induction false} DisposedLasts(r: Relay, events: seq<Event>)
    requires r.disposed == On
    ensures var t := Run(r, events);
            t.disposed == On && t.toMain == r.toMain && t.toBackend == r.toBackend
    decreases |events|
  {
    if events != [] { DisposedLasts(r.Step(events[0]), events[1..]); }
  }

  ghost predicate Good(r: Relay, requests: seq<Request>, replies: seq<Reply>) {
    r.disposed == On || (Delivers(r, requests, replies) && Justified(r, requests, replies))
  }

  lemma StepDelivers(r: Relay, e: Event, requests: seq<Request>, replies: seq<Reply>)
    requires r.disposed == Off && Good(r, requests, replies)
    ensures Good(r.Step(e), requests + RequestIn(e), replies + ReplyIn(e))
  {
    hide Delivers, Justified, Relay.OnReply, Relay.OnRequest, Relay.OnArm, Relay.OnRelease;
    assert requests + [] == requests && replies + [] == replies;
    match e {
      case RequestArrives(request, sends) => RequestDelivers(r, request, sends, requests, replies);
      case ReplyArrives(reply, sends) => ReplyDelivers(r, reply, sends, requests, replies);
      case _ => ControlDelivers(r, e, requests, replies);
    }
  }

  lemma Regroup<T>(a: seq<T>, b: seq<T>, c: seq<T>)
    ensures a + b + c == a + (b + c)
  {
  }

  lemma {:induction false} RunDelivers(r: Relay, events: seq<Event>, requests: seq<Request>, replies: seq<Reply>)
    requires Good(r, requests, replies)
    ensures Good(Run(r, events), requests + RequestsOf(events), replies + RepliesOf(events))
    decreases |events|
  {
    if r.disposed == On {
      DisposedLasts(r, events);
    } else {
      hide Good, Relay.Step, RequestIn, ReplyIn, Delivers, Justified;
      if events == [] {
        assert requests + [] == requests && replies + [] == replies;
      } else {
        var e, rest := events[0], events[1..];
        StepDelivers(r, e, requests, replies);
        RunDelivers(r.Step(e), rest, requests + RequestIn(e), replies + ReplyIn(e));
        Regroup(requests, RequestIn(e), RequestsOf(rest));
        Regroup(replies, ReplyIn(e), RepliesOf(rest));
      }
    }
  }

  // When things happened: positions among the events.

  predicate AsksAt(events: seq<Event>, n: nat, binding: Binding) {
    && n < |events| && events[n].RequestArrives?
    && events[n].request.Bound? && events[n].request.binding == binding
  }

  predicate FirstRelease(events: seq<Event>, n: nat) {
    n < |events| && events[n].Release? && forall m :: 0 <= m < n ==> !events[m].Release?
  }

  function RepliesBefore(events: seq<Event>, n: nat): nat
    requires n <= |events|
  {
    |RepliesOf(events[..n])|
  }

  ghost predicate AskedBefore(events: seq<Event>, binding: Binding, received: nat) {
    exists n :: AsksAt(events, n, binding) && RepliesBefore(events, n) <= received
  }

  ghost predicate ReleasedWith(events: seq<Event>, received: nat) {
    exists n :: FirstRelease(events, n) && RepliesBefore(events, n) == received
  }

  ghost predicate NeverReleased(events: seq<Event>) { forall n :: 0 <= n < |events| ==> !events[n].Release? }

  /** The positions that the state remembers, told from the events so far. */
  ghost predicate Timed(r: Relay, done: seq<Event>) {
    && r.received == |RepliesOf(done)|
    && (r.expected.Some? ==> AskedBefore(done, r.expected.value, r.received))
    && (r.heldAt.Some? ==> r.expected.Some? && AskedBefore(done, r.expected.value, r.heldAt.value))
    && (r.released == Off <==> NeverReleased(done))
    && (r.releasedAt.Some? ==> ReleasedWith(done, r.releasedAt.value))
  }

  lemma {:induction false} RepliesAppend(done: seq<Event>, e: Event)
    ensures RepliesOf(done + [e]) == RepliesOf(done) + ReplyIn(e)
  {
    if done == [] {
      assert done + [e] == [e] && [e][1..] == [];
      assert ReplyIn(e) + [] == ReplyIn(e);
    } else {
      assert (done + [e])[1..] == done[1..] + [e];
      RepliesAppend(done[1..], e);
      Regroup(ReplyIn(done[0]), RepliesOf(done[1..]), ReplyIn(e));
    }
  }

  lemma RepliesBeforeLasts(done: seq<Event>, e: Event, n: nat)
    requires n <= |done|
    ensures RepliesBefore(done + [e], n) == RepliesBefore(done, n)
  {
    assert (done + [e])[..n] == done[..n];
  }

  /** What was told of the events so far is also told of one more. */
  lemma TellingLasts(done: seq<Event>, e: Event, binding: Binding, received: nat)
    ensures AskedBefore(done, binding, received) ==> AskedBefore(done + [e], binding, received)
    ensures ReleasedWith(done, received) ==> ReleasedWith(done + [e], received)
    ensures NeverReleased(done + [e]) <==> NeverReleased(done) && !e.Release?
  {
    hide RepliesBefore;
    if AskedBefore(done, binding, received) {
      var n :| AsksAt(done, n, binding) && RepliesBefore(done, n) <= received;
      RepliesBeforeLasts(done, e, n);
      assert AsksAt(done + [e], n, binding);
    }
    if ReleasedWith(done, received) {
      var n :| FirstRelease(done, n) && RepliesBefore(done, n) == received;
      RepliesBeforeLasts(done, e, n);
      assert FirstRelease(done + [e], n);
    }
    if NeverReleased(done) && !e.Release? {
      assert forall n :: 0 <= n < |done + [e]| ==> !(done + [e])[n].Release?;
    }
    if NeverReleased(done + [e]) {
      assert (done + [e])[|done|] == e;
      assert forall n :: 0 <= n < |done| ==> done[n] == (done + [e])[n];
    }
  }

  /** What the last event itself does. */
  lemma TellingBegins(done: seq<Event>, e: Event)
    ensures e.RequestArrives? && e.request.Bound? ==> AskedBefore(done + [e], e.request.binding, |RepliesOf(done)|)
    ensures e.Release? && NeverReleased(done) ==> ReleasedWith(done + [e], |RepliesOf(done)|)
  {
    RepliesBeforeLasts(done, e, |done|);
    assert done[..|done|] == done;
    if e.RequestArrives? && e.request.Bound? { assert AsksAt(done + [e], |done|, e.request.binding); }
    if e.Release? && NeverReleased(done) { assert FirstRelease(done + [e], |done|); }
  }

  lemma AskedEarlier(events: seq<Event>, binding: Binding, received: nat, more: nat)
    requires AskedBefore(events, binding, received) && received <= more
    ensures AskedBefore(events, binding, more)
  {
    var n :| AsksAt(events, n, binding) && RepliesBefore(events, n) <= received;
  }

  lemma StepKeepsTimed(r: Relay, e: Event, done: seq<Event>)
    requires r.disposed == Off && Timed(r, done)
    ensures r.Step(e).disposed == Off ==> Timed(r.Step(e), done + [e])
  {
    var t := r.Step(e);
    RepliesAppend(done, e);
    TellingBegins(done, e);
    if r.expected.Some? {
      TellingLasts(done, e, r.expected.value, r.received);
      AskedEarlier(done + [e], r.expected.value, r.received, t.received);
    }
    if r.heldAt.Some? { TellingLasts(done, e, r.expected.value, r.heldAt.value); }
    if r.releasedAt.Some? { TellingLasts(done, e, Binding("", "", HasSecret, ""), r.releasedAt.value); }
    TellingLasts(done, e, Binding("", "", HasSecret, ""), 0);
    hide AskedBefore, ReleasedWith, NeverReleased, RepliesOf;
  }

  lemma {:induction false} RunKeepsTimed(r: Relay, events: seq<Event>, done: seq<Event>)
    requires r.disposed == Off ==> Timed(r, done)
    ensures Run(r, events).disposed == Off ==> Timed(Run(r, events), done + events)
    decreases |events|
  {
    if r.disposed == On {
      DisposedLasts(r, events);
    } else if events == [] {
      assert done + [] == done;
    } else {
      StepKeepsTimed(r, events[0], done);
      hide Timed, Relay.Step;
      RunKeepsTimed(r.Step(events[0]), events[1..], done + [events[0]]);
      assert done + [events[0]] + events[1..] == done + events;
    }
  }

  /** The reply held acknowledges a mutation that was asked for, in this run, before it arrived. */
  ghost predicate Answers(events: seq<Event>, reply: Reply, at: nat) {
    reply.Configured? && IsMutation(reply.binding.operation) && AskedBefore(events, reply.binding, at)
  }

  /**
   * In every run that leaves the relay open, requests reach the main process in arrival order, and
   * replies the backend, but for at most one: an acknowledgement that was asked for before it came.
   * It is held while nothing was released, and delivered, once, right at the first release.
   */
  lemma RelayConserves(generationId: string, events: seq<Event>)
    ensures var r := Run(Init(generationId), events);
            var requests, replies := RequestsOf(events), RepliesOf(events);
            r.disposed == Off ==>
              && r.toMain == requests
              && InOrder(replies, r.heldAt, r.releasedAt)
              && r.toBackend == Rearranged(replies, r.heldAt, r.releasedAt)
              && multiset(r.toBackend) + (if r.held.Some? then multiset{r.held.value} else multiset{}) == multiset(replies)
              && (r.heldAt.Some? ==> Answers(events, replies[r.heldAt.value], r.heldAt.value))
              && (r.held.Some? <==> r.heldAt.Some? && NeverReleased(events))
              && (r.held.Some? ==> r.held.value == replies[r.heldAt.value])
              && (r.releasedAt.Some? <==> r.heldAt.Some? && !NeverReleased(events))
              && (r.releasedAt.Some? ==> ReleasedWith(events, r.releasedAt.value))
  {
    RunFromInit(generationId, events);
    RunKeepsTimed(Init(generationId), events, []);
    assert [] + events == events;
    var requests, replies := RequestsOf(events), RepliesOf(events);
    var r := Run(Init(generationId), events);
    hide Run, AskedBefore, ReleasedWith, NeverReleased, RepliesOf, RequestsOf, Rearranged;
    if r.disposed == Off {
      RearrangedKeepsAll(replies, r.heldAt, r.releasedAt);
    }
  }

  lemma RearrangedKeepsAll(arrived: seq<Reply>, heldAt: Option<nat>, releasedAt: Option<nat>)
    requires InOrder(arrived, heldAt, releasedAt)
    ensures multiset(Rearranged(arrived, heldAt, releasedAt))
            + (if heldAt.Some? && releasedAt == None then multiset{arrived[heldAt.value]} else multiset{}) == multiset(arrived)
  {
    if heldAt.Some? {
      var i := heldAt.value;
      assert arrived == arrived[..i] + [arrived[i]] + arrived[i + 1..];
      if releasedAt.Some? {
        assert arrived[i + 1..] == arrived[i + 1..releasedAt.value] + arrived[releasedAt.value..];
      }
    }
  }

  lemma RunFromInit(generationId: string, events: seq<Event>)
    ensures Good(Run(Init(generationId), events), RequestsOf(events), RepliesOf(events))
  {
    RunDelivers(Init(generationId), events, [], []);
    assert [] + RequestsOf(events) == RequestsOf(events) && [] + RepliesOf(events) == RepliesOf(events);
  }

  /** The events that end an open relay. */
  predicate Ends(r: Relay, e: Event) {
    match e
    case Dispose(_) => true
    case RequestArrives(_, sends) => !sends
    case ReplyArrives(reply, sends) => if r.Acknowledges(reply) then r.held.Some? else !sends
    case Release(sends) => !sends && r.held.Some? && r.released == Off
    case Arm(_) => false
  }

  /** It ends by these and no others, and what was not sent was not delivered. */
  lemma EndsExactly(r: Relay, e: Event)
    requires r.disposed == Off && r.failure == None
    ensures r.Step(e).disposed == On <==> Ends(r, e)
    ensures Ends(r, e) ==>
              r.Step(e).failure == match e
                case Dispose(closes) => if closes then None else Some(CloseFailed)
                case ReplyArrives(reply, _) => if r.Acknowledges(reply) then Some(DuplicateReply) else Some(SendFailed)
                case _ => Some(SendFailed)
  {
  }

  /** A relay ends by being disposed of, by a send that throws, or by a second acknowledgement. */
  lemma StepDisposes(r: Relay, e: Event)
    requires r.disposed == Off && r.failure == None && r.Step(e).disposed == On
    ensures var t := r.Step(e);
            && t.toMain == r.toMain && t.toBackend == r.toBackend && t.held == None
            && match t.failure
               case None => e == Dispose(true)
               case Some(CloseFailed) => e == Dispose(false)
               case Some(DuplicateReply) => e.ReplyArrives? && r.held.Some? && r.Acknowledges(e.reply)
               case Some(SendFailed) =>
                 || (e.RequestArrives? && !e.sends)
                 || (e.ReplyArrives? && !e.sends && !r.Acknowledges(e.reply))
                 || (e == Event.Release(false) && r.held.Some?)
  {
  }

  /**
   * What ends a relay delivers nothing, and nothing is delivered after it: all that is ever lost
   * is the message in hand and the reply held.  The failure it leaves stays.
   */
  lemma DisposalLosesNoMore(generationId: string, events: seq<Event>, e: Event, later: seq<Event>)
    requires Run(Init(generationId), events).disposed == Off
    requires Run(Init(generationId), events).Step(e).disposed == On
    ensures var r := Run(Init(generationId), events);
            var t := Run(r.Step(e), later);
            && Delivers(r, RequestsOf(events), RepliesOf(events))
            && t.toMain == r.toMain && t.toBackend == r.toBackend && t.failure == r.Step(e).failure
            && (t.failure == None <==> e == Dispose(true))
            && (t.failure == Some(DuplicateReply) <==> e.ReplyArrives? && r.held.Some? && r.Acknowledges(e.reply))
  {
    var r := Run(Init(generationId), events);
    RunFromInit(generationId, events);
    hide Run, Rearranged, Justified;
    StepDisposes(r, e);
    DisposedLasts(r.Step(e), later);
    FailureLasts(r.Step(e), later);
  }

  lemma {:induction false} FailureLasts(r: Relay, events: seq<Event>)
    requires r.disposed == On
    ensures Run(r, events).failure == r.failure
    decreases |events|
  {
    if events != [] { FailureLasts(r.Step(events[0]), events[1..]); }
  }

  /** The relay's variables; the two sequences stand for the ports' other ends. */
  class ElectronSecretReplyHold {
    const generationId: string
    var operation: Option<Operation>
    var expected: Option<Binding>
    var held: Option<Reply>
    var used: Flag
    var released: Flag
    var disposed: Flag
    var failure: Option<Failure>
    var toMain: seq<Request>
    var toBackend: seq<Reply>
    ghost var received: nat
    ghost var heldAt: Option<nat>
    ghost var releasedAt: Option<nat>

    ghost function State(): Relay
      reads this
    {
      Relay(generationId, operation, expected, held, used, released, disposed, failure,
            toMain, toBackend, received, heldAt, releasedAt)
    }

    constructor (generationId: string)
      ensures State() == Init(generationId)
    {
      this.generationId := generationId;
      operation, expected, held, failure := None, None, None, None;
      used, released, disposed := Off, Off, Off;
      toMain, toBackend, received, heldAt, releasedAt := [], [], 0, None, None;
    }

    /** The two ports are closed in turn; either `close` may throw. */
    method Dispose(closes: bool)
      modifies this
      ensures State() == old(State()).Step(Event.Dispose(closes))
    {
      if disposed == On { return; }
      disposed := On;
      held := None;
      if !closes && failure == None { failure := Some(CloseFailed); }
    }

    method ForwardToMain(request: Request, sends: bool, closes: bool)
      modifies this
      ensures State() == if sends then old(State()).(toMain := old(toMain) + [request]) else old(State()).SendFailure()
    {
      if sends {
        toMain := toMain + [request];
      } else {
        if failure == None { failure := Some(SendFailed); }
        Dispose(closes);
      }
    }

    method ForwardToBackend(reply: Reply, sends: bool, closes: bool)
      modifies this
      ensures State() == if sends then old(State()).(toBackend := old(toBackend) + [reply]) else old(State()).SendFailure()
    {
      if sends {
        toBackend := toBackend + [reply];
      } else {
        if failure == None { failure := Some(SendFailed); }
        Dispose(closes);
      }
    }

    /** A close that throws changes nothing when the relay has failed already. */
    method ReceiveRequest(request: Request, sends: bool, closes: bool)
      modifies this
      ensures State() == old(State()).Step(RequestArrives(request, sends))
    {
      if disposed == On { return; }
      if released == Off && operation.Some? && expected == None && request.Bound? &&
         request.binding.operation == operation.value && request.binding.generationId == generationId {
        expected := Some(request.binding);
      }
      ForwardToMain(request, sends, closes);
    }

    method Acknowledge(reply: Reply, closes: bool)
      modifies this
      ensures State() == old(State()).Acknowledged(reply)
    {
      received := received + 1;
      if held.Some? {
        failure := Some(DuplicateReply);
        Dispose(closes);
        return;
      }
      held, heldAt := Some(reply), Some(received - 1);
    }

    method ReceiveReply(reply: Reply, sends: bool, closes: bool)
      modifies this
      ensures State() == old(State()).Step(ReplyArrives(reply, sends))
    {
      hide Relay.Acknowledged;
      if disposed == On { return; }
      if released == Off && expected.Some? && reply.Configured? && reply.binding == expected.value {
        Acknowledge(reply, closes);
        return;
      }
      received := received + 1;
      ForwardToBackend(reply, sends, closes);
    }

    /** `armed` is false where the source throws. */
    method Arm(nextOperation: Operation) returns (armed: bool)
      modifies this
      ensures armed <==> old(State()).Armable(nextOperation)
      ensures State() == old(State()).Step(Event.Arm(nextOperation))
    {
      if used == On || disposed == On || released == On || !IsMutation(nextOperation) { return false; }
      operation := Some(nextOperation);
      used := On;
      armed := true;
    }

    method Release(sends: bool, closes: bool)
      modifies this
      ensures State() == old(State()).Step(Event.Release(sends))
    {
      if released == On { return; }
      released := On;
      var reply := held;
      held := None;
      if disposed == Off && reply.Some? {
        ForwardToBackend(reply.value, sends, closes);
        if sends { releasedAt := Some(received); }
      }
    }
  }
}
