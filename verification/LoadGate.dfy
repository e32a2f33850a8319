/**
 * The probe around the native window load.  In the hold experiment its gate starts the load only
 * once shutdown has begun and the protocol is verifiably gone.
 */
module LoadGate {
  import opened Common

  /** What held when a native load was started. */
  datatype Moment = Moment(shutdownStarted: Flag, protocolRemoved: Flag)

  datatype Counts = Counts(
    loadRequests: nat, loadStarts: nat, loadSucceeded: nat, loadRejected: nat,
    mainFrameFailures: nat, loadErrorDialogs: nat, otherErrorDialogs: nat, quitRequests: nat)

  datatype Event =
    | LoadRequested(throws: bool)
    | LoadSettles(succeeds: bool)
    | ShutdownStarted
    | ProtocolRemoved(removed: bool, absent: bool, throws: bool)
    | MainFrameFailed
    | ErrorBox(aboutLoad: bool)
    | QuitRequested
    | Dispose

  /**
   * `armed`: the release and cancel closures are set.  The moments of all starts, the loads under
   * way, and how often the gate was released and cancelled, are history.
   */
  datatype Probe = Probe(
    hold: Flag, n: Counts, protocolRemoved: Flag, shutdownStarted: Flag,
    releasedAfterRemoval: Flag, cancelled: Flag, loadSettled: Flag, armed: Flag,
    starts: seq<Moment>, underway: nat, releases: nat, cancels: nat)
  {
    /** Start the native load, which may throw at once. */
    function Invoke(throws: bool): Probe {
      var begun := this.(n := n.(loadStarts := n.loadStarts + 1), starts := starts + [Moment(shutdownStarted, protocolRemoved)]);
      if throws then begun.(n := begun.n.(loadRejected := n.loadRejected + 1), loadSettled := On)
      else begun.(underway := underway + 1)
    }

    function OnLoadRequested(throws: bool): Probe {
      var counted := this.(n := n.(loadRequests := n.loadRequests + 1));
      if hold == Off then counted.Invoke(throws)
      else if n.loadRequests != 0 || shutdownStarted == On || cancelled == On then counted
      else counted.(armed := On)
    }

    function OnLoadSettles(succeeds: bool): Probe {
      if underway == 0 then this
      else
        var done := if succeeds then n.(loadSucceeded := n.loadSucceeded + 1) else n.(loadRejected := n.loadRejected + 1);
        this.(n := done, loadSettled := On, underway := underway - 1)
    }

    function Release(throws: bool): Probe {
      this.(armed := Off, releasedAfterRemoval := protocolRemoved, releases := releases + 1).Invoke(throws)
    }

    function OnProtocolRemoved(removed: bool, absent: bool, throws: bool): Probe {
      var seen := this.(protocolRemoved := if shutdownStarted == On && removed && absent then On else Off);
      if seen.protocolRemoved == On && armed == On then seen.Release(throws) else seen
    }

    function OnDispose(): Probe {
      var gate := if armed == On then this.(armed := Off, cancelled := On, cancels := cancels + 1) else this;
      if hold == Off && 0 < n.loadRequests && loadSettled == Off then gate.(cancelled := On, loadSettled := On) else gate
    }

    function Step(e: Event): Probe {
      match e
      case LoadRequested(throws) => OnLoadRequested(throws)
      case LoadSettles(succeeds) => OnLoadSettles(succeeds)
      case ShutdownStarted => this.(shutdownStarted := On)
      case ProtocolRemoved(removed, absent, throws) => OnProtocolRemoved(removed, absent, throws)
      case MainFrameFailed => this.(n := n.(mainFrameFailures := n.mainFrameFailures + 1))
      case ErrorBox(aboutLoad) =>
        if aboutLoad then this.(n := n.(loadErrorDialogs := n.loadErrorDialogs + 1))
        else this.(n := n.(otherErrorDialogs := n.otherErrorDialogs + 1))
      case QuitRequested => this.(n := n.(quitRequests := n.quitRequests + 1))
      case Dispose => OnDispose()
    }

    /** Where the final assertion does not throw. */
    predicate Complete() {
      && cancelled == Off && n.loadRequests == 1 && n.loadStarts == 1 && protocolRemoved == On
      && (hold == On ==>
            && releasedAfterRemoval == On && n.loadRejected == 1 && n.loadSucceeded == 0
            && n.loadErrorDialogs == 1 && n.otherErrorDialogs == 0 && n.quitRequests == 1)
      && (hold == Off ==>
            && n.loadErrorDialogs == 0 && n.otherErrorDialogs == 0 && n.quitRequests == 0
            && n.loadRejected == 0 && n.mainFrameFailures == 0 && n.loadSucceeded == 1)
    }

    ghost predicate Accounted() {
      && n.loadStarts == |starts| == n.loadSucceeded + n.loadRejected + underway
      && (protocolRemoved == On ==> shutdownStarted == On)
    }

    /** The four lives of a gate: not asked yet or refused, holding, released, cancelled. */
    ghost predicate GateAgrees() {
      && (armed == On ==> releases == 0 && cancels == 0 && cancelled == Off && 0 < n.loadRequests)
      && releases + cancels <= 1
      && n.loadStarts == releases
      && (cancels == 1 <==> cancelled == On)
      && (releases == 1 <==> releasedAfterRemoval == On)
      && (0 < releases + cancels ==> 0 < n.loadRequests && armed == Off)
      && (releases == 1 ==> starts == [Moment(On, On)])
    }

    /** Without the gate every request starts its load at once. */
    ghost predicate PassesThrough() {
      armed == Off && releases == 0 && cancels == 0 && n.loadStarts == n.loadRequests && releasedAfterRemoval == Off
    }

    ghost predicate Valid() {
      Accounted() && (if hold == On then GateAgrees() else PassesThrough())
    }
  }

  const NONE: Counts := Counts(0, 0, 0, 0, 0, 0, 0, 0)

  function Init(hold: Flag): Probe {
    Probe(hold, NONE, Off, Off, Off, Off, Off, Off, [], 0, 0, 0)
  }

  function Run(p: Probe, events: seq<Event>): Probe
    decreases |events|
  {
    if events == [] then p else Run(p.Step(events[0]), events[1..])
  }

  lemma RequestKeepsValid(p: Probe, throws: bool)
    requires p.Valid()
    ensures p.OnLoadRequested(throws).Valid()
  {
  }

  lemma SettlingKeepsValid(p: Probe, succeeds: bool)
    requires p.Valid()
    ensures p.OnLoadSettles(succeeds).Valid()
  {
  }

  lemma RemovalKeepsValid(p: Probe, removed: bool, absent: bool, throws: bool)
    requires p.Valid()
    ensures p.OnProtocolRemoved(removed, absent, throws).Valid()
  {
  }

  lemma DisposeKeepsValid(p: Probe)
    requires p.Valid()
    ensures p.OnDispose().Valid()
  {
  }

  lemma StepKeepsValid(p: Probe, e: Event)
    requires p.Valid()
    ensures p.Step(e).Valid() && p.Step(e).hold == p.hold
  {
    match e
    case LoadRequested(throws) => RequestKeepsValid(p, throws);
    case LoadSettles(succeeds) => SettlingKeepsValid(p, succeeds);
    case ProtocolRemoved(removed, absent, throws) => RemovalKeepsValid(p, removed, absent, throws);
    case Dispose => DisposeKeepsValid(p);
    case _ => hide Probe.OnLoadRequested, Probe.OnLoadSettles, Probe.OnProtocolRemoved, Probe.OnDispose;
  }

  lemma {:induction false} RunKeepsValid(p: Probe, events: seq<Event>)
    requires p.Valid()
    ensures Run(p, events).Valid() && Run(p, events).hold == p.hold
    decreases |events|
  {
    if events != [] {
      StepKeepsValid(p, events[0]);
      RunKeepsValid(p.Step(events[0]), events[1..]);
    }
  }

  lemma InitIsValid(hold: Flag)
    ensures Init(hold).Valid()
  {
  }

  /** One start at most, of a released gate, and never of a cancelled one. */
  ghost predicate OneShot(p: Probe) {
    && p.n.loadStarts <= 1 && |p.starts| == p.n.loadStarts
    && (forall m <- p.starts :: m == Moment(On, On))
    && p.releases + p.cancels <= 1
    && (p.n.loadStarts == 1 <==> p.releasedAfterRemoval == On)
    && !(p.releasedAfterRemoval == On && p.cancelled == On)
  }

  lemma ValidIsOneShot(p: Probe)
    requires p.Accounted() && p.GateAgrees()
    ensures OneShot(p)
  {
    if p.releases == 0 { assert p.starts == []; }
  }

  /**
   * In hold mode the native load starts at most once, and then after shutdown began and the
   * removal was verified; the gate is released or cancelled, never both, and a load runs exactly
   * when it was released.
   */
  lemma GateIsOneShot(events: seq<Event>)
    ensures OneShot(Run(Init(On), events))
  {
    InitIsValid(On);
    RunKeepsValid(Init(On), events);
    ValidIsOneShot(Run(Init(On), events));
  }

  lemma {:induction false} CancelledLasts(p: Probe, events: seq<Event>)
    requires p.Valid() && p.hold == On && p.cancelled == On
    ensures Run(p, events).n.loadStarts == 0 && Run(p, events).cancelled == On
    decreases |events|
  {
    if events != [] {
      StepKeepsValid(p, events[0]);
      CancelledLasts(p.Step(events[0]), events[1..]);
    }
  }

  /** One load, which has settled the way the mode calls for. */
  ghost predicate Observed(p: Probe) {
    && |p.starts| == 1 && p.underway == 0 && p.shutdownStarted == On && p.protocolRemoved == On
    && (p.hold == On ==> p.starts == [Moment(On, On)] && p.releases == 1 && p.cancels == 0 && p.n.loadRejected == 1)
    && (p.hold == Off ==> p.releases == 0 && p.n.loadSucceeded == 1)
  }

  lemma ValidCompleteIsObserved(p: Probe)
    requires p.Valid() && p.Complete()
    ensures Observed(p)
  {
  }

  /** When the final assertion passes, in either mode, the history is what the mode was to show. */
  lemma CompleteMeansObserved(hold: Flag, events: seq<Event>)
    requires Run(Init(hold), events).Complete()
    ensures Observed(Run(Init(hold), events))
  {
    InitIsValid(hold);
    RunKeepsValid(Init(hold), events);
    ValidCompleteIsObserved(Run(Init(hold), events));
  }

  // What each event does, neither more nor less.

  /** The removal is verified after shutdown has begun. */
  predicate Verifies(p: Probe, e: Event) { e.ProtocolRemoved? && p.shutdownStarted == On && e.removed && e.absent }

  /** A native load starts: at once without the gate, and with it at the verified removal while it holds. */
  predicate StartsLoad(p: Probe, e: Event) {
    (e.LoadRequested? && p.hold == Off) || (Verifies(p, e) && p.armed == On)
  }

  /** The first request of all, before shutdown, is held. */
  predicate HoldsLoad(p: Probe, e: Event) {
    e.LoadRequested? && p.hold == On && p.n.loadRequests == 0 && p.shutdownStarted == Off && p.cancelled == Off
  }

  predicate ThrowsAtOnce(p: Probe, e: Event) {
    StartsLoad(p, e) && ((e.LoadRequested? && e.throws) || (e.ProtocolRemoved? && e.throws))
  }

  predicate LoadEnds(p: Probe, e: Event, succeeds: bool) { e == LoadSettles(succeeds) && 0 < p.underway }

  function One(happens: bool): nat { if happens then 1 else 0 }

  lemma CountsAreExact(p: Probe, e: Event)
    ensures var (n, m) := (p.n, p.Step(e).n);
            && m.loadRequests == n.loadRequests + One(e.LoadRequested?)
            && m.loadStarts == n.loadStarts + One(StartsLoad(p, e))
            && m.loadSucceeded == n.loadSucceeded + One(LoadEnds(p, e, true))
            && m.loadRejected == n.loadRejected + One(LoadEnds(p, e, false)) + One(ThrowsAtOnce(p, e))
            && m.mainFrameFailures == n.mainFrameFailures + One(e.MainFrameFailed?)
            && m.loadErrorDialogs == n.loadErrorDialogs + One(e.ErrorBox? && e.aboutLoad)
            && m.otherErrorDialogs == n.otherErrorDialogs + One(e.ErrorBox? && !e.aboutLoad)
            && m.quitRequests == n.quitRequests + One(e.QuitRequested?)
  {
  }

  /** Disposing cancels a load that is held, and without the gate one that has not settled. */
  predicate Cancels(p: Probe, e: Event) {
    e.Dispose? && (p.armed == On || (p.hold == Off && 0 < p.n.loadRequests && p.loadSettled == Off))
  }

  lemma GateIsExact(p: Probe, e: Event)
    requires p.Valid()
    ensures var q := p.Step(e);
            && q.hold == p.hold
            && (q.shutdownStarted == On <==> p.shutdownStarted == On || e.ShutdownStarted?)
            && (q.protocolRemoved == On <==> if e.ProtocolRemoved? then Verifies(p, e) else p.protocolRemoved == On)
            && (q.armed == On <==> HoldsLoad(p, e) || (p.armed == On && !StartsLoad(p, e) && !e.Dispose?))
            && (q.cancelled == On <==> p.cancelled == On || Cancels(p, e))
            && (q.releasedAfterRemoval == On <==> p.releasedAfterRemoval == On || (p.hold == On && StartsLoad(p, e)))
  {
  }

  lemma LoadsAreExact(p: Probe, e: Event)
    requires p.Valid()
    ensures var q := p.Step(e);
            && q.starts == p.starts + (if StartsLoad(p, e) then [Moment(q.shutdownStarted, q.protocolRemoved)] else [])
            && q.underway == p.underway + One(StartsLoad(p, e) && !ThrowsAtOnce(p, e))
                             - One(LoadEnds(p, e, true) || LoadEnds(p, e, false))
            && (q.loadSettled == On <==>
                  || p.loadSettled == On || ThrowsAtOnce(p, e) || LoadEnds(p, e, true) || LoadEnds(p, e, false)
                  || (Cancels(p, e) && p.hold == Off))
  {
    assert p.starts + [] == p.starts;
  }

  /** The probe's variables. */
  class LoadProbe {
    const hold: Flag
    var n: Counts
    var protocolRemoved: Flag
    var shutdownStarted: Flag
    var releasedAfterRemoval: Flag
    var cancelled: Flag
    var loadSettled: Flag
    var armed: Flag
    ghost var starts: seq<Moment>
    ghost var underway: nat
    ghost var releases: nat
    ghost var cancels: nat

    ghost function State(): Probe
      reads this
    {
      Probe(hold, n, protocolRemoved, shutdownStarted, releasedAfterRemoval, cancelled, loadSettled, armed,
            starts, underway, releases, cancels)
    }

    constructor (hold: Flag)
      ensures State() == Init(hold)
    {
      this.hold := hold;
      n := NONE;
      protocolRemoved, shutdownStarted, releasedAfterRemoval, cancelled, loadSettled, armed := Off, Off, Off, Off, Off, Off;
      starts, underway, releases, cancels := [], 0, 0, 0;
    }

    method StartLoad(throws: bool)
      modifies this
      ensures State() == old(State()).Invoke(throws)
    {
      n := n.(loadStarts := n.loadStarts + 1);
      starts := starts + [Moment(shutdownStarted, protocolRemoved)];
      if throws {
        n := n.(loadRejected := n.loadRejected + 1);
        loadSettled := On;
      } else {
        underway := underway + 1;
      }
    }

    /** `accepted` is false where the gate throws. */
    method Load(throws: bool) returns (accepted: bool)
      modifies this
      ensures State() == old(State()).Step(LoadRequested(throws))
      ensures accepted && hold == On ==> armed == On
    {
      n := n.(loadRequests := n.loadRequests + 1);
      if hold == Off {
        StartLoad(throws);
        return true;
      }
      if n.loadRequests != 1 || shutdownStarted == On || cancelled == On { return false; }
      armed := On;
      accepted := true;
    }

    method OnSettled(succeeds: bool)
      requires 0 < underway
      modifies this
      ensures State() == old(State()).Step(LoadSettles(succeeds))
    {
      n := if succeeds then n.(loadSucceeded := n.loadSucceeded + 1) else n.(loadRejected := n.loadRejected + 1);
      loadSettled, underway := On, underway - 1;
    }

    method OnProtocolRemoved(removed: bool, absent: bool, throws: bool)
      modifies this
      ensures State() == old(State()).Step(ProtocolRemoved(removed, absent, throws))
    {
      protocolRemoved := if shutdownStarted == On && removed && absent then On else Off;
      if protocolRemoved == On && armed == On {
        armed, releasedAfterRemoval, releases := Off, protocolRemoved, releases + 1;
        StartLoad(throws);
      }
    }

    method Dispose()
      modifies this
      ensures State() == old(State()).Step(Event.Dispose)
    {
      if armed == On { armed, cancelled, cancels := Off, On, cancels + 1; }
      if hold == Off && 0 < n.loadRequests && loadSettled == Off { cancelled, loadSettled := On, On; }
    }
  }
}
