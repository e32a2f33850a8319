/** The values the two processes of one backend start exchange. */
module HandoffTypes {

  datatype Descriptor = Descriptor(generationId: string, identity: string, userDataRoot: string)

  /** What the controller posts to the runner. */
  datatype Command = Prepare(reservation: Descriptor) | Start(generationId: string) | Shutdown

  /** What the runner posts to the controller. */
  datatype Status = Progress | ReservationReady(reservation: Descriptor) | Ready(port: int) | Failed
}

/**
 * One start attempt as the controller sees it: the closure variables of `startBackend`, and one
 * function per stretch of code that runs without an await.  Oracles (`reservationTransfer`,
 * `postMessage`, timers, process events) are arguments of the events.
 */
module HandoffParent {
  import opened Common
  import opened HandoffTypes

  datatype Handoff = Spawn | Preparing | Reserved | Authorizing | Granted

  /** An async continuation: `Rejecting` is the gap between a throw and its `.catch`. */
  datatype Task = Idle | Queued | Awaiting | Rejecting | Done

  datatype StartPromise = Pending | Resolved | Rejected

  datatype Milestone =
    PrepareCalled | PreparePosted | ReservationMatched | GrantCalled | GrantConfirmed | StartPosted | ReadyAccepted

  /** The only order in which a start can make progress. */
  const FULL_START: seq<Milestone> :=
    [PrepareCalled, PreparePosted, ReservationMatched, GrantCalled, GrantConfirmed, StartPosted, ReadyAccepted]

  datatype Event =
    | SpawnEvent
    | PrepareBegins
    | PrepareSettles(ok: bool, sendOk: bool)
    | PrepareCatches
    | GrantBegins
    | GrantSettles(ok: bool, current: bool, sendOk: bool)
    | GrantCatches
    | Receive(status: Status)
    | TimerFires
    | ExitEvent
    | StopCalled(sendOk: bool)
    | StopFails

  /** `milestones`, `posted` and `misordered` are history: they never influence a branch. */
  datatype Parent = Parent(
    reservation: Descriptor, port: int,
    handoff: Handoff, ready: Flag, settled: Flag, stopping: Flag, aborted: Flag,
    timerArmed: Flag, spawnSeen: Flag, exitSeen: Flag,
    prepareTask: Task, grantTask: Task,
    invalidated: Flag, promise: StartPromise,
    posted: seq<Command>, milestones: seq<Milestone>, misordered: Flag)
  {
    function Reached(m: Milestone): Parent { this.(milestones := milestones + [m]) }

    function Post(c: Command): Parent { this.(posted := posted + [c]) }

    /** A promise keeps its first settlement. */
    function RejectStart(): Parent { this.(promise := if promise.Pending? then Rejected else promise) }

    function FailStartup(): Parent {
      if settled.On? then this
      else this.(settled := On, timerArmed := Off, aborted := On, invalidated := On).RejectStart()
    }

    function OnSpawn(): Parent {
      if spawnSeen.On? then this
      else if settled.On? then this.(spawnSeen := On)
      else this.(spawnSeen := On, handoff := Preparing, prepareTask := Queued)
    }

    function OnPrepareBegins(): Parent {
      if !prepareTask.Queued? then this
      else if settled.On? then this.(prepareTask := Done)
      else this.(prepareTask := Awaiting).Reached(PrepareCalled)
    }

    function OnPrepareSettles(ok: bool, sendOk: bool): Parent {
      if !prepareTask.Awaiting? then this
      else if !ok then this.(prepareTask := Rejecting)
      else if settled.On? then this.(prepareTask := Done)
      else if !sendOk then this.(handoff := Reserved, prepareTask := Rejecting)
      else this.(handoff := Reserved, prepareTask := Done).Post(Prepare(reservation)).Reached(PreparePosted)
    }

    function OnPrepareCatches(): Parent {
      if !prepareTask.Rejecting? then this else this.(prepareTask := Done).FailStartup()
    }

    function OnReservationReady(received: Descriptor): Parent {
      if settled.On? then this
      else if handoff != Reserved || received != reservation then this.(misordered := On).FailStartup()
      else this.(handoff := Authorizing, grantTask := Queued).Reached(ReservationMatched)
    }

    function OnGrantBegins(): Parent {
      if !grantTask.Queued? then this
      else if settled.On? then this.(grantTask := Done)
      else this.(grantTask := Awaiting).Reached(GrantCalled)
    }

    function OnGrantSettles(ok: bool, current: bool, sendOk: bool): Parent {
      if !grantTask.Awaiting? then this
      else if !ok then this.(grantTask := Rejecting)
      else if settled.On? then this.(grantTask := Done)
      else if !current then this.(grantTask := Rejecting)
      else
        var granted := this.(handoff := Granted).Reached(GrantConfirmed);
        if !sendOk then granted.(grantTask := Rejecting)
        else granted.(grantTask := Done).Post(Start(reservation.generationId)).Reached(StartPosted)
    }

    function OnGrantCatches(): Parent {
      if !grantTask.Rejecting? then this else this.(grantTask := Done).FailStartup()
    }

    function OnReady(received: int): Parent {
      if settled.On? then this
      else if handoff != Granted then this.(misordered := On).FailStartup()
      else if received != port then this.FailStartup()
      else this.(ready := On, settled := On, timerArmed := Off, promise := Resolved).Reached(ReadyAccepted)
    }

    function OnMessage(status: Status): Parent {
      match status
      case Progress => this
      case ReservationReady(received) => OnReservationReady(received)
      case Ready(received) => OnReady(received)
      case Failed => FailStartup()
    }

    function OnTimer(): Parent { if timerArmed.On? then FailStartup() else this }

    function OnExit(): Parent {
      if exitSeen.On? then this
      else
        var gone := this.(settled := On, timerArmed := Off, exitSeen := On);
        if ready.Off? then gone.(aborted := On, invalidated := On).RejectStart()
        else if stopping.Off? then gone.(invalidated := On)
        else gone
    }

    /** Only the resolved handle exposes `stop`; a second call throws and changes nothing. */
    function OnStop(sendOk: bool): Parent {
      if !promise.Resolved? || stopping.On? then this
      else if sendOk then this.(stopping := On).Post(Shutdown)
      else this.(stopping := On, invalidated := On)
    }

    function OnStopFails(): Parent { if stopping.On? then this.(invalidated := On) else this }

    function Step(e: Event): Parent {
      match e
      case SpawnEvent => OnSpawn()
      case PrepareBegins => OnPrepareBegins()
      case PrepareSettles(ok, sendOk) => OnPrepareSettles(ok, sendOk)
      case PrepareCatches => OnPrepareCatches()
      case GrantBegins => OnGrantBegins()
      case GrantSettles(ok, current, sendOk) => OnGrantSettles(ok, current, sendOk)
      case GrantCatches => OnGrantCatches()
      case Receive(status) => OnMessage(status)
      case TimerFires => OnTimer()
      case ExitEvent => OnExit()
      case StopCalled(sendOk) => OnStop(sendOk)
      case StopFails => OnStopFails()
    }

    /** How far the handoff variable and the two continuations are, given the milestones passed. */
    ghost predicate ProgressAgrees() {
      var m := |milestones|;
      && milestones <= FULL_START
      && posted <= [Prepare(reservation), Start(reservation.generationId), Shutdown]
      && (2 <= m <==> 1 <= |posted|)
      && (6 <= m <==> 2 <= |posted|)
      && (|posted| == 3 ==> stopping.On?)
      && (handoff.Spawn? ==> m == 0 && prepareTask.Idle?)
      && (handoff.Preparing? ==> m <= 1)
      && (handoff.Reserved? ==> m == 1 || m == 2)
      && (handoff.Authorizing? ==> m == 3 || m == 4)
      && (handoff.Granted? ==> 5 <= m)
      && (prepareTask.Idle? ==> handoff.Spawn?)
      && (prepareTask.Queued? ==> m == 0 && handoff.Preparing?)
      && (prepareTask.Awaiting? ==> m == 1 && handoff.Preparing?)
      && (spawnSeen.Off? ==> handoff.Spawn?)
      && (grantTask.Queued? ==> m == 3)
      && (grantTask.Awaiting? ==> m == 4)
    }

    /** One settlement, and what each settlement leaves behind. */
    ghost predicate SettlementAgrees() {
      && (promise.Resolved? <==> ready.On?)
      && (ready.On? <==> |milestones| == 7)
      && (ready.On? ==> settled.On? && aborted.Off?)
      && (settled.On? && ready.Off? ==> promise.Rejected? && invalidated.On? && aborted.On?)
      && (settled.Off? ==> promise.Pending? && aborted.Off? && exitSeen.Off?)
      && (timerArmed.On? <==> settled.Off?)
      && (stopping.On? ==> ready.On?)
      && (ready.On? && exitSeen.On? && stopping.Off? ==> invalidated.On?)
    }

    ghost predicate Valid() { ProgressAgrees() && SettlementAgrees() }
  }

  function Init(reservation: Descriptor, port: int): Parent {
    Parent(reservation, port, Spawn, Off, Off, Off, Off, On, Off, Off,
           Idle, Idle, Off, Pending, [], [], Off)
  }

  /** A child as written answers only what it was sent. */
  ghost predicate Plausible(p: Parent, e: Event) {
    e.Receive? ==>
      && (e.status.ReservationReady? ==> 1 <= |p.posted|)
      && (e.status.Ready? ==> 2 <= |p.posted|)
  }

  /** Appending the next milestone, or the next command, stays on the one allowed path. */
  lemma Extends<T>(full: seq<T>, done: seq<T>, next: T)
    requires done <= full && |done| < |full| && next == full[|done|]
    ensures done + [next] <= full
  {
  }

  lemma PrepareKeepsValid(p: Parent, ok: bool, sendOk: bool)
    requires p.Valid()
    ensures p.OnPrepareBegins().Valid() && p.OnPrepareSettles(ok, sendOk).Valid()
  {
    if p.prepareTask.Queued? {
      Extends(FULL_START, p.milestones, PrepareCalled);
    } else if p.prepareTask.Awaiting? {
      Extends(FULL_START, p.milestones, PreparePosted);
      Extends([Prepare(p.reservation), Start(p.reservation.generationId), Shutdown], p.posted, Prepare(p.reservation));
    }
  }

  lemma GrantKeepsValid(p: Parent, ok: bool, current: bool, sendOk: bool)
    requires p.Valid()
    ensures p.OnGrantBegins().Valid() && p.OnGrantSettles(ok, current, sendOk).Valid()
  {
    if p.grantTask.Queued? {
      Extends(FULL_START, p.milestones, GrantCalled);
    } else if p.grantTask.Awaiting? {
      var confirmed := p.milestones + [GrantConfirmed];
      Extends(FULL_START, p.milestones, GrantConfirmed);
      Extends(FULL_START, confirmed, StartPosted);
      Extends([Prepare(p.reservation), Start(p.reservation.generationId), Shutdown], p.posted,
              Start(p.reservation.generationId));
    }
  }

  lemma MessageKeepsValid(p: Parent, status: Status)
    requires p.Valid() && Plausible(p, Receive(status))
    ensures p.OnMessage(status).Valid()
  {
    if p.handoff.Reserved? && |p.milestones| == 2 {
      Extends(FULL_START, p.milestones, ReservationMatched);
    } else if p.handoff.Granted? && |p.milestones| == 6 {
      Extends(FULL_START, p.milestones, ReadyAccepted);
    }
  }

  lemma StopKeepsValid(p: Parent, sendOk: bool)
    requires p.Valid()
    ensures p.OnStop(sendOk).Valid() && p.OnStopFails().Valid()
  {
    if p.ready.On? && p.stopping.Off? {
      Extends([Prepare(p.reservation), Start(p.reservation.generationId), Shutdown], p.posted, Shutdown);
    }
  }

  lemma FailStartupKeepsValid(p: Parent)
    requires p.Valid()
    ensures p.FailStartup().Valid()
  {
  }

  lemma FailureKeepsValid(p: Parent)
    requires p.Valid()
    ensures p.OnTimer().Valid() && p.OnPrepareCatches().Valid() && p.OnGrantCatches().Valid()
  {
    hide Parent.FailStartup;
    FailStartupKeepsValid(p);
    if p.prepareTask.Rejecting? { FailStartupKeepsValid(p.(prepareTask := Done)); }
    if p.grantTask.Rejecting? { FailStartupKeepsValid(p.(grantTask := Done)); }
  }

  lemma ProcessKeepsValid(p: Parent)
    requires p.Valid()
    ensures p.OnSpawn().Valid() && p.OnExit().Valid()
  {
  }

  lemma StepKeepsValid(p: Parent, e: Event)
    requires p.Valid() && Plausible(p, e)
    ensures p.Step(e).Valid()
  {
    hide Parent.Valid, Parent.OnSpawn, Parent.OnPrepareBegins, Parent.OnPrepareSettles, Parent.OnPrepareCatches;
    hide Parent.OnGrantBegins, Parent.OnGrantSettles, Parent.OnGrantCatches, Parent.OnMessage, Parent.OnTimer;
    hide Parent.OnExit, Parent.OnStop, Parent.OnStopFails;
    match e
    case SpawnEvent => ProcessKeepsValid(p);
    case PrepareBegins => PrepareKeepsValid(p, true, true);
    case PrepareSettles(ok, sendOk) => PrepareKeepsValid(p, ok, sendOk);
    case PrepareCatches => FailureKeepsValid(p);
    case GrantBegins => GrantKeepsValid(p, true, true, true);
    case GrantSettles(ok, current, sendOk) => GrantKeepsValid(p, ok, current, sendOk);
    case GrantCatches => FailureKeepsValid(p);
    case Receive(status) => MessageKeepsValid(p, status);
    case TimerFires => FailureKeepsValid(p);
    case ExitEvent => ProcessKeepsValid(p);
    case StopCalled(sendOk) => StopKeepsValid(p, sendOk);
    case StopFails => StopKeepsValid(p, true);
  }

  /** What holds between the states before and after any step of a valid attempt. */
  ghost predicate Moves(p: Parent, q: Parent) {
    && q.reservation == p.reservation && q.port == p.port
    && p.posted <= q.posted && p.milestones <= q.milestones
    && (p.settled.On? ==>
          && q.settled.On? && q.promise == p.promise && q.ready == p.ready && q.handoff == p.handoff
          && q.aborted == p.aborted && q.milestones == p.milestones
          && forall i :: |p.posted| <= i < |q.posted| ==> q.posted[i].Shutdown?)
    && (p.stopping.On? ==> q.stopping.On?)
    && (p.exitSeen.On? ==> q.exitSeen.On?)
  }

  predicate Announced(h: Handoff) { h.Authorizing? || h.Granted? }

  lemma FailureMoves(p: Parent)
    requires p.Valid()
    ensures Moves(p, p.FailStartup()) && Moves(p, p.OnTimer()) && Moves(p, p.OnPrepareCatches()) && Moves(p, p.OnGrantCatches())
  {
  }

  lemma ProcessMoves(p: Parent, sendOk: bool)
    requires p.Valid()
    ensures Moves(p, p.OnSpawn()) && Moves(p, p.OnExit())
    ensures Moves(p, p.OnStop(sendOk)) && Moves(p, p.OnStopFails())
  {
  }

  lemma PrepareMoves(p: Parent, ok: bool, sendOk: bool)
    requires p.Valid()
    ensures Moves(p, p.OnPrepareBegins()) && Moves(p, p.OnPrepareSettles(ok, sendOk))
  {
  }

  lemma GrantMoves(p: Parent, ok: bool, current: bool, sendOk: bool)
    requires p.Valid()
    ensures Moves(p, p.OnGrantBegins()) && Moves(p, p.OnGrantSettles(ok, current, sendOk))
  {
  }

  lemma MessageMoves(p: Parent, status: Status)
    requires p.Valid()
    ensures Moves(p, p.OnMessage(status))
  {
  }

  /** After settlement nothing is posted but `shutdown`, and the promise keeps its outcome. */
  lemma StepMoves(p: Parent, e: Event)
    requires p.Valid()
    ensures Moves(p, p.Step(e))
  {
    hide Parent.Valid, Moves, Parent.OnSpawn, Parent.OnPrepareBegins, Parent.OnPrepareSettles, Parent.OnPrepareCatches;
    hide Parent.OnGrantBegins, Parent.OnGrantSettles, Parent.OnGrantCatches, Parent.OnMessage, Parent.OnTimer;
    hide Parent.OnExit, Parent.OnStop, Parent.OnStopFails;
    match e
    case SpawnEvent => ProcessMoves(p, true);
    case PrepareBegins => PrepareMoves(p, true, true);
    case PrepareSettles(ok, sendOk) => PrepareMoves(p, ok, sendOk);
    case PrepareCatches => FailureMoves(p);
    case GrantBegins => GrantMoves(p, true, true, true);
    case GrantSettles(ok, current, sendOk) => GrantMoves(p, ok, current, sendOk);
    case GrantCatches => FailureMoves(p);
    case Receive(status) => MessageMoves(p, status);
    case TimerFires => FailureMoves(p);
    case ExitEvent => ProcessMoves(p, true);
    case StopCalled(sendOk) => ProcessMoves(p, sendOk);
    case StopFails => ProcessMoves(p, true);
  }

  /** What only a status, and only the exit event, can bring about. */
  lemma StepCauses(p: Parent, e: Event)
    ensures !e.Receive? ==> p.Step(e).misordered == p.misordered
    ensures !e.Receive? && Announced(p.Step(e).handoff) ==> Announced(p.handoff) || p.grantTask.Awaiting?
    ensures p.Step(e).exitSeen != p.exitSeen ==> e.ExitEvent?
  {
  }

  /** Only a `ready` status carrying the configured port resolves the promise. */
  lemma OnlyReadyResolves(p: Parent, e: Event)
    requires !p.promise.Resolved? && p.Step(e).promise.Resolved?
    ensures e.Receive? && e.status == Ready(p.port) && p.handoff.Granted? && p.settled.Off?
  {
  }

  // Failures.

  /** An event that ends an unsettled start: a time-out, an exit, a failed continuation, or a status not to be accepted. */
  predicate Ends(p: Parent, e: Event) {
    match e
    case TimerFires => true
    case ExitEvent => p.exitSeen.Off?
    case PrepareCatches => p.prepareTask.Rejecting?
    case GrantCatches => p.grantTask.Rejecting?
    case Receive(Failed) => true
    case Receive(ReservationReady(received)) => p.handoff != Reserved || received != p.reservation
    case Receive(Ready(received)) => p.handoff != Granted || received != p.port
    case _ => false
  }

  /** An oracle that refuses, is out of date by then, or hands over nothing that can be posted. */
  predicate OracleFails(p: Parent, e: Event) {
    match e
    case PrepareSettles(ok, sendOk) => p.prepareTask.Awaiting? && !(ok && sendOk)
    case GrantSettles(ok, current, sendOk) => p.grantTask.Awaiting? && !(ok && current && sendOk)
    case _ => false
  }

  /** The start was rejected, or a continuation of it has thrown on the way there. */
  ghost predicate Doomed(p: Parent) {
    || p.promise.Rejected?
    || (p.promise.Pending? && p.prepareTask.Rejecting? && |p.milestones| <= 1)
    || (p.promise.Pending? && p.grantTask.Rejecting? && 4 <= |p.milestones| <= 5)
  }

  lemma EndingRejects(p: Parent, e: Event)
    requires p.Valid() && p.settled.Off? && Ends(p, e)
    ensures p.Step(e).promise.Rejected?
  {
  }

  lemma OracleFailureDooms(p: Parent, e: Event)
    requires p.Valid() && p.settled.Off? && OracleFails(p, e)
    ensures Doomed(p.Step(e))
  {
  }

  lemma RejectionLasts(p: Parent, e: Event)
    requires p.Valid() && p.promise.Rejected?
    ensures p.Step(e).promise.Rejected?
  {
    StepMoves(p, e);
    hide Parent.Step;
  }

  lemma MessageLeavesDoomed(p: Parent, status: Status)
    requires p.Valid() && Plausible(p, Receive(status)) && Doomed(p) && p.promise.Pending?
    ensures Doomed(p.OnMessage(status))
  {
  }

  lemma PrepareLeavesDoomed(p: Parent, ok: bool, sendOk: bool)
    requires p.Valid() && Doomed(p) && p.promise.Pending?
    ensures Doomed(p.OnPrepareBegins()) && Doomed(p.OnPrepareSettles(ok, sendOk)) && Doomed(p.OnPrepareCatches())
  {
  }

  lemma GrantLeavesDoomed(p: Parent, ok: bool, current: bool, sendOk: bool)
    requires p.Valid() && Doomed(p) && p.promise.Pending?
    ensures Doomed(p.OnGrantBegins()) && Doomed(p.OnGrantSettles(ok, current, sendOk)) && Doomed(p.OnGrantCatches())
  {
  }

  lemma ProcessLeavesDoomed(p: Parent, sendOk: bool)
    requires p.Valid() && Doomed(p) && p.promise.Pending?
    ensures Doomed(p.OnSpawn()) && Doomed(p.OnExit()) && Doomed(p.OnTimer())
    ensures Doomed(p.OnStop(sendOk)) && Doomed(p.OnStopFails())
  {
  }

  /** A doomed start stays doomed: no status the runner can send by then rescues it. */
  lemma DoomLasts(p: Parent, e: Event)
    requires p.Valid() && Plausible(p, e) && Doomed(p)
    ensures Doomed(p.Step(e))
  {
    if p.promise.Rejected? { RejectionLasts(p, e); return; }
    hide Parent.Valid, Doomed, Parent.OnSpawn, Parent.OnPrepareBegins, Parent.OnPrepareSettles, Parent.OnPrepareCatches;
    hide Parent.OnGrantBegins, Parent.OnGrantSettles, Parent.OnGrantCatches, Parent.OnMessage, Parent.OnTimer;
    hide Parent.OnExit, Parent.OnStop, Parent.OnStopFails;
    NotResolved(p);
    match e
    case SpawnEvent => ProcessLeavesDoomed(p, true);
    case PrepareBegins => PrepareLeavesDoomed(p, true, true);
    case PrepareSettles(ok, sendOk) => PrepareLeavesDoomed(p, ok, sendOk);
    case PrepareCatches => PrepareLeavesDoomed(p, true, true);
    case GrantBegins => GrantLeavesDoomed(p, true, true, true);
    case GrantSettles(ok, current, sendOk) => GrantLeavesDoomed(p, ok, current, sendOk);
    case GrantCatches => GrantLeavesDoomed(p, true, true, true);
    case Receive(status) => MessageLeavesDoomed(p, status);
    case TimerFires => ProcessLeavesDoomed(p, true);
    case ExitEvent => ProcessLeavesDoomed(p, true);
    case StopCalled(sendOk) => ProcessLeavesDoomed(p, sendOk);
    case StopFails => ProcessLeavesDoomed(p, true);
  }

  lemma NotResolved(p: Parent)
    requires Doomed(p) && !p.promise.Rejected?
    ensures p.promise.Pending?
  {
  }
}
