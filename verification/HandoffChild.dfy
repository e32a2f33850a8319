/**
 * The runner process: its module-level variables, and one function per stretch of code that runs
 * without an await.  `acquireWorkspaceProcessReservation`, `assertOwned`, the imported backend,
 * the broker constructors and every `postMessage` and `close` are oracles in the event arguments.
 */
module HandoffChild {
  import opened Common
  import opened HandoffTypes

  /** Something the start task may create: not there, created, or created and a close attempted on it. */
  datatype Resource = Absent | Created | CloseAttempted {
    function Close(): Resource { if Absent? then Absent else CloseAttempted }
  }

  /** The server and the three brokers of the runner. */
  datatype Owned = Owned(server: Resource, secretBroker: Resource, archiveBroker: Resource, snapshotBroker: Resource) {
    predicate AnyBroker() { !secretBroker.Absent? || !archiveBroker.Absent? || !snapshotBroker.Absent? }

    /** Nothing was created without a close having been attempted on it. */
    predicate NoneOpen() {
      !server.Created? && !secretBroker.Created? && !archiveBroker.Created? && !snapshotBroker.Created?
    }

    function CloseBrokers(): Owned {
      Owned(server, secretBroker.Close(), archiveBroker.Close(), snapshotBroker.Close())
    }
  }

  datatype PrepareTask = NoPrepare | Acquiring | Owning | Rejecting | Prepared

  datatype StartTask =
    NoStart | OwningBeforeImport | Importing | OwningAfterImport | StartingBackend | OwningBeforeReady | StartDone

  datatype ShutdownTask = NoShutdown | Queued | AwaitingStartup | ClosingServer | Exited(code: int)

  datatype Event =
    | Deliver(command: Command, parsed: bool, e2e: bool, threePorts: bool, sendOk: bool)
    | AcquireSettles(ok: bool, alreadyLost: bool)
    | OwnedSettles(ok: bool, sendOk: bool)
    | PrepareCatches(sendOk: bool)
    | OwnedBeforeImport(ok: bool, built: nat, closeOk: bool, sendOk: bool)
    | ImportSettles(ok: bool, closeOk: bool, sendOk: bool)
    | OwnedAfterImport(ok: bool, closeOk: bool, sendOk: bool)
    | Progresses
    | BackendStarts(ok: bool, snapshotOk: bool, closeOk: bool, sendOk: bool)
    | OwnedBeforeReady(ok: bool, port: int, readyOk: bool, closeOk: bool, sendOk: bool)
    | TimerFires(sendOk: bool)
    | ReservationLost(sendOk: bool)
    | ShutdownRuns
    | StartupAwaited
    | ServerCloseSettles(ok: bool, secretsSettled: bool, brokersOk: bool)
    | Killed

  /** `closeFailed`, `posted` and `misordered` are history: no branch reads them. */
  datatype Child = Child(
    prepared: Option<Descriptor>, startAttempted: Flag, writingImportStarted: Flag,
    held: Flag, lost: Flag, listening: Flag, reservationReady: Flag,
    cancelled: Flag, failed: Flag, timerArmed: Flag,
    prepareTask: PrepareTask, startTask: StartTask, shutdownTask: ShutdownTask,
    owned: Owned, closeFailed: Flag, posted: seq<Status>, killed: Flag, misordered: Flag)
  {
    predicate Dead() { killed.On? || shutdownTask.Exited? }

    function Sent(s: Status, ok: bool): seq<Status> { if ok then posted + [s] else posted }

    /** `shutdownTask ??= ...`: the first call queues it, later calls change nothing. */
    function QueuedShutdown(): ShutdownTask { if shutdownTask.NoShutdown? then Queued else shutdownTask }

    function Shutdown(): Child { this.(cancelled := On, timerArmed := Off, shutdownTask := QueuedShutdown()) }

    predicate IsCurrent() { cancelled.Off? && held.On? && lost.Off? }

    function ReportBoundaryFailure(sendOk: bool): Child {
      if failed.On? then this else this.(failed := On, posted := Sent(Failed, sendOk)).Shutdown()
    }

    function OnPrepare(reservation: Descriptor, e2e: bool, sendOk: bool): Child {
      if prepared.Some? || startAttempted.On? || cancelled.On? || !e2e then
        this.(misordered := if prepared.Some? || startAttempted.On? then On else misordered).ReportBoundaryFailure(sendOk)
      else this.(prepared := Some(reservation), prepareTask := Acquiring)
    }

    function OnAcquireSettles(ok: bool, alreadyLost: bool): Child {
      if !prepareTask.Acquiring? then this
      else if !ok then this.(prepareTask := Rejecting)
      else
        var owner := this.(held := On, lost := if alreadyLost then On else Off);
        if !owner.IsCurrent() then owner.(prepareTask := Rejecting)
        else owner.(listening := On, prepareTask := Owning)
    }

    function OnOwnedSettles(ok: bool, sendOk: bool): Child {
      if !prepareTask.Owning? then this
      else if !ok || !IsCurrent() || prepared.None? then this.(prepareTask := Rejecting)
      else
        this.(reservationReady := On, prepareTask := if sendOk then Prepared else Rejecting,
              posted := Sent(ReservationReady(prepared.value), sendOk))
    }

    function OnPrepareCatches(sendOk: bool): Child {
      if !prepareTask.Rejecting? then this
      else if cancelled.On? then this.(prepareTask := Prepared)
      else this.(prepareTask := Prepared).ReportBoundaryFailure(sendOk)
    }

    /** The `catch` of the start task up to its report: the brokers built so far are closed. */
    function Failing(closeOk: bool, sendOk: bool): Child {
      this.(failed := On, startTask := StartDone, owned := owned.CloseBrokers(),
            closeFailed := if !closeOk && owned.AnyBroker() then On else closeFailed,
            posted := Sent(Failed, sendOk))
    }

    function FailStart(closeOk: bool, sendOk: bool): Child { Failing(closeOk, sendOk).Shutdown() }

    /** The start task up to its first await. */
    function BeginStart(e2e: bool, threePorts: bool, sendOk: bool): Child {
      var begun := this.(startAttempted := On, startTask := OwningBeforeImport);
      if !e2e || !threePorts || !IsCurrent() then begun.FailStart(true, sendOk) else begun
    }

    predicate RefusesStart(generationId: string) {
      startAttempted.On? || reservationReady.Off? || prepared.None? || generationId != prepared.value.generationId
    }

    function OnStart(generationId: string, e2e: bool, threePorts: bool, sendOk: bool): Child {
      if RefusesStart(generationId) || cancelled.On? then
        this.(misordered := if RefusesStart(generationId) then On else misordered).ReportBoundaryFailure(sendOk)
      else BeginStart(e2e, threePorts, sendOk)
    }

    function OnCommand(command: Command, parsed: bool, e2e: bool, threePorts: bool, sendOk: bool): Child {
      if !parsed then ReportBoundaryFailure(sendOk)
      else match command
        case Shutdown => Shutdown()
        case Prepare(reservation) => OnPrepare(reservation, e2e, sendOk)
        case Start(generationId) => OnStart(generationId, e2e, threePorts, sendOk)
    }

    /** `built` broker constructors returned; with fewer than two the next one threw. */
    function OnOwnedBeforeImport(ok: bool, built: nat, closeOk: bool, sendOk: bool): Child {
      if !startTask.OwningBeforeImport? then this
      else if !ok || !IsCurrent() || built == 0 then FailStart(closeOk, sendOk)
      else if built == 1 then this.(owned := owned.(secretBroker := Created)).FailStart(closeOk, sendOk)
      else
        this.(owned := owned.(secretBroker := Created, archiveBroker := Created),
              writingImportStarted := On, startTask := Importing)
    }

    function OnImportSettles(ok: bool, closeOk: bool, sendOk: bool): Child {
      if !startTask.Importing? then this
      else if !ok || !IsCurrent() then FailStart(closeOk, sendOk)
      else this.(startTask := OwningAfterImport)
    }

    function OnOwnedAfterImport(ok: bool, closeOk: bool, sendOk: bool): Child {
      if !startTask.OwningAfterImport? then this
      else if !ok || !IsCurrent() then FailStart(closeOk, sendOk)
      else this.(startTask := StartingBackend)
    }

    function OnBackendStarts(ok: bool, snapshotOk: bool, closeOk: bool, sendOk: bool): Child {
      if !startTask.StartingBackend? then this
      else if !ok then FailStart(closeOk, sendOk)
      else if !IsCurrent() || !snapshotOk then this.(owned := owned.(server := Created)).FailStart(closeOk, sendOk)
      else this.(owned := owned.(server := Created, snapshotBroker := Created), startTask := OwningBeforeReady)
    }

    function OnOwnedBeforeReady(ok: bool, port: int, readyOk: bool, closeOk: bool, sendOk: bool): Child {
      if !startTask.OwningBeforeReady? then this
      else if !ok || !IsCurrent() || !readyOk then FailStart(closeOk, sendOk)
      else this.(timerArmed := Off, startTask := StartDone, posted := Sent(Ready(port), true))
    }

    function OnTimer(sendOk: bool): Child {
      if timerArmed.Off? then this
      else this.(timerArmed := Off).ReportBoundaryFailure(sendOk)
    }

    function OnReservationLost(sendOk: bool): Child {
      if held.Off? || lost.On? then this
      else
        var bereft := this.(lost := On);
        if listening.On? then bereft.ReportBoundaryFailure(sendOk) else bereft
    }

    function BeginServerClose(): Child { this.(shutdownTask := ClosingServer, owned := owned.(server := owned.server.Close())) }

    function OnShutdownRuns(): Child {
      if !shutdownTask.Queued? then this
      else if writingImportStarted.On? then this.(shutdownTask := AwaitingStartup)
      else BeginServerClose()
    }

    function OnStartupAwaited(): Child {
      if shutdownTask.AwaitingStartup? && startTask.StartDone? then BeginServerClose() else this
    }

    function OnServerCloseSettles(ok: bool, secretsSettled: bool, brokersOk: bool): Child {
      if !shutdownTask.ClosingServer? then this
      else
        var closeBroke := (!owned.server.Absent? && !ok) || (owned.AnyBroker() && !brokersOk);
        var broke := failed.On? || closeBroke || (!owned.secretBroker.Absent? && !secretsSettled);
        this.(failed := if broke then On else Off, closeFailed := if closeBroke then On else closeFailed,
              owned := owned.CloseBrokers(), shutdownTask := Exited(if broke then 1 else 0))
    }

    function Step(e: Event): Child {
      if Dead() then this
      else match e
        case Deliver(command, parsed, e2e, threePorts, sendOk) => OnCommand(command, parsed, e2e, threePorts, sendOk)
        case AcquireSettles(ok, alreadyLost) => OnAcquireSettles(ok, alreadyLost)
        case OwnedSettles(ok, sendOk) => OnOwnedSettles(ok, sendOk)
        case PrepareCatches(sendOk) => OnPrepareCatches(sendOk)
        case OwnedBeforeImport(ok, built, closeOk, sendOk) => OnOwnedBeforeImport(ok, built, closeOk, sendOk)
        case ImportSettles(ok, closeOk, sendOk) => OnImportSettles(ok, closeOk, sendOk)
        case OwnedAfterImport(ok, closeOk, sendOk) => OnOwnedAfterImport(ok, closeOk, sendOk)
        case Progresses => this.(posted := Sent(Progress, true))
        case BackendStarts(ok, snapshotOk, closeOk, sendOk) => OnBackendStarts(ok, snapshotOk, closeOk, sendOk)
        case OwnedBeforeReady(ok, port, readyOk, closeOk, sendOk) =>
          OnOwnedBeforeReady(ok, port, readyOk, closeOk, sendOk)
        case TimerFires(sendOk) => OnTimer(sendOk)
        case ReservationLost(sendOk) => OnReservationLost(sendOk)
        case ShutdownRuns => OnShutdownRuns()
        case StartupAwaited => OnStartupAwaited()
        case ServerCloseSettles(ok, secretsSettled, brokersOk) => OnServerCloseSettles(ok, secretsSettled, brokersOk)
        case Killed => this.(killed := On)
    }

    predicate PastImport() { !startTask.NoStart? && !startTask.OwningBeforeImport? }

    ghost predicate TasksAgree() {
      && (cancelled.On? <==> !shutdownTask.NoShutdown?)
      && (failed.On? ==> cancelled.On?)
      && (timerArmed.On? ==> cancelled.Off?)
      && (prepared.Some? <==> !prepareTask.NoPrepare?)
      && (held.On? ==> prepareTask.Owning? || prepareTask.Rejecting? || prepareTask.Prepared?)
      && (reservationReady.On? ==> held.On? && (prepareTask.Rejecting? || prepareTask.Prepared?))
      && (startAttempted.On? ==> reservationReady.On?)
      && (startAttempted.On? <==> !startTask.NoStart?)
      && (writingImportStarted.On? ==> PastImport())
      && (PastImport() && !startTask.StartDone? ==> writingImportStarted.On?)
    }

    /** Whoever was created is closed before the process exits, and exit code 0 is honest. */
    ghost predicate ResourcesAgree() {
      && (writingImportStarted.Off? ==> owned.NoneOpen() && owned.server.Absent?)
      && (!PastImport() ==> owned.server.Absent? && !owned.AnyBroker())
      && (shutdownTask.AwaitingStartup? ==> writingImportStarted.On?)
      && (shutdownTask.ClosingServer? ==>
            (writingImportStarted.On? ==> startTask.StartDone?) && !owned.server.Created?)
      && (closeFailed.On? ==> failed.On?)
      && (shutdownTask.Exited? ==> owned.NoneOpen() && (shutdownTask.code == 0 ==> failed.Off?))
    }

    /** What having posted `s` says about the state. */
    ghost predicate Explains(s: Status) {
      match s
      case Progress => true
      case ReservationReady(r) => reservationReady.On? && prepared == Some(r)
      case Ready(_) => startTask.StartDone? && writingImportStarted.On?
      case Failed => failed.On?
    }

    ghost predicate StatusesAgree() {
      && (forall i :: 0 <= i < |posted| ==> Explains(posted[i]))
      && (forall i, j :: 0 <= i < j < |posted| ==> MayFollow(posted[i], posted[j]))
    }

    ghost predicate Valid() { TasksAgree() && ResourcesAgree() && StatusesAgree() }
  }

  /** `reservationReady` and `ready` are posted once each, and `ready` never after `failed`. */
  ghost predicate MayFollow(earlier: Status, later: Status) {
    && !(earlier.ReservationReady? && later.ReservationReady?)
    && !(earlier.Ready? && later.Ready?)
    && !(earlier.Failed? && later.Ready?)
  }

  function Init(): Child {
    Child(None, Off, Off, Off, Off, Off, Off, Off, Off, On,
          NoPrepare, NoStart, NoShutdown, Owned(Absent, Absent, Absent, Absent), Off, [], Off, Off)
  }

  /** What holds between the states before and after any step: a cancelled runner stays quiet. */
  ghost predicate Grows(c: Child, d: Child) {
    && c.posted <= d.posted
    && (c.cancelled.On? ==>
          && d.cancelled.On? && d.writingImportStarted == c.writingImportStarted
          && forall i :: |c.posted| <= i < |d.posted| ==> !d.posted[i].Ready?)
  }

  /** A step that no command caused. */
  ghost predicate Internal(c: Child, d: Child) {
    && Grows(c, d)
    && d.prepared == c.prepared && d.startAttempted == c.startAttempted && d.misordered == c.misordered
  }

  // Every step keeps the runner's invariants: one lemma per handler, then the whole step.

  lemma RefuseKeepsValid(c: Child, sendOk: bool)
    requires c.Valid() && !c.Dead()
    ensures c.ReportBoundaryFailure(sendOk).Valid()
    ensures Internal(c, c.ReportBoundaryFailure(sendOk))
  {
  }

  /** A start task in hand, also between two of its assignments. */
  ghost predicate MayFail(c: Child) {
    && c.TasksAgree() && c.StatusesAgree() && !c.Dead() && c.startAttempted.On? && !c.startTask.StartDone?
    && (c.closeFailed.On? ==> c.failed.On?)
    && (c.writingImportStarted.Off? ==> c.owned.server.Absent?)
    && (c.shutdownTask.AwaitingStartup? ==> c.writingImportStarted.On?)
    && (c.shutdownTask.ClosingServer? ==> c.writingImportStarted.Off?)
  }

  lemma FailStartKeepsValid(c: Child, closeOk: bool, sendOk: bool)
    requires MayFail(c)
    ensures c.FailStart(closeOk, sendOk).Valid()
    ensures Internal(c, c.FailStart(closeOk, sendOk))
  {
  }

  lemma PrepareKeepsValid(c: Child, reservation: Descriptor, e2e: bool, sendOk: bool)
    requires c.Valid() && !c.Dead()
    ensures c.OnPrepare(reservation, e2e, sendOk).Valid()
    ensures Grows(c, c.OnPrepare(reservation, e2e, sendOk))
    ensures c.OnPrepare(reservation, e2e, sendOk).startAttempted == c.startAttempted
    ensures c.OnPrepare(reservation, e2e, sendOk).prepared == c.prepared
            || c.OnPrepare(reservation, e2e, sendOk).prepared == Some(reservation)
    ensures c.prepared.None? && c.startAttempted.Off? ==>
              c.OnPrepare(reservation, e2e, sendOk).misordered == c.misordered
  {
    hide Child.ReportBoundaryFailure;
    RefuseKeepsValid(c, sendOk);
    RefuseKeepsValid(c.(misordered := On), sendOk);
  }

  lemma StartKeepsValid(c: Child, generationId: string, e2e: bool, threePorts: bool, sendOk: bool)
    requires c.Valid() && !c.Dead()
    ensures c.OnStart(generationId, e2e, threePorts, sendOk).Valid()
    ensures Grows(c, c.OnStart(generationId, e2e, threePorts, sendOk))
    ensures c.OnStart(generationId, e2e, threePorts, sendOk).prepared == c.prepared
    ensures c.startAttempted.Off? && c.reservationReady.On? && c.prepared.Some?
            && generationId == c.prepared.value.generationId ==>
              c.OnStart(generationId, e2e, threePorts, sendOk).misordered == c.misordered
  {
    hide Child.ReportBoundaryFailure, Child.FailStart;
    RefuseKeepsValid(c, sendOk);
    RefuseKeepsValid(c.(misordered := On), sendOk);
    if c.startAttempted.Off? && c.reservationReady.On? && c.cancelled.Off? {
      var attempt := c.(startAttempted := On, startTask := OwningBeforeImport);
      assert attempt.Valid();
      FailStartKeepsValid(attempt, true, sendOk);
    }
  }

  lemma AcquireKeepsValid(c: Child, ok: bool, alreadyLost: bool)
    requires c.Valid() && !c.Dead()
    ensures c.OnAcquireSettles(ok, alreadyLost).Valid()
    ensures Internal(c, c.OnAcquireSettles(ok, alreadyLost))
  {
  }

  lemma OwnedKeepsValid(c: Child, ok: bool, sendOk: bool)
    requires c.Valid() && !c.Dead()
    ensures c.OnOwnedSettles(ok, sendOk).Valid()
    ensures Internal(c, c.OnOwnedSettles(ok, sendOk))
  {
  }

  lemma PrepareCatchKeepsValid(c: Child, sendOk: bool)
    requires c.Valid() && !c.Dead()
    ensures c.OnPrepareCatches(sendOk).Valid()
    ensures Internal(c, c.OnPrepareCatches(sendOk))
  {
    hide Child.ReportBoundaryFailure;
    if c.prepareTask.Rejecting? {
      RefuseKeepsValid(c.(prepareTask := Prepared), sendOk);
    }
  }

  lemma OwnedBeforeImportKeepsValid(c: Child, ok: bool, built: nat, closeOk: bool, sendOk: bool)
    requires c.Valid() && !c.Dead()
    ensures c.OnOwnedBeforeImport(ok, built, closeOk, sendOk).Valid()
    ensures Internal(c, c.OnOwnedBeforeImport(ok, built, closeOk, sendOk))
  {
    hide Child.FailStart;
    if c.startTask.OwningBeforeImport? {
      FailStartKeepsValid(c, closeOk, sendOk);
      FailStartKeepsValid(c.(owned := c.owned.(secretBroker := Created)), closeOk, sendOk);
    }
  }

  lemma ImportKeepsValid(c: Child, ok: bool, closeOk: bool, sendOk: bool)
    requires c.Valid() && !c.Dead()
    ensures c.OnImportSettles(ok, closeOk, sendOk).Valid()
    ensures Internal(c, c.OnImportSettles(ok, closeOk, sendOk))
  {
  }

  lemma OwnedAfterImportKeepsValid(c: Child, ok: bool, closeOk: bool, sendOk: bool)
    requires c.Valid() && !c.Dead()
    ensures c.OnOwnedAfterImport(ok, closeOk, sendOk).Valid()
    ensures Internal(c, c.OnOwnedAfterImport(ok, closeOk, sendOk))
  {
  }

  lemma BackendStartsKeepsValid(c: Child, ok: bool, snapshotOk: bool, closeOk: bool, sendOk: bool)
    requires c.Valid() && !c.Dead()
    ensures c.OnBackendStarts(ok, snapshotOk, closeOk, sendOk).Valid()
    ensures Internal(c, c.OnBackendStarts(ok, snapshotOk, closeOk, sendOk))
  {
    hide Child.FailStart;
    if c.startTask.StartingBackend? {
      FailStartKeepsValid(c, closeOk, sendOk);
      FailStartKeepsValid(c.(owned := c.owned.(server := Created)), closeOk, sendOk);
    }
  }

  lemma ReadyKeepsValid(c: Child, ok: bool, port: int, readyOk: bool, closeOk: bool, sendOk: bool)
    requires c.Valid() && !c.Dead()
    ensures c.OnOwnedBeforeReady(ok, port, readyOk, closeOk, sendOk).Valid()
    ensures Internal(c, c.OnOwnedBeforeReady(ok, port, readyOk, closeOk, sendOk))
  {
  }

  lemma TimerKeepsValid(c: Child, sendOk: bool)
    requires c.Valid() && !c.Dead()
    ensures c.OnTimer(sendOk).Valid()
    ensures Internal(c, c.OnTimer(sendOk))
  {
  }

  lemma LostKeepsValid(c: Child, sendOk: bool)
    requires c.Valid() && !c.Dead()
    ensures c.OnReservationLost(sendOk).Valid()
    ensures Internal(c, c.OnReservationLost(sendOk))
  {
    hide Child.ReportBoundaryFailure;
    RefuseKeepsValid(c.(lost := On), sendOk);
  }

  lemma ShutdownRunsKeepsValid(c: Child)
    requires c.Valid() && !c.Dead()
    ensures c.OnShutdownRuns().Valid()
    ensures Internal(c, c.OnShutdownRuns())
  {
  }

  lemma StartupAwaitedKeepsValid(c: Child)
    requires c.Valid() && !c.Dead()
    ensures c.OnStartupAwaited().Valid()
    ensures Internal(c, c.OnStartupAwaited())
  {
  }

  lemma ExitKeepsValid(c: Child, ok: bool, secretsSettled: bool, brokersOk: bool)
    requires c.Valid() && !c.Dead()
    ensures c.OnServerCloseSettles(ok, secretsSettled, brokersOk).Valid()
    ensures Internal(c, c.OnServerCloseSettles(ok, secretsSettled, brokersOk))
  {
  }

  lemma OutsideWorldKeepsValid(c: Child)
    requires c.Valid() && !c.Dead()
    ensures c.(posted := c.Sent(Progress, true)).Valid() && c.(killed := On).Valid() && c.Shutdown().Valid()
    ensures Internal(c, c.(posted := c.Sent(Progress, true))) && Internal(c, c.(killed := On))
    ensures Internal(c, c.Shutdown())
  {
  }

  lemma CommandKeepsValid(c: Child, command: Command, parsed: bool, e2e: bool, threePorts: bool, sendOk: bool)
    requires c.Valid() && !c.Dead()
    ensures var d := c.OnCommand(command, parsed, e2e, threePorts, sendOk); d.Valid() && Grows(c, d)
  {
    hide Child.Valid, Child.OnPrepare, Child.OnStart, Child.ReportBoundaryFailure, Child.Shutdown;
    RefuseKeepsValid(c, sendOk);
    match command
    case Shutdown => OutsideWorldKeepsValid(c);
    case Prepare(reservation) => PrepareKeepsValid(c, reservation, e2e, sendOk);
    case Start(generationId) => StartKeepsValid(c, generationId, e2e, threePorts, sendOk);
  }

  lemma StepKeepsValid(c: Child, e: Event)
    requires c.Valid()
    ensures c.Step(e).Valid() && Grows(c, c.Step(e))
    ensures !e.Deliver? ==> Internal(c, c.Step(e))
  {
    hide Child.Valid, Child.OnPrepare, Child.OnStart, Child.OnAcquireSettles, Child.OnOwnedSettles;
    hide Child.OnPrepareCatches, Child.OnOwnedBeforeImport, Child.OnImportSettles, Child.OnOwnedAfterImport;
    hide Child.OnBackendStarts, Child.OnOwnedBeforeReady, Child.ReportBoundaryFailure, Child.OnReservationLost;
    hide Child.OnShutdownRuns, Child.OnStartupAwaited, Child.OnServerCloseSettles, Child.Shutdown, Child.Sent;
    hide Child.OnTimer, Child.OnCommand;
    if c.Dead() { return; }
    match e
    case Deliver(command, parsed, e2e, threePorts, sendOk) =>
      CommandKeepsValid(c, command, parsed, e2e, threePorts, sendOk);
    case AcquireSettles(ok, alreadyLost) => AcquireKeepsValid(c, ok, alreadyLost);
    case OwnedSettles(ok, sendOk) => OwnedKeepsValid(c, ok, sendOk);
    case PrepareCatches(sendOk) => PrepareCatchKeepsValid(c, sendOk);
    case OwnedBeforeImport(ok, built, closeOk, sendOk) => OwnedBeforeImportKeepsValid(c, ok, built, closeOk, sendOk);
    case ImportSettles(ok, closeOk, sendOk) => ImportKeepsValid(c, ok, closeOk, sendOk);
    case OwnedAfterImport(ok, closeOk, sendOk) => OwnedAfterImportKeepsValid(c, ok, closeOk, sendOk);
    case Progresses => OutsideWorldKeepsValid(c);
    case BackendStarts(ok, snapshotOk, closeOk, sendOk) => BackendStartsKeepsValid(c, ok, snapshotOk, closeOk, sendOk);
    case OwnedBeforeReady(ok, port, readyOk, closeOk, sendOk) =>
      ReadyKeepsValid(c, ok, port, readyOk, closeOk, sendOk);
    case TimerFires(sendOk) => TimerKeepsValid(c, sendOk);
    case ReservationLost(sendOk) => LostKeepsValid(c, sendOk);
    case ShutdownRuns => ShutdownRunsKeepsValid(c);
    case StartupAwaited => StartupAwaitedKeepsValid(c);
    case ServerCloseSettles(ok, secretsSettled, brokersOk) => ExitKeepsValid(c, ok, secretsSettled, brokersOk);
    case Killed => OutsideWorldKeepsValid(c);
  }

  lemma DeadStaysDead(c: Child, e: Event)
    requires c.Dead()
    ensures c.Step(e) == c
  {
  }

  /** How one delivered command may change what the controller can rely on. */
  lemma CommandEffects(c: Child, command: Command, parsed: bool, e2e: bool, threePorts: bool, sendOk: bool)
    requires c.Valid() && !c.Dead()
    ensures var d := c.Step(Deliver(command, parsed, e2e, threePorts, sendOk));
            && (d.prepared == c.prepared || (command.Prepare? && d.prepared == Some(command.reservation)))
            && (d.startAttempted == c.startAttempted || command.Start?)
            && (Expected(c, command) ==> d.misordered == c.misordered)
  {
    hide Child.OnPrepare, Child.OnStart, Child.ReportBoundaryFailure, Child.Valid;
    RefuseKeepsValid(c, sendOk);
    match command
    case Shutdown =>
    case Prepare(reservation) => PrepareKeepsValid(c, reservation, e2e, sendOk);
    case Start(generationId) => StartKeepsValid(c, generationId, e2e, threePorts, sendOk);
  }

  /** A command in its turn: the runner may refuse it for other reasons, but not as out of order. */
  ghost predicate Expected(c: Child, command: Command) {
    match command
    case Shutdown => true
    case Prepare(_) => c.prepared.None? && c.startAttempted.Off?
    case Start(generationId) =>
      && c.startAttempted.Off? && c.reservationReady.On? && c.prepared.Some?
      && generationId == c.prepared.value.generationId
  }

  function Run(c: Child, events: seq<Event>): Child
    decreases |events|
  {
    if events == [] then c else Run(c.Step(events[0]), events[1..])
  }

  /** `e` settles the await that the start task is in, well or badly; without one, the shutdown just runs. */
  predicate Settles(task: StartTask, e: Event) {
    match task
    case OwningBeforeImport => e.OwnedBeforeImport?
    case Importing => e.ImportSettles?
    case OwningAfterImport => e.OwnedAfterImport?
    case StartingBackend => e.BackendStarts?
    case OwningBeforeReady => e.OwnedBeforeReady?
    case _ => e.ShutdownRuns?
  }

  /** However the await in hand settles, a cancelled start task ends with it. */
  lemma SettlingEndsStart(c: Child, e: Event)
    requires c.Valid() && !c.Dead() && c.cancelled.On? && Settles(c.startTask, e)
    ensures var d := c.Step(e);
            && !d.Dead() && d.cancelled.On?
            && (d.startTask.NoStart? || d.startTask.StartDone?)
  {
  }

  lemma ShutdownProceeds(c: Child)
    requires c.Valid() && !c.Dead() && c.cancelled.On? && (c.startTask.NoStart? || c.startTask.StartDone?)
    ensures var d := c.Step(ShutdownRuns).Step(StartupAwaited);
            !d.Dead() && d.shutdownTask.ClosingServer?
  {
  }

  lemma RunUnfolds(c: Child, e: Event, rest: seq<Event>)
    ensures Run(c, [e] + rest) == Run(c.Step(e), rest)
  {
    hide Child.Step;
    assert ([e] + rest)[1..] == rest;
  }

  lemma RunsInTurn(c: Child, first: Event, second: Event, third: Event, fourth: Event)
    ensures Run(c, [first] + ([second] + ([third] + ([fourth] + [])))) == c.Step(first).Step(second).Step(third).Step(fourth)
  {
    hide Child.Step;
    RunUnfolds(c, first, [second] + ([third] + ([fourth] + [])));
    RunUnfolds(c.Step(first), second, [third] + ([fourth] + []));
    RunUnfolds(c.Step(first).Step(second), third, [fourth] + []);
    RunUnfolds(c.Step(first).Step(second).Step(third), fourth, []);
  }

  lemma ClosingExits(c: Child, close: Event)
    requires !c.Dead() && c.shutdownTask.ClosingServer? && close.ServerCloseSettles?
    ensures c.Step(close).shutdownTask.Exited?
  {
  }

  /**
   * Once shutdown is asked for, no state of the runner blocks it: however the await in hand settles
   * and however the server closes, the runner comes to its exit.
   */
  lemma CancelledExits(c: Child, settle: Event, close: Event)
    requires c.Valid() && !c.Dead() && c.cancelled.On? && Settles(c.startTask, settle) && close.ServerCloseSettles?
    ensures Run(c, [settle] + ([ShutdownRuns] + ([StartupAwaited] + ([close] + [])))).shutdownTask.Exited?
  {
    hide Child.Step, Child.Valid, Settles;
    var d := c.Step(settle);
    SettlingEndsStart(c, settle);
    StepKeepsValid(c, settle);
    ShutdownProceeds(d);
    ClosingExits(d.Step(ShutdownRuns).Step(StartupAwaited), close);
    RunsInTurn(c, settle, ShutdownRuns, StartupAwaited, close);
  }
}
