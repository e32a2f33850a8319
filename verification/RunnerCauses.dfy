/** What each event does to the runner, one observable at a time: neither more nor less than its causes. */
module RunnerCauses {
  import opened Common
  import opened HandoffTypes
  import opened HandoffChild

  predicate Live(c: Child) { c.killed.Off? && !c.shutdownTask.Exited? }

  /** Not cancelled, and in possession of a reservation that is not lost. */
  predicate Current(c: Child) { c.cancelled.Off? && c.held.On? && c.lost.Off? }

  // The start task.

  /** The ownership check before the import comes back well, in a runner still current, with both brokers made. */
  predicate StartsImport(c: Child, e: Event) {
    Live(c) && c.startTask.OwningBeforeImport? && e.OwnedBeforeImport? && e.ok && 2 <= e.built && Current(c)
  }

  predicate FinishesImport(c: Child, e: Event) {
    Live(c) && c.startTask.Importing? && e.ImportSettles? && e.ok && Current(c)
  }

  /** So does the ownership check after it. */
  predicate StartsBackend(c: Child, e: Event) {
    Live(c) && c.startTask.OwningAfterImport? && e.OwnedAfterImport? && e.ok && Current(c)
  }

  predicate ServerStarts(c: Child, e: Event) {
    Live(c) && c.startTask.StartingBackend? && e.BackendStarts? && e.ok
  }

  predicate FinishesBackend(c: Child, e: Event) { ServerStarts(c, e) && Current(c) && e.snapshotOk }

  /** So does the ownership check at the end, and `ready` can be posted. */
  predicate PostsReady(c: Child, e: Event) {
    Live(c) && c.startTask.OwningBeforeReady? && e.OwnedBeforeReady? && e.ok && Current(c) && e.readyOk
  }

  /** A `start` in its turn. */
  predicate StartInTurn(c: Child, e: Event) {
    && Live(c) && e.Deliver? && e.parsed && e.command.Start?
    && c.startAttempted.Off? && c.reservationReady.On? && c.cancelled.Off?
    && c.prepared.Some? && e.command.generationId == c.prepared.value.generationId
  }

  predicate StartTaskBegins(c: Child, e: Event) {
    StartInTurn(c, e) && e.e2e && e.threePorts && Current(c)
  }

  /** The event settles the await that the start task is in. */
  predicate Answers(c: Child, e: Event) {
    Live(c) && !c.startTask.NoStart? && !c.startTask.StartDone? && Settles(c.startTask, e)
  }

  /** The start task settles well, and goes on to its next stage. */
  predicate GoesOn(c: Child, e: Event) {
    StartsImport(c, e) || FinishesImport(c, e) || StartsBackend(c, e) || FinishesBackend(c, e) || PostsReady(c, e)
  }

  predicate StartFails(c: Child, e: Event) {
    (Answers(c, e) && !GoesOn(c, e)) || (StartInTurn(c, e) && !StartTaskBegins(c, e))
  }

  function Successor(task: StartTask): StartTask {
    match task
    case NoStart => OwningBeforeImport
    case OwningBeforeImport => Importing
    case Importing => OwningAfterImport
    case OwningAfterImport => StartingBackend
    case StartingBackend => OwningBeforeReady
    case OwningBeforeReady => StartDone
    case StartDone => StartDone
  }

  /** The start task goes on exactly when its await settles well, and is over when it settles otherwise. */
  ghost predicate StartTaskExact(c: Child, e: Event, d: Child) {
    && d.startTask == (if GoesOn(c, e) || StartTaskBegins(c, e) then Successor(c.startTask)
                       else if StartFails(c, e) then StartDone else c.startTask)
    && (d.startAttempted.On? <==> c.startAttempted.On? || StartInTurn(c, e))
    && (d.writingImportStarted.On? <==> c.writingImportStarted.On? || StartsImport(c, e))
    && (!d.owned.server.Absent? <==> !c.owned.server.Absent? || ServerStarts(c, e))
  }

  // The prepare task.

  predicate PrepareInTurn(c: Child, e: Event) {
    && Live(c) && e.Deliver? && e.parsed && e.command.Prepare? && e.e2e
    && c.prepared.None? && c.startAttempted.Off? && c.cancelled.Off?
  }

  predicate Acquires(c: Child, e: Event) { Live(c) && c.prepareTask.Acquiring? && e.AcquireSettles? && e.ok }

  /** The reservation is acquired and its ownership confirmed, in a runner still current. */
  predicate OwnsReservation(c: Child, e: Event) {
    Live(c) && c.prepareTask.Owning? && e.OwnedSettles? && e.ok && Current(c)
  }

  ghost predicate PrepareTaskExact(c: Child, e: Event, d: Child) {
    && d.prepared == (if PrepareInTurn(c, e) then Some(e.command.reservation) else c.prepared)
    && (d.held.On? <==> c.held.On? || Acquires(c, e))
    && (d.lost.On? <==> if Acquires(c, e) then e.alreadyLost else c.lost.On? || (Live(c) && e.ReservationLost? && c.held.On?))
    && (d.reservationReady.On? <==> c.reservationReady.On? || OwnsReservation(c, e))
  }

  // Failures and the way out.

  /** A command that is refused: unreadable, out of turn, or in the wrong environment. */
  predicate Refused(c: Child, e: Event) {
    && Live(c) && e.Deliver?
    && (!e.parsed || (e.command.Prepare? && !PrepareInTurn(c, e)) || (e.command.Start? && !StartInTurn(c, e)))
  }

  /** A failure of the boundary: a refused command, a prepare task that threw, the timer, a lost reservation. */
  predicate BoundaryFails(c: Child, e: Event) {
    || Refused(c, e)
    || (Live(c) && e.PrepareCatches? && c.prepareTask.Rejecting? && c.cancelled.Off?)
    || (Live(c) && e.TimerFires? && c.timerArmed.On?)
    || (Live(c) && e.ReservationLost? && c.held.On? && c.lost.Off? && c.listening.On?)
  }

  /** Something that exists does not close, or the secrets are not settled. */
  predicate CloseFails(c: Child, e: Event) {
    && Live(c) && c.shutdownTask.ClosingServer? && e.ServerCloseSettles?
    && (|| (!c.owned.server.Absent? && !e.ok)
        || (!c.owned.secretBroker.Absent? && !e.secretsSettled)
        || (!(c.owned.secretBroker.Absent? && c.owned.archiveBroker.Absent? && c.owned.snapshotBroker.Absent?) && !e.brokersOk))
  }

  predicate Trouble(c: Child, e: Event) { BoundaryFails(c, e) || StartFails(c, e) || CloseFails(c, e) }

  /**
   * The runner counts as failed exactly after a failure; it is cancelled exactly by `shutdown` and by
   * every failure before the exit; and it exits exactly when the closes have settled, with 0 exactly
   * when nothing failed, these included.
   */
  ghost predicate FailureExact(c: Child, e: Event, d: Child) {
    && (d.failed.On? <==> c.failed.On? || Trouble(c, e))
    && (d.cancelled.On? <==>
          || c.cancelled.On? || BoundaryFails(c, e) || StartFails(c, e)
          || (Live(c) && e.Deliver? && e.parsed && e.command.Shutdown?))
    && (d.shutdownTask.Exited? <==>
          c.shutdownTask.Exited? || (Live(c) && c.shutdownTask.ClosingServer? && e.ServerCloseSettles?))
    && (d.shutdownTask.Exited? && !c.shutdownTask.Exited? ==>
          (d.shutdownTask.code == 0 <==> c.failed.Off? && !CloseFails(c, e)))
    && (d.shutdownTask.Exited? && c.shutdownTask.Exited? ==> d.shutdownTask == c.shutdownTask)
  }

  /** The statuses an event makes the runner post. */
  function Posts(c: Child, e: Event): seq<Status> {
    if Live(c) && e.Progresses? then [Progress]
    else if OwnsReservation(c, e) && e.sendOk && c.prepared.Some? then [ReservationReady(c.prepared.value)]
    else if PostsReady(c, e) then [Ready(e.port)]
    else if StartFails(c, e) && Sends(e) then [Failed]
    else if BoundaryFails(c, e) && c.failed.Off? && Sends(e) then [Failed]
    else []
  }

  /** Whether a status posted in this event gets out. */
  predicate Sends(e: Event) {
    match e
    case Deliver(_, _, _, _, sendOk) => sendOk
    case PrepareCatches(sendOk) => sendOk
    case OwnedBeforeImport(_, _, _, sendOk) => sendOk
    case ImportSettles(_, _, sendOk) => sendOk
    case OwnedAfterImport(_, _, sendOk) => sendOk
    case BackendStarts(_, _, _, sendOk) => sendOk
    case OwnedBeforeReady(_, _, _, _, sendOk) => sendOk
    case TimerFires(sendOk) => sendOk
    case ReservationLost(sendOk) => sendOk
    case _ => false
  }

  /** All an observer can tell of an event. */
  ghost predicate Exact(c: Child, e: Event, d: Child) {
    && StartTaskExact(c, e, d) && PrepareTaskExact(c, e, d) && FailureExact(c, e, d)
    && d.posted == c.posted + Posts(c, e)
  }

  // One lemma per kind of event.

  lemma PrepareIsExact(c: Child, e: Event)
    requires c.Valid() && Live(c) && e.Deliver? && e.parsed && e.command.Prepare?
    ensures Exact(c, e, c.Step(e))
  {
  }

  /** The tasks and the resources of `c`. */
  ghost predicate SameTasks(c: Child, d: Child) {
    && d.startTask == c.startTask && d.startAttempted == c.startAttempted && d.writingImportStarted == c.writingImportStarted
    && d.prepared == c.prepared && d.held == c.held && d.lost == c.lost && d.reservationReady == c.reservationReady
    && d.owned == c.owned
  }

  lemma RefusalLeavesTasks(c: Child, sendOk: bool)
    ensures SameTasks(c, c.ReportBoundaryFailure(sendOk))
  {
  }

  lemma FailureEndsTask(c: Child, closeOk: bool, sendOk: bool)
    ensures SameTasks(c.(startTask := StartDone, owned := c.owned.CloseBrokers()), c.FailStart(closeOk, sendOk))
  {
  }

  /** A command settles no await and closes nothing by itself. */
  lemma CommandIsNoAnswer(c: Child, e: Event)
    requires e.Deliver?
    ensures !Answers(c, e) && !GoesOn(c, e) && !StartsImport(c, e) && !ServerStarts(c, e) && !FinishesBackend(c, e)
    ensures !Acquires(c, e) && !OwnsReservation(c, e)
    ensures !BuildsBrokers(c, e, 1) && !BuildsBrokers(c, e, 2) && !ClosesServer(c, e)
  {
  }

  /** The state after `start`, told without the handler's refusals and reports. */
  lemma StartTouches(c: Child, e: Event)
    requires c.Valid() && Live(c) && e.Deliver? && e.parsed && e.command.Start?
    ensures SameTasks(
              if !StartInTurn(c, e) then c
              else if StartTaskBegins(c, e) then c.(startAttempted := On, startTask := OwningBeforeImport)
              else c.(startAttempted := On, startTask := StartDone, owned := c.owned.CloseBrokers()),
              c.Step(e))
  {
    RefusalLeavesTasks(c, e.sendOk);
    RefusalLeavesTasks(c.(misordered := On), e.sendOk);
    FailureEndsTask(c.(startAttempted := On, startTask := OwningBeforeImport), true, e.sendOk);
    hide Child.ReportBoundaryFailure, Child.FailStart, Child.Valid;
  }

  lemma StartTurnsTasks(c: Child, e: Event)
    requires c.Valid() && Live(c) && e.Deliver? && e.parsed && e.command.Start?
    ensures StartTaskExact(c, e, c.Step(e)) && PrepareTaskExact(c, e, c.Step(e)) && OwnedExact(c, e, c.Step(e))
  {
    CommandIsNoAnswer(c, e);
    StartTouches(c, e);
    assert c.startTask.NoStart? <==> c.startAttempted.Off?;
    assert c.startTask.NoStart? ==> !c.owned.AnyBroker();
    hide Answers, GoesOn, StartsImport, ServerStarts, FinishesBackend, Acquires, OwnsReservation, BuildsBrokers, ClosesServer;
    hide Child.Step, Child.Valid;
  }

  lemma StartFailsExactly(c: Child, e: Event)
    requires c.Valid() && Live(c) && e.Deliver? && e.parsed && e.command.Start?
    ensures FailureExact(c, e, c.Step(e)) && c.Step(e).posted == c.posted + Posts(c, e)
  {
  }

  lemma StartIsExact(c: Child, e: Event)
    requires c.Valid() && Live(c) && e.Deliver? && e.parsed && e.command.Start?
    ensures Exact(c, e, c.Step(e))
  {
    hide StartTaskExact, PrepareTaskExact, FailureExact, Child.Step, Posts, Child.Valid;
    StartTurnsTasks(c, e);
    StartFailsExactly(c, e);
  }

  lemma ShutdownIsExact(c: Child, e: Event)
    requires c.Valid() && Live(c) && e.Deliver? && e.parsed && e.command.Shutdown?
    ensures Exact(c, e, c.Step(e))
  {
  }

  lemma UnreadableIsExact(c: Child, e: Event)
    requires c.Valid() && Live(c) && e.Deliver? && !e.parsed
    ensures Exact(c, e, c.Step(e))
  {
  }

  lemma AcquireIsExact(c: Child, e: Event)
    requires c.Valid() && Live(c) && e.AcquireSettles?
    ensures Exact(c, e, c.Step(e))
  {
  }

  lemma OwnedIsExact(c: Child, e: Event)
    requires c.Valid() && Live(c) && e.OwnedSettles?
    ensures Exact(c, e, c.Step(e))
  {
  }

  lemma PrepareCatchIsExact(c: Child, e: Event)
    requires c.Valid() && Live(c) && e.PrepareCatches?
    ensures Exact(c, e, c.Step(e))
  {
  }

  lemma OwnedBeforeImportIsExact(c: Child, e: Event)
    requires c.Valid() && Live(c) && e.OwnedBeforeImport?
    ensures Exact(c, e, c.Step(e))
  {
  }

  lemma ImportIsExact(c: Child, e: Event)
    requires c.Valid() && Live(c) && e.ImportSettles?
    ensures Exact(c, e, c.Step(e))
  {
  }

  lemma OwnedAfterImportIsExact(c: Child, e: Event)
    requires c.Valid() && Live(c) && e.OwnedAfterImport?
    ensures Exact(c, e, c.Step(e))
  {
  }

  /** The state after the backend's start, told without the handler's reports. */
  lemma BackendTouches(c: Child, e: Event)
    requires Live(c) && e.BackendStarts?
    ensures SameTasks(
              if !c.startTask.StartingBackend? then c
              else if FinishesBackend(c, e) then
                c.(startTask := OwningBeforeReady, owned := c.owned.(server := Created, snapshotBroker := Created))
              else if e.ok then c.(startTask := StartDone, owned := c.owned.(server := Created).CloseBrokers())
              else c.(startTask := StartDone, owned := c.owned.CloseBrokers()),
              c.Step(e))
  {
    FailureEndsTask(c, e.closeOk, e.sendOk);
    FailureEndsTask(c.(owned := c.owned.(server := Created)), e.closeOk, e.sendOk);
    hide Child.FailStart;
  }

  lemma BackendTurnsTasks(c: Child, e: Event)
    requires c.Valid() && Live(c) && e.BackendStarts?
    ensures StartTaskExact(c, e, c.Step(e)) && PrepareTaskExact(c, e, c.Step(e))
  {
    BackendTouches(c, e);
    hide Child.Step, Child.Valid;
  }

  lemma BackendFailsExactly(c: Child, e: Event)
    requires c.Valid() && Live(c) && e.BackendStarts?
    ensures FailureExact(c, e, c.Step(e)) && c.Step(e).posted == c.posted + Posts(c, e)
  {
  }

  lemma BackendIsExact(c: Child, e: Event)
    requires c.Valid() && Live(c) && e.BackendStarts?
    ensures Exact(c, e, c.Step(e))
  {
    hide StartTaskExact, PrepareTaskExact, FailureExact, Child.Step, Posts, Child.Valid;
    BackendTurnsTasks(c, e);
    BackendFailsExactly(c, e);
  }

  lemma OwnedBeforeReadyIsExact(c: Child, e: Event)
    requires c.Valid() && Live(c) && e.OwnedBeforeReady?
    ensures Exact(c, e, c.Step(e))
  {
  }

  lemma TimerIsExact(c: Child, e: Event)
    requires c.Valid() && Live(c) && e.TimerFires?
    ensures Exact(c, e, c.Step(e))
  {
  }

  /** Nor does the timer or the loss of the reservation. */
  lemma SignalIsNoAnswer(c: Child, e: Event)
    requires e.TimerFires? || e.ReservationLost?
    ensures !Answers(c, e) && !GoesOn(c, e) && !StartsImport(c, e) && !ServerStarts(c, e) && !StartInTurn(c, e)
    ensures !Acquires(c, e) && !OwnsReservation(c, e) && !PrepareInTurn(c, e)
  {
  }

  lemma LostTurnsTasks(c: Child, e: Event)
    requires c.Valid() && Live(c) && e.ReservationLost?
    ensures StartTaskExact(c, e, c.Step(e)) && PrepareTaskExact(c, e, c.Step(e))
  {
    SignalIsNoAnswer(c, e);
    RefusalLeavesTasks(c.(lost := On), e.sendOk);
    hide Answers, GoesOn, StartsImport, ServerStarts, StartInTurn, Acquires, OwnsReservation, PrepareInTurn;
    hide Child.ReportBoundaryFailure, Child.Valid;
  }

  lemma LostFailsExactly(c: Child, e: Event)
    requires c.Valid() && Live(c) && e.ReservationLost?
    ensures FailureExact(c, e, c.Step(e)) && c.Step(e).posted == c.posted + Posts(c, e)
  {
  }

  lemma LostIsExact(c: Child, e: Event)
    requires c.Valid() && Live(c) && e.ReservationLost?
    ensures Exact(c, e, c.Step(e))
  {
    hide StartTaskExact, PrepareTaskExact, FailureExact, Child.Step, Posts, Child.Valid;
    LostTurnsTasks(c, e);
    LostFailsExactly(c, e);
  }

  lemma CloseIsExact(c: Child, e: Event)
    requires c.Valid() && Live(c) && e.ServerCloseSettles?
    ensures Exact(c, e, c.Step(e))
  {
  }

  lemma OtherTurnsTasks(c: Child, e: Event)
    requires c.Valid() && Live(c) && (e.Progresses? || e.ShutdownRuns? || e.StartupAwaited? || e.Killed?)
    ensures StartTaskExact(c, e, c.Step(e)) && PrepareTaskExact(c, e, c.Step(e))
  {
  }

  lemma OtherFailsExactly(c: Child, e: Event)
    requires c.Valid() && Live(c) && (e.Progresses? || e.ShutdownRuns? || e.StartupAwaited? || e.Killed?)
    ensures FailureExact(c, e, c.Step(e)) && c.Step(e).posted == c.posted + Posts(c, e)
  {
  }

  lemma OtherIsExact(c: Child, e: Event)
    requires c.Valid() && Live(c) && (e.Progresses? || e.ShutdownRuns? || e.StartupAwaited? || e.Killed?)
    ensures Exact(c, e, c.Step(e))
  {
    hide StartTaskExact, PrepareTaskExact, FailureExact, Child.Step, Posts, Child.Valid;
    OtherTurnsTasks(c, e);
    OtherFailsExactly(c, e);
  }

  lemma NothingInTheDead(c: Child, e: Event)
    requires !Live(c)
    ensures Exact(c, e, c.Step(e))
  {
    assert c.posted + [] == c.posted;
  }

  /** Whatever the event and the state: the runner does what the causes say, and nothing else. */
  lemma StepIsExact(c: Child, e: Event)
    requires c.Valid()
    ensures Exact(c, e, c.Step(e))
  {
    hide Exact, Child.Step, Child.Valid;
    if !Live(c) { NothingInTheDead(c, e); return; }
    match e
    case Deliver(command, parsed, _, _, _) =>
      if !parsed {
        UnreadableIsExact(c, e);
      } else {
        match command
        case Prepare(_) => PrepareIsExact(c, e);
        case Start(_) => StartIsExact(c, e);
        case Shutdown => ShutdownIsExact(c, e);
      }
    case AcquireSettles(_, _) => AcquireIsExact(c, e);
    case OwnedSettles(_, _) => OwnedIsExact(c, e);
    case PrepareCatches(_) => PrepareCatchIsExact(c, e);
    case OwnedBeforeImport(_, _, _, _) => OwnedBeforeImportIsExact(c, e);
    case ImportSettles(_, _, _) => ImportIsExact(c, e);
    case OwnedAfterImport(_, _, _) => OwnedAfterImportIsExact(c, e);
    case BackendStarts(_, _, _, _) => BackendIsExact(c, e);
    case OwnedBeforeReady(_, _, _, _, _) => OwnedBeforeReadyIsExact(c, e);
    case TimerFires(_) => TimerIsExact(c, e);
    case ReservationLost(_) => LostIsExact(c, e);
    case ServerCloseSettles(_, _, _) => CloseIsExact(c, e);
    case _ => OtherIsExact(c, e);
  }

  // What is created, and what a close is attempted on.

  /** The ownership check before the import comes back well, and so many brokers are made. */
  predicate BuildsBrokers(c: Child, e: Event, built: nat) {
    Live(c) && c.startTask.OwningBeforeImport? && e.OwnedBeforeImport? && e.ok && Current(c) && built <= e.built
  }

  predicate ClosesServer(c: Child, e: Event) {
    Live(c) && ((c.shutdownTask.Queued? && e.ShutdownRuns? && c.writingImportStarted.Off?)
                || (c.shutdownTask.AwaitingStartup? && e.StartupAwaited? && c.startTask.StartDone?))
  }

  /** The brokers are closed by the start task that fails, and before the exit. */
  predicate ClosesBrokers(c: Child, e: Event) {
    StartFails(c, e) || (Live(c) && c.shutdownTask.ClosingServer? && e.ServerCloseSettles?)
  }

  function Broker(r: Resource, made: bool, closed: bool): Resource {
    var now := if made then Created else r;
    if closed && !now.Absent? then CloseAttempted else now
  }

  /** Each of the four is created by its own step, and a close is attempted on it by its own. */
  ghost predicate OwnedExact(c: Child, e: Event, d: Child) {
    && d.owned.secretBroker == Broker(c.owned.secretBroker, BuildsBrokers(c, e, 1), ClosesBrokers(c, e))
    && d.owned.archiveBroker == Broker(c.owned.archiveBroker, BuildsBrokers(c, e, 2), ClosesBrokers(c, e))
    && d.owned.snapshotBroker == Broker(c.owned.snapshotBroker, FinishesBackend(c, e), ClosesBrokers(c, e))
    && d.owned.server == Broker(c.owned.server, ServerStarts(c, e), ClosesServer(c, e))
  }

  lemma StartOwnsExactly(c: Child, e: Event)
    requires c.Valid() && (e.OwnedBeforeImport? || e.ImportSettles? || e.OwnedAfterImport?)
    ensures OwnedExact(c, e, c.Step(e))
  {
  }

  lemma BackendOwnsExactly(c: Child, e: Event)
    requires c.Valid() && e.BackendStarts?
    ensures OwnedExact(c, e, c.Step(e))
  {
    FailureEndsTask(c, e.closeOk, e.sendOk);
    FailureEndsTask(c.(owned := c.owned.(server := Created)), e.closeOk, e.sendOk);
    hide Child.FailStart, Child.StatusesAgree;
  }

  lemma ReadyOwnsExactly(c: Child, e: Event)
    requires c.Valid() && e.OwnedBeforeReady?
    ensures OwnedExact(c, e, c.Step(e))
  {
    FailureEndsTask(c, e.closeOk, e.sendOk);
    hide Child.FailStart, Child.StatusesAgree;
  }

  lemma ShutdownOwnsExactly(c: Child, e: Event)
    requires c.Valid() && (e.ShutdownRuns? || e.StartupAwaited? || e.ServerCloseSettles? || e.Progresses? || e.Killed?)
    ensures OwnedExact(c, e, c.Step(e))
  {
  }

  lemma CommandOwnsExactly(c: Child, e: Event)
    requires c.Valid() && e.Deliver?
    ensures OwnedExact(c, e, c.Step(e))
  {
    if Live(c) && e.parsed && e.command.Start? {
      StartTurnsTasks(c, e);
      hide Child.Step, Child.Valid, StartTaskExact, PrepareTaskExact, OwnedExact;
    } else {
      CommandIsNoAnswer(c, e);
      hide Answers, GoesOn, ServerStarts, FinishesBackend, BuildsBrokers, ClosesServer;
      RefusalLeavesTasks(c, e.sendOk);
      RefusalLeavesTasks(c.(misordered := On), e.sendOk);
      hide Child.ReportBoundaryFailure, Child.StatusesAgree, Child.OnStart;
    }
  }

  lemma OthersOwnNothing(c: Child, e: Event)
    requires c.Valid()
    requires e.AcquireSettles? || e.OwnedSettles? || e.PrepareCatches? || e.TimerFires? || e.ReservationLost?
    ensures OwnedExact(c, e, c.Step(e))
  {
  }

  lemma ResourcesAreExact(c: Child, e: Event)
    requires c.Valid()
    ensures OwnedExact(c, e, c.Step(e))
  {
    hide OwnedExact, Child.Step, Child.Valid;
    match e
    case OwnedBeforeImport(_, _, _, _) => StartOwnsExactly(c, e);
    case ImportSettles(_, _, _) => StartOwnsExactly(c, e);
    case OwnedAfterImport(_, _, _) => StartOwnsExactly(c, e);
    case BackendStarts(_, _, _, _) => BackendOwnsExactly(c, e);
    case OwnedBeforeReady(_, _, _, _, _) => ReadyOwnsExactly(c, e);
    case Deliver(_, _, _, _, _) => CommandOwnsExactly(c, e);
    case ShutdownRuns => ShutdownOwnsExactly(c, e);
    case StartupAwaited => ShutdownOwnsExactly(c, e);
    case ServerCloseSettles(_, _, _) => ShutdownOwnsExactly(c, e);
    case Progresses => ShutdownOwnsExactly(c, e);
    case Killed => ShutdownOwnsExactly(c, e);
    case _ => OthersOwnNothing(c, e);
  }

  // Where the tasks and the timer stand.

  predicate AsksShutdown(c: Child, e: Event) {
    BoundaryFails(c, e) || StartFails(c, e) || (Live(c) && e.Deliver? && e.parsed && e.command.Shutdown?)
  }

  /** The last ownership check comes back well: the timer is off, whether or not `ready` can be posted. */
  predicate StopsTimer(c: Child, e: Event) {
    Live(c) && c.startTask.OwningBeforeReady? && e.OwnedBeforeReady? && e.ok && Current(c)
  }

  predicate Listens(c: Child, e: Event) { Acquires(c, e) && !e.alreadyLost && c.cancelled.Off? }

  function NextPrepare(c: Child, e: Event): PrepareTask {
    if PrepareInTurn(c, e) then Acquiring
    else if Live(c) && c.prepareTask.Acquiring? && e.AcquireSettles? then (if Listens(c, e) then Owning else Rejecting)
    else if Live(c) && c.prepareTask.Owning? && e.OwnedSettles? then
      (if OwnsReservation(c, e) && e.sendOk then Prepared else Rejecting)
    else if Live(c) && c.prepareTask.Rejecting? && e.PrepareCatches? then Prepared
    else c.prepareTask
  }

  /** Up to the exit, whose code is told elsewhere. */
  predicate ShutdownStands(c: Child, e: Event, task: ShutdownTask) {
    if !Live(c) then task == c.shutdownTask
    else if ClosesServer(c, e) then task.ClosingServer?
    else if c.shutdownTask.Queued? && e.ShutdownRuns? then task.AwaitingStartup?
    else if c.shutdownTask.ClosingServer? && e.ServerCloseSettles? then task.Exited?
    else if c.shutdownTask.NoShutdown? && AsksShutdown(c, e) then task.Queued?
    else task == c.shutdownTask
  }

  ghost predicate StagesExact(c: Child, e: Event, d: Child) {
    && (d.timerArmed.On? <==>
          c.timerArmed.On? && !AsksShutdown(c, e) && !StopsTimer(c, e))
    && (d.listening.On? <==> c.listening.On? || Listens(c, e))
    && d.prepareTask == NextPrepare(c, e)
    && ShutdownStands(c, e, d.shutdownTask)
  }

  /** `d` is `c` with its shutdown asked for. */
  ghost predicate Shuts(c: Child, d: Child) {
    && d.timerArmed.Off? && d.listening == c.listening && d.prepareTask == c.prepareTask
    && d.shutdownTask == c.QueuedShutdown()
  }

  lemma RefusalShuts(c: Child, sendOk: bool)
    requires c.Valid()
    ensures Shuts(c, c.ReportBoundaryFailure(sendOk))
  {
    hide Child.StatusesAgree, Child.ResourcesAgree;
  }

  lemma TaskFailureShuts(c: Child, closeOk: bool, sendOk: bool)
    ensures Shuts(c, c.FailStart(closeOk, sendOk))
  {
  }

  lemma BrokersStagesExact(c: Child, e: Event)
    requires c.Valid() && e.OwnedBeforeImport?
    ensures StagesExact(c, e, c.Step(e))
  {
    TaskFailureShuts(c, e.closeOk, e.sendOk);
    TaskFailureShuts(c.(owned := c.owned.(secretBroker := Created)), e.closeOk, e.sendOk);
    hide Child.FailStart, Child.StatusesAgree, Child.ResourcesAgree;
  }

  lemma ImportStagesExact(c: Child, e: Event)
    requires c.Valid() && e.ImportSettles?
    ensures StagesExact(c, e, c.Step(e))
  {
    TaskFailureShuts(c, e.closeOk, e.sendOk);
    hide Child.FailStart, Child.StatusesAgree, Child.ResourcesAgree;
  }

  lemma AfterImportStagesExact(c: Child, e: Event)
    requires c.Valid() && e.OwnedAfterImport?
    ensures StagesExact(c, e, c.Step(e))
  {
    TaskFailureShuts(c, e.closeOk, e.sendOk);
    hide Child.FailStart, Child.StatusesAgree, Child.ResourcesAgree;
  }

  lemma BackendStagesExact(c: Child, e: Event)
    requires c.Valid() && e.BackendStarts?
    ensures StagesExact(c, e, c.Step(e))
  {
    TaskFailureShuts(c, e.closeOk, e.sendOk);
    TaskFailureShuts(c.(owned := c.owned.(server := Created)), e.closeOk, e.sendOk);
    hide Child.FailStart, Child.StatusesAgree, Child.ResourcesAgree;
  }

  lemma ReadyStagesExact(c: Child, e: Event)
    requires c.Valid() && e.OwnedBeforeReady?
    ensures StagesExact(c, e, c.Step(e))
  {
    TaskFailureShuts(c, e.closeOk, e.sendOk);
    hide Child.FailStart, Child.StatusesAgree, Child.ResourcesAgree;
  }

  lemma ShutdownStagesExact(c: Child, e: Event)
    requires c.Valid() && (e.ShutdownRuns? || e.StartupAwaited? || e.ServerCloseSettles? || e.Progresses? || e.Killed?)
    ensures StagesExact(c, e, c.Step(e))
  {
  }

  /** What one command does to the stages: shut down, begin to prepare, or nothing. */
  ghost predicate CommandStands(c: Child, e: Event, d: Child) {
    if AsksShutdown(c, e) then Shuts(c, d)
    else
      && d.timerArmed == c.timerArmed && d.listening == c.listening && d.shutdownTask == c.shutdownTask
      && d.prepareTask == if PrepareInTurn(c, e) then Acquiring else c.prepareTask
  }

  lemma StartStands(c: Child, e: Event)
    requires c.Valid() && Live(c) && e.Deliver? && e.parsed && e.command.Start?
    ensures CommandStands(c, e, c.Step(e))
  {
    CommandIsNoAnswer(c, e);
    RefusalShuts(c, e.sendOk);
    RefusalShuts(c.(misordered := On), e.sendOk);
    TaskFailureShuts(c.(startAttempted := On, startTask := OwningBeforeImport), true, e.sendOk);
    hide Answers, GoesOn, Child.FailStart, Child.ReportBoundaryFailure, Child.Valid;
  }

  lemma PrepareStands(c: Child, e: Event)
    requires c.Valid() && Live(c) && e.Deliver? && e.parsed && e.command.Prepare?
    ensures CommandStands(c, e, c.Step(e))
  {
    CommandIsNoAnswer(c, e);
    RefusalShuts(c, e.sendOk);
    RefusalShuts(c.(misordered := On), e.sendOk);
    hide Answers, GoesOn, Child.ReportBoundaryFailure, Child.Valid;
  }

  lemma ShutdownStandsToo(c: Child, e: Event)
    requires c.Valid() && Live(c) && e.Deliver? && !(e.parsed && (e.command.Prepare? || e.command.Start?))
    ensures CommandStands(c, e, c.Step(e))
  {
    CommandIsNoAnswer(c, e);
    RefusalShuts(c, e.sendOk);
    hide Answers, GoesOn, Child.ReportBoundaryFailure, Child.Valid;
  }

  lemma CommandStagesExact(c: Child, e: Event)
    requires c.Valid() && e.Deliver?
    ensures StagesExact(c, e, c.Step(e))
  {
    CommandIsNoAnswer(c, e);
    if Live(c) {
      if e.parsed && e.command.Start? { StartStands(c, e); }
      else if e.parsed && e.command.Prepare? { PrepareStands(c, e); }
      else { ShutdownStandsToo(c, e); }
      assert c.cancelled.On? <==> !c.shutdownTask.NoShutdown?;
      hide Child.Step, Child.Valid, AsksShutdown, PrepareInTurn, Acquires, OwnsReservation, ClosesServer;
    }
  }

  lemma PrepareStagesExact(c: Child, e: Event)
    requires c.Valid() && (e.AcquireSettles? || e.OwnedSettles?)
    ensures StagesExact(c, e, c.Step(e))
  {
  }

  lemma CatchStagesExact(c: Child, e: Event)
    requires c.Valid() && e.PrepareCatches?
    ensures StagesExact(c, e, c.Step(e))
  {
  }

  lemma SignalStagesExact(c: Child, e: Event)
    requires c.Valid()
    requires e.TimerFires? || e.ReservationLost?
    ensures StagesExact(c, e, c.Step(e))
  {
  }

  lemma StagesAreExact(c: Child, e: Event)
    requires c.Valid()
    ensures StagesExact(c, e, c.Step(e))
  {
    hide StagesExact, Child.Step, Child.Valid;
    match e
    case OwnedBeforeImport(_, _, _, _) => BrokersStagesExact(c, e);
    case ImportSettles(_, _, _) => ImportStagesExact(c, e);
    case OwnedAfterImport(_, _, _) => AfterImportStagesExact(c, e);
    case BackendStarts(_, _, _, _) => BackendStagesExact(c, e);
    case OwnedBeforeReady(_, _, _, _, _) => ReadyStagesExact(c, e);
    case Deliver(_, _, _, _, _) => CommandStagesExact(c, e);
    case AcquireSettles(_, _) => PrepareStagesExact(c, e);
    case OwnedSettles(_, _) => PrepareStagesExact(c, e);
    case PrepareCatches(_) => CatchStagesExact(c, e);
    case TimerFires(_) => SignalStagesExact(c, e);
    case ReservationLost(_) => SignalStagesExact(c, e);
    case _ => ShutdownStagesExact(c, e);
  }
}
