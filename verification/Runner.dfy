/** The runner's module-level variables, updated in place by its message handler, tasks and timers. */
module Runners {
  import opened Common
  import opened HandoffTypes
  import opened HandoffChild

  class Runner {
    var prepared: Option<Descriptor>
    var startAttempted: Flag
    var writingImportStarted: Flag
    var held: Flag
    var lost: Flag
    var listening: Flag
    var reservationReady: Flag
    var cancelled: Flag
    var failed: Flag
    var timerArmed: Flag
    var prepareTask: PrepareTask
    var startTask: StartTask
    var shutdownTask: ShutdownTask
    var owned: Owned
    var posted: seq<Status>
    ghost var closeFailed: Flag
    ghost var killed: Flag
    ghost var misordered: Flag

    ghost function State(): Child
      reads this
    {
      Child(prepared, startAttempted, writingImportStarted, held, lost, listening, reservationReady,
            cancelled, failed, timerArmed, prepareTask, startTask, shutdownTask,
            owned, closeFailed, posted, killed, misordered)
    }

    constructor ()
      ensures State() == Init() && State().Valid()
    {
      prepared := None;
      startAttempted, writingImportStarted, held, lost, listening, reservationReady := Off, Off, Off, Off, Off, Off;
      cancelled, failed, timerArmed := Off, Off, On;
      prepareTask, startTask, shutdownTask := NoPrepare, NoStart, NoShutdown;
      owned := Owned(Absent, Absent, Absent, Absent);
      posted, closeFailed, killed, misordered := [], Off, Off, Off;
    }

    predicate AssertCurrentPasses()
      reads this
    {
      cancelled.Off? && held.On? && lost.Off?
    }

    method Post(status: Status, sendOk: bool)
      modifies this`posted
      ensures posted == old(State()).Sent(status, sendOk)
    {
      if sendOk { posted := posted + [status]; }
    }

    method Shutdown()
      modifies this`cancelled, this`timerArmed, this`shutdownTask
      ensures State() == old(State()).Shutdown()
      ensures old(State()).Valid() && !old(State()).Dead() ==> State().Valid() && Grows(old(State()), State())
    {
      ghost var c := State();
      if c.Valid() && !c.Dead() { OutsideWorldKeepsValid(c); }
      hide Child.Valid, Grows;
      cancelled := On;
      timerArmed := Off;
      if shutdownTask.NoShutdown? { shutdownTask := Queued; }
    }

    method ReportBoundaryFailure(sendOk: bool)
      modifies this`failed, this`posted, this`cancelled, this`timerArmed, this`shutdownTask
      ensures State() == old(State()).ReportBoundaryFailure(sendOk)
      ensures old(State()).Valid() && !old(State()).Dead() ==> State().Valid() && Grows(old(State()), State())
    {
      ghost var c := State();
      if c.Valid() && !c.Dead() { RefuseKeepsValid(c, sendOk); }
      hide Child.Valid, Grows;
      if failed.On? { return; }
      failed := On;
      Post(Failed, sendOk);
      Shutdown();
    }

    method OnPrepare(reservation: Descriptor, e2e: bool, sendOk: bool)
      requires State().Valid() && !State().Dead()
      modifies this
      ensures State() == old(State()).OnPrepare(reservation, e2e, sendOk)
      ensures State().Valid() && Grows(old(State()), State())
    {
      ghost var c := State();
      PrepareKeepsValid(c, reservation, e2e, sendOk);
      hide Child.Valid, Grows;
      if prepared.Some? || startAttempted.On? || cancelled.On? || !e2e {
        misordered := if prepared.Some? || startAttempted.On? then On else misordered;
        ReportBoundaryFailure(sendOk);
        return;
      }
      prepared := Some(reservation);
      prepareTask := Acquiring;
    }

    method AcquireSettles(ok: bool, alreadyLost: bool)
      requires State().Valid() && !State().Dead()
      modifies this
      ensures State() == old(State()).OnAcquireSettles(ok, alreadyLost)
      ensures State().Valid() && Grows(old(State()), State())
    {
      ghost var c := State();
      AcquireKeepsValid(c, ok, alreadyLost);
      hide Child.Valid, Grows;
      if !prepareTask.Acquiring? { return; }
      prepareTask := Rejecting;
      if !ok { return; }
      held := On;
      lost := if alreadyLost then On else Off;
      if !AssertCurrentPasses() { return; }
      listening := On;
      prepareTask := Owning;
    }

    method OwnedSettles(ok: bool, sendOk: bool)
      requires State().Valid() && !State().Dead()
      modifies this
      ensures State() == old(State()).OnOwnedSettles(ok, sendOk)
      ensures State().Valid() && Grows(old(State()), State())
    {
      ghost var c := State();
      OwnedKeepsValid(c, ok, sendOk);
      hide Child.Valid, Grows;
      if !prepareTask.Owning? { return; }
      prepareTask := Rejecting;
      if !ok || !AssertCurrentPasses() || prepared.None? { return; }
      reservationReady := On;
      Post(ReservationReady(prepared.value), sendOk);
      if sendOk { prepareTask := Prepared; }
    }

    method PrepareCatches(sendOk: bool)
      requires State().Valid() && !State().Dead()
      modifies this
      ensures State() == old(State()).OnPrepareCatches(sendOk)
      ensures State().Valid() && Grows(old(State()), State())
    {
      ghost var c := State();
      PrepareCatchKeepsValid(c, sendOk);
      hide Child.Valid, Grows;
      if !prepareTask.Rejecting? { return; }
      prepareTask := Prepared;
      if cancelled.Off? { ReportBoundaryFailure(sendOk); }
    }

    method CloseBrokers(ok: bool)
      modifies this`owned, this`closeFailed
      ensures owned == old(owned).CloseBrokers()
      ensures closeFailed == if !ok && old(owned).AnyBroker() then On else old(closeFailed)
    {
      closeFailed := if !ok && owned.AnyBroker() then On else closeFailed;
      owned := owned.CloseBrokers();
    }

    method CloseAndReport(closeOk: bool, sendOk: bool)
      modifies this`failed, this`startTask, this`owned, this`closeFailed, this`posted
      ensures State() == old(State()).Failing(closeOk, sendOk)
    {
      CloseBrokers(closeOk);
      failed := On;
      startTask := StartDone;
      Post(Failed, sendOk);
    }

    method FailStart(closeOk: bool, sendOk: bool)
      modifies this
      ensures State() == old(State()).FailStart(closeOk, sendOk)
      ensures MayFail(old(State())) ==> State().Valid() && Grows(old(State()), State())
    {
      ghost var c := State();
      if MayFail(c) { FailStartKeepsValid(c, closeOk, sendOk); }
      hide MayFail, Child.Valid, Grows, Child.Dead, Child.Failing, Child.Shutdown;
      CloseAndReport(closeOk, sendOk);
      Shutdown();
    }

    method BeginStart(e2e: bool, threePorts: bool, sendOk: bool)
      modifies this
      ensures State() == old(State()).BeginStart(e2e, threePorts, sendOk)
    {
      hide MayFail, Child.Valid, Grows, Child.Dead, Child.FailStart;
      startAttempted := On;
      startTask := OwningBeforeImport;
      if !e2e || !threePorts || !AssertCurrentPasses() { FailStart(true, sendOk); }
    }

    method OnStart(generationId: string, e2e: bool, threePorts: bool, sendOk: bool)
      requires State().Valid() && !State().Dead()
      modifies this
      ensures State() == old(State()).OnStart(generationId, e2e, threePorts, sendOk)
      ensures State().Valid() && Grows(old(State()), State())
    {
      ghost var c := State();
      StartKeepsValid(c, generationId, e2e, threePorts, sendOk);
      hide Child.Valid, Grows, MayFail, Child.Dead, Child.BeginStart, Child.ReportBoundaryFailure;
      var refused := startAttempted.On? || reservationReady.Off?
                     || prepared.None? || generationId != prepared.value.generationId;
      if refused || cancelled.On? {
        misordered := if refused then On else misordered;
        ReportBoundaryFailure(sendOk);
        return;
      }
      BeginStart(e2e, threePorts, sendOk);
    }

    method OnMessage(command: Command, parsed: bool, e2e: bool, threePorts: bool, sendOk: bool)
      requires State().Valid() && !State().Dead()
      modifies this
      ensures State() == old(State()).OnCommand(command, parsed, e2e, threePorts, sendOk)
      ensures State().Valid() && Grows(old(State()), State())
    {
      ghost var c := State();
      CommandKeepsValid(c, command, parsed, e2e, threePorts, sendOk);
      hide Child.Valid, Grows;
      if !parsed {
        ReportBoundaryFailure(sendOk);
        return;
      }
      match command
      case Shutdown => Shutdown();
      case Prepare(reservation) => OnPrepare(reservation, e2e, sendOk);
      case Start(generationId) => OnStart(generationId, e2e, threePorts, sendOk);
    }

    method OwnedBeforeImport(ok: bool, built: nat, closeOk: bool, sendOk: bool)
      requires State().Valid() && !State().Dead()
      modifies this
      ensures State() == old(State()).OnOwnedBeforeImport(ok, built, closeOk, sendOk)
      ensures State().Valid() && Grows(old(State()), State())
    {
      ghost var c := State();
      OwnedBeforeImportKeepsValid(c, ok, built, closeOk, sendOk);
      hide Child.Valid, Grows;
      if !startTask.OwningBeforeImport? { return; }
      if !ok || !AssertCurrentPasses() || built == 0 { FailStart(closeOk, sendOk); return; }
      owned := owned.(secretBroker := Created);
      if built == 1 { FailStart(closeOk, sendOk); return; }
      owned := owned.(archiveBroker := Created);
      writingImportStarted := On;
      startTask := Importing;
    }

    method ImportSettles(ok: bool, closeOk: bool, sendOk: bool)
      requires State().Valid() && !State().Dead()
      modifies this
      ensures State() == old(State()).OnImportSettles(ok, closeOk, sendOk)
      ensures State().Valid() && Grows(old(State()), State())
    {
      ghost var c := State();
      ImportKeepsValid(c, ok, closeOk, sendOk);
      hide Child.Valid, Grows;
      if !startTask.Importing? { return; }
      if !ok || !AssertCurrentPasses() { FailStart(closeOk, sendOk); return; }
      startTask := OwningAfterImport;
    }

    method OwnedAfterImport(ok: bool, closeOk: bool, sendOk: bool)
      requires State().Valid() && !State().Dead()
      modifies this
      ensures State() == old(State()).OnOwnedAfterImport(ok, closeOk, sendOk)
      ensures State().Valid() && Grows(old(State()), State())
    {
      ghost var c := State();
      OwnedAfterImportKeepsValid(c, ok, closeOk, sendOk);
      hide Child.Valid, Grows;
      if !startTask.OwningAfterImport? { return; }
      if !ok || !AssertCurrentPasses() { FailStart(closeOk, sendOk); return; }
      startTask := StartingBackend;
    }

    method BackendStarts(ok: bool, snapshotOk: bool, closeOk: bool, sendOk: bool)
      requires State().Valid() && !State().Dead()
      modifies this
      ensures State() == old(State()).OnBackendStarts(ok, snapshotOk, closeOk, sendOk)
      ensures State().Valid() && Grows(old(State()), State())
    {
      ghost var c := State();
      BackendStartsKeepsValid(c, ok, snapshotOk, closeOk, sendOk);
      hide Child.Valid, Grows;
      if !startTask.StartingBackend? { return; }
      if !ok { FailStart(closeOk, sendOk); return; }
      owned := owned.(server := Created);
      if !AssertCurrentPasses() || !snapshotOk { FailStart(closeOk, sendOk); return; }
      owned := owned.(snapshotBroker := Created);
      startTask := OwningBeforeReady;
    }

    method OwnedBeforeReady(ok: bool, port: int, readyOk: bool, closeOk: bool, sendOk: bool)
      requires State().Valid() && !State().Dead()
      modifies this
      ensures State() == old(State()).OnOwnedBeforeReady(ok, port, readyOk, closeOk, sendOk)
      ensures State().Valid() && Grows(old(State()), State())
    {
      ghost var c := State();
      ReadyKeepsValid(c, ok, port, readyOk, closeOk, sendOk);
      hide Child.Valid, Grows;
      if !startTask.OwningBeforeReady? { return; }
      if !ok || !AssertCurrentPasses() { FailStart(closeOk, sendOk); return; }
      timerArmed := Off;
      if !readyOk { FailStart(closeOk, sendOk); return; }
      Post(Ready(port), true);
      startTask := StartDone;
    }

    method OnTimer(sendOk: bool)
      requires State().Valid() && !State().Dead()
      modifies this
      ensures State() == old(State()).OnTimer(sendOk)
      ensures State().Valid() && Grows(old(State()), State())
    {
      ghost var c := State();
      TimerKeepsValid(c, sendOk);
      hide Child.Valid, Grows;
      if timerArmed.Off? { return; }
      timerArmed := Off;
      ReportBoundaryFailure(sendOk);
    }

    method OnReservationLost(sendOk: bool)
      requires State().Valid() && !State().Dead()
      modifies this
      ensures State() == old(State()).OnReservationLost(sendOk)
      ensures State().Valid() && Grows(old(State()), State())
    {
      ghost var c := State();
      LostKeepsValid(c, sendOk);
      hide Child.Valid, Grows;
      if held.Off? || lost.On? { return; }
      lost := On;
      if listening.On? { ReportBoundaryFailure(sendOk); }
    }

    method ShutdownRuns()
      requires State().Valid() && !State().Dead()
      modifies this`shutdownTask, this`owned
      ensures State() == old(State()).OnShutdownRuns()
      ensures State().Valid() && Grows(old(State()), State())
    {
      ghost var c := State();
      ShutdownRunsKeepsValid(c);
      hide Child.Valid, Grows;
      if !shutdownTask.Queued? { return; }
      if writingImportStarted.On? { shutdownTask := AwaitingStartup; return; }
      shutdownTask := ClosingServer;
      owned := owned.(server := owned.server.Close());
    }

    method StartupAwaited()
      requires State().Valid() && !State().Dead()
      modifies this`shutdownTask, this`owned
      ensures State() == old(State()).OnStartupAwaited()
      ensures State().Valid() && Grows(old(State()), State())
    {
      ghost var c := State();
      StartupAwaitedKeepsValid(c);
      hide Child.Valid, Grows;
      if !shutdownTask.AwaitingStartup? || !startTask.StartDone? { return; }
      shutdownTask := ClosingServer;
      owned := owned.(server := owned.server.Close());
    }

    method ServerCloseSettles(ok: bool, secretsSettled: bool, brokersOk: bool)
      requires State().Valid() && !State().Dead()
      modifies this
      ensures State() == old(State()).OnServerCloseSettles(ok, secretsSettled, brokersOk)
      ensures State().Valid() && Grows(old(State()), State())
    {
      ghost var c := State();
      ExitKeepsValid(c, ok, secretsSettled, brokersOk);
      hide Child.Valid, Grows;
      if !shutdownTask.ClosingServer? { return; }
      var closeBroke := (!owned.server.Absent? && !ok) || (owned.AnyBroker() && !brokersOk);
      closeFailed := if closeBroke then On else closeFailed;
      failed := if failed.On? || closeBroke || (!owned.secretBroker.Absent? && !secretsSettled) then On else Off;
      owned := owned.CloseBrokers();
      shutdownTask := Exited(if failed.On? then 1 else 0);
    }

    /** An await of the prepare or the start task that settles. */
    method Settle(e: Event)
      requires State().Valid() && !State().Dead()
      requires e.AcquireSettles? || e.OwnedSettles? || e.PrepareCatches? || e.OwnedBeforeImport? || e.ImportSettles?
               || e.OwnedAfterImport? || e.BackendStarts? || e.OwnedBeforeReady?
      modifies this
      ensures State() == old(State()).Step(e)
      ensures State().Valid() && Grows(old(State()), State())
    {
      hide Child.Valid, Grows, Child.OnPrepare, Child.OnStart, Child.OnAcquireSettles, Child.OnOwnedSettles, MayFail;
      hide Child.OnPrepareCatches, Child.OnOwnedBeforeImport, Child.OnImportSettles, Child.OnOwnedAfterImport;
      hide Child.OnBackendStarts, Child.OnOwnedBeforeReady, Child.ReportBoundaryFailure, Child.OnReservationLost;
      hide Child.OnShutdownRuns, Child.OnStartupAwaited, Child.OnServerCloseSettles, Child.Shutdown, Child.OnTimer;
      hide Child.OnCommand;
      match e
      case AcquireSettles(ok, alreadyLost) => AcquireSettles(ok, alreadyLost);
      case OwnedSettles(ok, sendOk) => OwnedSettles(ok, sendOk);
      case PrepareCatches(sendOk) => PrepareCatches(sendOk);
      case OwnedBeforeImport(ok, built, closeOk, sendOk) => OwnedBeforeImport(ok, built, closeOk, sendOk);
      case ImportSettles(ok, closeOk, sendOk) => ImportSettles(ok, closeOk, sendOk);
      case OwnedAfterImport(ok, closeOk, sendOk) => OwnedAfterImport(ok, closeOk, sendOk);
      case BackendStarts(ok, snapshotOk, closeOk, sendOk) => BackendStarts(ok, snapshotOk, closeOk, sendOk);
      case OwnedBeforeReady(ok, port, readyOk, closeOk, sendOk) => OwnedBeforeReady(ok, port, readyOk, closeOk, sendOk);
    }

    /** Any event of a live runner; between its own, progress is posted and the process may be killed. */
    method Handle(e: Event)
      requires State().Valid() && !State().Dead()
      modifies this
      ensures State() == old(State()).Step(e)
      ensures State().Valid() && Grows(old(State()), State())
    {
      ghost var c := State();
      OutsideWorldKeepsValid(c);
      hide Child.Valid, Grows, Child.OnPrepare, Child.OnStart, Child.OnAcquireSettles, Child.OnOwnedSettles, MayFail;
      hide Child.OnPrepareCatches, Child.OnOwnedBeforeImport, Child.OnImportSettles, Child.OnOwnedAfterImport;
      hide Child.OnBackendStarts, Child.OnOwnedBeforeReady, Child.ReportBoundaryFailure, Child.OnReservationLost;
      hide Child.OnShutdownRuns, Child.OnStartupAwaited, Child.OnServerCloseSettles, Child.Shutdown, Child.OnTimer;
      hide Child.OnCommand;
      match e
      case Deliver(command, parsed, e2e, threePorts, sendOk) => OnMessage(command, parsed, e2e, threePorts, sendOk);
      case Progresses => Post(Progress, true);
      case TimerFires(sendOk) => OnTimer(sendOk);
      case ReservationLost(sendOk) => OnReservationLost(sendOk);
      case ShutdownRuns => ShutdownRuns();
      case StartupAwaited => StartupAwaited();
      case ServerCloseSettles(ok, secretsSettled, brokersOk) => ServerCloseSettles(ok, secretsSettled, brokersOk);
      case Killed => killed := On;
      case _ => Settle(e);
    }
  }
}
