/** The closure that one `startBackend` call leaves behind, with its variables updated in place. */
module StartAttempts {
  import opened Common
  import opened HandoffTypes
  import opened HandoffParent

  class StartAttempt {
    const reservation: Descriptor
    const port: int
    var handoff: Handoff
    var ready: Flag
    var settled: Flag
    var stopping: Flag
    var aborted: Flag
    var timerArmed: Flag
    var spawnSeen: Flag
    var exitSeen: Flag
    var prepareTask: Task
    var grantTask: Task
    var invalidated: Flag
    var promise: StartPromise
    var posted: seq<Command>
    ghost var milestones: seq<Milestone>
    ghost var misordered: Flag

    ghost function State(): Parent
      reads this
    {
      Parent(reservation, port, handoff, ready, settled, stopping, aborted, timerArmed, spawnSeen, exitSeen,
             prepareTask, grantTask, invalidated, promise, posted, milestones, misordered)
    }

    constructor (reservation: Descriptor, port: int)
      ensures State() == Init(reservation, port) && State().Valid()
    {
      this.reservation, this.port := reservation, port;
      handoff, promise := Spawn, Pending;
      ready, settled, stopping, aborted, spawnSeen, exitSeen, invalidated := Off, Off, Off, Off, Off, Off, Off;
      timerArmed := On;
      prepareTask, grantTask := Idle, Idle;
      posted, milestones, misordered := [], [], Off;
    }

    method RejectStart()
      modifies this`promise
      ensures State() == old(State()).RejectStart()
    {
      if promise.Pending? { promise := Rejected; }
    }

    method FailStartup()
      modifies this
      ensures State() == old(State()).FailStartup()
      ensures old(State()).Valid() ==> State().Valid() && Moves(old(State()), State())
    {
      ghost var p := State();
      if p.Valid() {
        FailStartupKeepsValid(p);
        FailureMoves(p);
      }
      hide Parent.Valid, Moves;
      if settled.On? { return; }
      settled := On;
      timerArmed := Off;
      aborted := On;
      invalidated := On;
      RejectStart();
    }

    method OnSpawn()
      requires State().Valid()
      modifies this
      ensures State() == old(State()).OnSpawn()
      ensures State().Valid() && Moves(old(State()), State())
    {
      ghost var p := State();
      ProcessKeepsValid(p);
      ProcessMoves(p, true);
      hide Parent.Valid, Moves;
      if spawnSeen.On? { return; }
      spawnSeen := On;
      if settled.On? { return; }
      handoff := Preparing;
      prepareTask := Queued;
    }

    method PrepareBegins()
      requires State().Valid()
      modifies this
      ensures State() == old(State()).OnPrepareBegins()
      ensures State().Valid() && Moves(old(State()), State())
    {
      ghost var p := State();
      PrepareKeepsValid(p, true, true);
      PrepareMoves(p, true, true);
      hide Parent.Valid, Moves;
      if !prepareTask.Queued? { return; }
      if settled.On? { prepareTask := Done; return; }
      prepareTask := Awaiting;
      milestones := milestones + [PrepareCalled];
    }

    method PrepareSettles(ok: bool, sendOk: bool)
      requires State().Valid()
      modifies this
      ensures State() == old(State()).OnPrepareSettles(ok, sendOk)
      ensures State().Valid() && Moves(old(State()), State())
    {
      ghost var p := State();
      PrepareKeepsValid(p, ok, sendOk);
      PrepareMoves(p, ok, sendOk);
      hide Parent.Valid, Moves;
      if !prepareTask.Awaiting? { return; }
      if !ok { prepareTask := Rejecting; return; }
      prepareTask := Done;
      if settled.On? { return; }
      handoff := Reserved;
      if sendOk {
        posted := posted + [Prepare(reservation)];
        milestones := milestones + [PreparePosted];
      } else {
        prepareTask := Rejecting;
      }
    }

    method PrepareCatches()
      requires State().Valid()
      modifies this
      ensures State() == old(State()).OnPrepareCatches()
      ensures State().Valid() && Moves(old(State()), State())
    {
      ghost var p := State();
      FailureKeepsValid(p);
      FailureMoves(p);
      hide Parent.Valid, Moves;
      if !prepareTask.Rejecting? { return; }
      prepareTask := Done;
      FailStartup();
    }

    method GrantBegins()
      requires State().Valid()
      modifies this
      ensures State() == old(State()).OnGrantBegins()
      ensures State().Valid() && Moves(old(State()), State())
    {
      ghost var p := State();
      GrantKeepsValid(p, true, true, true);
      GrantMoves(p, true, true, true);
      hide Parent.Valid, Moves;
      if !grantTask.Queued? { return; }
      if settled.On? { grantTask := Done; return; }
      grantTask := Awaiting;
      milestones := milestones + [GrantCalled];
    }

    method GrantSettles(ok: bool, current: bool, sendOk: bool)
      requires State().Valid()
      modifies this
      ensures State() == old(State()).OnGrantSettles(ok, current, sendOk)
      ensures State().Valid() && Moves(old(State()), State())
    {
      ghost var p := State();
      GrantKeepsValid(p, ok, current, sendOk);
      GrantMoves(p, ok, current, sendOk);
      hide Parent.Valid, Moves;
      if !grantTask.Awaiting? { return; }
      if !ok { grantTask := Rejecting; return; }
      if settled.On? { grantTask := Done; return; }
      if !current { grantTask := Rejecting; return; }
      handoff := Granted;
      milestones := milestones + [GrantConfirmed];
      if !sendOk { grantTask := Rejecting; return; }
      grantTask := Done;
      posted := posted + [Start(reservation.generationId)];
      milestones := milestones + [StartPosted];
    }

    method GrantCatches()
      requires State().Valid()
      modifies this
      ensures State() == old(State()).OnGrantCatches()
      ensures State().Valid() && Moves(old(State()), State())
    {
      ghost var p := State();
      FailureKeepsValid(p);
      FailureMoves(p);
      hide Parent.Valid, Moves;
      if !grantTask.Rejecting? { return; }
      grantTask := Done;
      FailStartup();
    }

    method OnReservationReady(received: Descriptor)
      modifies this
      ensures State() == old(State()).OnReservationReady(received)
      ensures old(State()).Valid() && Plausible(old(State()), Receive(ReservationReady(received))) ==>
                State().Valid() && Moves(old(State()), State())
    {
      ghost var p := State();
      if p.Valid() && Plausible(p, Receive(ReservationReady(received))) {
        MessageKeepsValid(p, ReservationReady(received));
        MessageMoves(p, ReservationReady(received));
      }
      hide Parent.Valid, Moves;
      if settled.On? { return; }
      if handoff != Reserved || received != reservation {
        misordered := On;
        FailStartup();
        return;
      }
      handoff := Authorizing;
      grantTask := Queued;
      milestones := milestones + [ReservationMatched];
    }

    method OnReady(received: int)
      modifies this
      ensures State() == old(State()).OnReady(received)
      ensures old(State()).Valid() && Plausible(old(State()), Receive(Ready(received))) ==>
                State().Valid() && Moves(old(State()), State())
    {
      ghost var p := State();
      if p.Valid() && Plausible(p, Receive(Ready(received))) {
        MessageKeepsValid(p, Ready(received));
        MessageMoves(p, Ready(received));
      }
      hide Parent.Valid, Moves;
      if settled.On? { return; }
      if handoff != Granted {
        misordered := On;
        FailStartup();
        return;
      }
      if received != port { FailStartup(); return; }
      ready := On;
      settled := On;
      timerArmed := Off;
      promise := Resolved;
      milestones := milestones + [ReadyAccepted];
    }

    method OnMessage(status: Status)
      requires State().Valid() && Plausible(State(), Receive(status))
      modifies this
      ensures State() == old(State()).OnMessage(status)
      ensures State().Valid() && Moves(old(State()), State())
    {
      ghost var p := State();
      MessageKeepsValid(p, status);
      MessageMoves(p, status);
      hide Parent.Valid, Moves;
      match status
      case ReservationReady(received) => OnReservationReady(received);
      case Progress =>
      case Failed => FailStartup();
      case Ready(received) => OnReady(received);
    }

    method OnTimer()
      requires State().Valid()
      modifies this
      ensures State() == old(State()).OnTimer()
      ensures State().Valid() && Moves(old(State()), State())
    {
      ghost var p := State();
      FailureKeepsValid(p);
      FailureMoves(p);
      hide Parent.Valid, Moves;
      if timerArmed.On? { FailStartup(); }
    }

    method OnExit()
      requires State().Valid()
      modifies this
      ensures State() == old(State()).OnExit()
      ensures State().Valid() && Moves(old(State()), State())
    {
      ghost var p := State();
      ProcessKeepsValid(p);
      ProcessMoves(p, true);
      hide Parent.Valid, Moves;
      if exitSeen.On? { return; }
      settled := On;
      timerArmed := Off;
      exitSeen := On;
      if ready.Off? {
        aborted := On;
        invalidated := On;
        RejectStart();
        return;
      }
      if stopping.Off? { invalidated := On; }
    }

    method Stop(sendOk: bool)
      requires State().Valid()
      modifies this
      ensures State() == old(State()).OnStop(sendOk)
      ensures State().Valid() && Moves(old(State()), State())
    {
      ghost var p := State();
      StopKeepsValid(p, sendOk);
      ProcessMoves(p, sendOk);
      hide Parent.Valid, Moves;
      if !promise.Resolved? || stopping.On? { return; }
      stopping := On;
      if sendOk { posted := posted + [Shutdown]; } else { invalidated := On; }
    }

    /** A failing wait or reclaim after `stop`. */
    method StopFails()
      requires State().Valid()
      modifies this
      ensures State() == old(State()).OnStopFails()
      ensures State().Valid() && Moves(old(State()), State())
    {
      ghost var p := State();
      StopKeepsValid(p, true);
      ProcessMoves(p, true);
      hide Parent.Valid, Moves;
      if stopping.On? { invalidated := On; }
    }

    /** Any event that may reach the closure. */
    method Handle(e: Event)
      requires State().Valid() && Plausible(State(), e)
      modifies this
      ensures State() == old(State()).Step(e)
      ensures State().Valid() && Moves(old(State()), State())
    {
      hide Parent.Valid, Moves, Parent.OnSpawn, Parent.OnPrepareBegins, Parent.OnPrepareSettles, Parent.OnPrepareCatches;
      hide Parent.OnGrantBegins, Parent.OnGrantSettles, Parent.OnGrantCatches, Parent.OnMessage, Parent.OnTimer;
      hide Parent.OnExit, Parent.OnStop, Parent.OnStopFails;
      match e
      case SpawnEvent => OnSpawn();
      case PrepareBegins => PrepareBegins();
      case PrepareSettles(ok, sendOk) => PrepareSettles(ok, sendOk);
      case PrepareCatches => PrepareCatches();
      case GrantBegins => GrantBegins();
      case GrantSettles(ok, current, sendOk) => GrantSettles(ok, current, sendOk);
      case GrantCatches => GrantCatches();
      case Receive(status) => OnMessage(status);
      case TimerFires => OnTimer();
      case ExitEvent => OnExit();
      case StopCalled(sendOk) => Stop(sendOk);
      case StopFails => StopFails();
    }
  }
}
