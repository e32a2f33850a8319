/** What each event does to a start attempt of the controller: neither more nor less than its causes. */
module ControllerCauses {
  import opened Common
  import opened HandoffTypes
  import opened HandoffParent

  predicate FirstSpawn(p: Parent, e: Event) { e.SpawnEvent? && p.spawnSeen.Off? && p.settled.Off? }

  /** `prepare` comes back well and in time. */
  predicate Prepares(p: Parent, e: Event) { p.prepareTask.Awaiting? && e.PrepareSettles? && e.ok && p.settled.Off? }

  /** The runner's reservation is the one handed over, when it is due. */
  predicate Matches(p: Parent, e: Event) {
    p.settled.Off? && p.handoff.Reserved? && e == Receive(ReservationReady(p.reservation))
  }

  /** `assertGrant` comes back well and in time, and the transfer is still current. */
  predicate Grants(p: Parent, e: Event) {
    p.grantTask.Awaiting? && e.GrantSettles? && e.ok && e.current && p.settled.Off?
  }

  predicate Accepts(p: Parent, e: Event) { p.settled.Off? && p.handoff.Granted? && e == Receive(Ready(p.port)) }

  predicate Fails(p: Parent, e: Event) { p.settled.Off? && Ends(p, e) }

  predicate Stops(p: Parent, e: Event) { e.StopCalled? && p.promise.Resolved? && p.stopping.Off? }

  /** Any reason to withdraw the reservation: the start fails, the child exits unasked, or stopping it goes wrong. */
  predicate Withdraws(p: Parent, e: Event) {
    || Fails(p, e)
    || (e.ExitEvent? && p.exitSeen.Off? && p.stopping.Off?)
    || (Stops(p, e) && !e.sendOk)
    || (e.StopFails? && p.stopping.On?)
  }

  /** The commands an event makes the controller post. */
  function Posts(p: Parent, e: Event): seq<Command> {
    if Prepares(p, e) && e.sendOk then [Prepare(p.reservation)]
    else if Grants(p, e) && e.sendOk then [Start(p.reservation.generationId)]
    else if Stops(p, e) && e.sendOk then [Shutdown]
    else []
  }

  function NextHandoff(p: Parent, e: Event): Handoff {
    if FirstSpawn(p, e) then Preparing
    else if Prepares(p, e) then Reserved
    else if Matches(p, e) then Authorizing
    else if Grants(p, e) then Granted
    else p.handoff
  }

  /** A continuation that begins only while the start is unsettled, and whose failures reach its `catch`. */
  function NextTask(task: Task, begins: bool, settles: bool, throws: bool, catches: bool, settled: bool): Task {
    match task
    case Queued => if begins then (if settled then Done else Awaiting) else task
    case Awaiting => if settles then (if throws then Rejecting else Done) else task
    case Rejecting => if catches then Done else task
    case _ => task
  }

  function NextPrepare(p: Parent, e: Event): Task {
    if FirstSpawn(p, e) then Queued
    else NextTask(p.prepareTask, e.PrepareBegins?, e.PrepareSettles?,
                  e.PrepareSettles? && (!e.ok || (p.settled.Off? && !e.sendOk)), e.PrepareCatches?, p.settled.On?)
  }

  function NextGrant(p: Parent, e: Event): Task {
    if Matches(p, e) then Queued
    else NextTask(p.grantTask, e.GrantBegins?, e.GrantSettles?,
                  e.GrantSettles? && (!e.ok || (p.settled.Off? && (!e.current || !e.sendOk))), e.GrantCatches?, p.settled.On?)
  }

  ghost predicate OutcomeExact(p: Parent, e: Event, q: Parent) {
    && q.promise == (if Accepts(p, e) then Resolved else if Fails(p, e) then Rejected else p.promise)
    && (q.settled.On? <==> p.settled.On? || Accepts(p, e) || Fails(p, e))
    && (q.ready.On? <==> p.ready.On? || Accepts(p, e))
    && (q.timerArmed.On? <==> p.timerArmed.On? && !Accepts(p, e) && !Fails(p, e))
    && (q.aborted.On? <==> p.aborted.On? || Fails(p, e))
    && (q.invalidated.On? <==> p.invalidated.On? || Withdraws(p, e))
    && (q.stopping.On? <==> p.stopping.On? || Stops(p, e))
  }

  ghost predicate ProgressExact(p: Parent, e: Event, q: Parent) {
    && q.posted == p.posted + Posts(p, e)
    && q.handoff == NextHandoff(p, e) && q.prepareTask == NextPrepare(p, e) && q.grantTask == NextGrant(p, e)
    && (q.spawnSeen.On? <==> p.spawnSeen.On? || e.SpawnEvent?)
    && (q.exitSeen.On? <==> p.exitSeen.On? || e.ExitEvent?)
    && q.reservation == p.reservation && q.port == p.port
  }

  ghost predicate Exact(p: Parent, e: Event, q: Parent) { OutcomeExact(p, e, q) && ProgressExact(p, e, q) }

  lemma PrepareIsExact(p: Parent, e: Event)
    requires p.Valid() && (e.PrepareBegins? || e.PrepareSettles? || e.PrepareCatches?)
    ensures Exact(p, e, p.Step(e))
  {
  }

  lemma GrantIsExact(p: Parent, e: Event)
    requires p.Valid() && (e.GrantBegins? || e.GrantSettles? || e.GrantCatches?)
    ensures Exact(p, e, p.Step(e))
  {
  }

  lemma MessageEndsExactly(p: Parent, e: Event)
    requires p.Valid() && e.Receive?
    ensures OutcomeExact(p, e, p.Step(e))
  {
  }

  lemma MessageMovesExactly(p: Parent, e: Event)
    requires p.Valid() && e.Receive?
    ensures ProgressExact(p, e, p.Step(e))
  {
  }

  lemma MessageIsExact(p: Parent, e: Event)
    requires p.Valid() && e.Receive?
    ensures Exact(p, e, p.Step(e))
  {
    hide OutcomeExact, ProgressExact, Parent.Step, Parent.Valid;
    MessageEndsExactly(p, e);
    MessageMovesExactly(p, e);
  }

  lemma ProcessIsExact(p: Parent, e: Event)
    requires p.Valid() && (e.SpawnEvent? || e.ExitEvent? || e.TimerFires?)
    ensures Exact(p, e, p.Step(e))
  {
  }

  lemma StopIsExact(p: Parent, e: Event)
    requires p.Valid() && (e.StopCalled? || e.StopFails?)
    ensures Exact(p, e, p.Step(e))
  {
  }

  /** Whatever the event and the state: the attempt does what the causes say, and nothing else. */
  lemma StepIsExact(p: Parent, e: Event)
    requires p.Valid()
    ensures Exact(p, e, p.Step(e))
  {
    hide Exact, Parent.Step, Parent.Valid;
    match e
    case PrepareBegins => PrepareIsExact(p, e);
    case PrepareSettles(_, _) => PrepareIsExact(p, e);
    case PrepareCatches => PrepareIsExact(p, e);
    case GrantBegins => GrantIsExact(p, e);
    case GrantSettles(_, _, _) => GrantIsExact(p, e);
    case GrantCatches => GrantIsExact(p, e);
    case Receive(_) => MessageIsExact(p, e);
    case SpawnEvent => ProcessIsExact(p, e);
    case ExitEvent => ProcessIsExact(p, e);
    case TimerFires => ProcessIsExact(p, e);
    case StopCalled(_) => StopIsExact(p, e);
    case StopFails => StopIsExact(p, e);
  }
}
