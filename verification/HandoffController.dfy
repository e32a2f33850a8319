/** The controller across any number of `startBackend` calls: one process handle, one child at a time. */
module HandoffController {
  import opened Common
  import opened HandoffTypes
  import P = HandoffParent
  import S = HandoffSession

  /** A start that got as far as the fork request: the fork threw, or two processes now run. */
  datatype Attempt = ForkThrew(promise: P.StartPromise, invalidated: Flag) | Forked(session: S.Session)

  datatype Controller = Controller(port: int, processHandle: Option<nat>, startCount: nat, attempts: seq<Attempt>) {
    predicate Alive(i: nat) {
      i < |attempts| && attempts[i].Forked? && attempts[i].session.parent.exitSeen.Off?
    }

    predicate IsRunning() { processHandle.Some? }

    /** The handle of attempt `i`, once its start resolved, does not throw from `assertRunning`. */
    predicate AssertRunningPasses(i: nat)
      requires i < |attempts| && attempts[i].Forked?
    {
      var p := attempts[i].session.parent;
      p.ready.On? && p.handoff.Granted? && p.stopping.Off? && processHandle == Some(i) && p.aborted.Off?
    }
  }

  datatype Event =
    | StartBackend(reservation: Option<Descriptor>, secretMatches: bool, forkOk: bool)
    | Within(attempt: nat, step: S.Event)

  function Init(port: int): Controller { Controller(port, None, 0, []) }

  /** A refused call throws before anything is counted. */
  function OnStart(c: Controller, reservation: Option<Descriptor>, secretMatches: bool, forkOk: bool): Controller {
    if c.processHandle.Some? || !secretMatches || reservation.None? then c
    else if !forkOk then
      c.(startCount := c.startCount + 1, attempts := c.attempts + [ForkThrew(P.Rejected, On)])
    else
      c.(startCount := c.startCount + 1, attempts := c.attempts + [Forked(S.Init(reservation.value, c.port))],
         processHandle := Some(|c.attempts|))
  }

  function OnStep(c: Controller, i: nat, e: S.Event): Controller {
    if |c.attempts| <= i || c.attempts[i].ForkThrew? then c
    else
      var before := c.attempts[i].session;
      var after := S.Step(before, e);
      var exits := before.parent.exitSeen.Off? && after.parent.exitSeen.On?;
      c.(attempts := c.attempts[i := Forked(after)], processHandle := if exits then None else c.processHandle)
  }

  function Step(c: Controller, e: Event): Controller {
    match e
    case StartBackend(reservation, secretMatches, forkOk) => OnStart(c, reservation, secretMatches, forkOk)
    case Within(i, step) => OnStep(c, i, step)
  }

  function Run(c: Controller, events: seq<Event>): Controller
    decreases |events|
  {
    if events == [] then c else Run(Step(c, events[0]), events[1..])
  }

  ghost predicate AttemptValid(a: Attempt) {
    match a
    case ForkThrew(promise, invalidated) => promise.Rejected? && invalidated.On?
    case Forked(session) => S.Inv(session)
  }

  ghost predicate Inv(c: Controller) {
    && c.startCount == |c.attempts|
    && (forall i :: 0 <= i < |c.attempts| ==> AttemptValid(c.attempts[i]))
    && (forall i: nat :: c.Alive(i) ==> c.processHandle == Some(i))
    && (c.processHandle.Some? ==> c.processHandle.value == |c.attempts| - 1 && c.Alive(c.processHandle.value))
  }

  lemma StartKeepsInv(c: Controller, reservation: Option<Descriptor>, secretMatches: bool, forkOk: bool)
    requires Inv(c)
    ensures Inv(OnStart(c, reservation, secretMatches, forkOk))
  {
    var d := OnStart(c, reservation, secretMatches, forkOk);
    if d != c {
      forall i: nat | d.Alive(i) ensures d.processHandle == Some(i) {
        assert i < |c.attempts| ==> c.Alive(i);
      }
    }
  }

  lemma WithinKeepsInv(c: Controller, i: nat, e: S.Event)
    requires Inv(c)
    ensures Inv(OnStep(c, i, e))
  {
    hide S.Step, S.Inv;
    if i < |c.attempts| && c.attempts[i].Forked? {
      var d := OnStep(c, i, e);
      assert AttemptValid(c.attempts[i]);
      S.StepKeepsInv(c.attempts[i].session, e);
      forall j: nat | d.Alive(j) ensures d.processHandle == Some(j) {
        assert c.Alive(j);
        assert c.attempts[i].session.parent.exitSeen.Off? ==> c.Alive(i);
      }
    }
  }

  lemma {:induction false} RunKeepsInv(c: Controller, events: seq<Event>)
    requires Inv(c)
    ensures Inv(Run(c, events))
    decreases |events|
  {
    if events != [] {
      var e := events[0];
      if e.StartBackend? {
        StartKeepsInv(c, e.reservation, e.secretMatches, e.forkOk);
      } else {
        WithinKeepsInv(c, e.attempt, e.step);
      }
      RunKeepsInv(Step(c, e), events[1..]);
    }
  }

  /** At most one child has not exited; `isRunning` says whether the latest attempt is that child. */
  lemma OneChildAtATime(port: int, events: seq<Event>)
    ensures var c := Run(Init(port), events);
            && (forall i: nat, j: nat :: c.Alive(i) && c.Alive(j) ==> i == j)
            && (c.IsRunning() <==> 0 < |c.attempts| && c.Alive(|c.attempts| - 1))
            && (forall i: nat :: c.Alive(i) ==> i == |c.attempts| - 1)
            && c.startCount == |c.attempts|
  {
    RunKeepsInv(Init(port), events);
  }

  /** Every attempt whose promise was rejected, fork or no fork, has withdrawn its reservation. */
  lemma UnsuccessfulAttemptsInvalidate(port: int, events: seq<Event>, i: nat)
    requires i < |Run(Init(port), events).attempts|
    ensures match Run(Init(port), events).attempts[i]
            case ForkThrew(promise, invalidated) => promise.Rejected? && invalidated.On?
            case Forked(s) => s.parent.promise.Rejected? ==> s.parent.invalidated.On?
  {
    RunKeepsInv(Init(port), events);
    assert AttemptValid(Run(Init(port), events).attempts[i]);
  }

  /** A call is refused while a child runs or on a bad secret or reservation; otherwise its attempt is the latest, with its own reservation. */
  lemma StartsExactly(c: Controller, reservation: Option<Descriptor>, secretMatches: bool, forkOk: bool)
    requires Inv(c)
    ensures var d := OnStart(c, reservation, secretMatches, forkOk);
            if c.IsRunning() || !secretMatches || reservation == None then d == c
            else
              && |d.attempts| == |c.attempts| + 1 && d.attempts[..|c.attempts|] == c.attempts && d.startCount == c.startCount + 1
              && (d.IsRunning() <==> forkOk) && (forkOk <==> d.Alive(|c.attempts|))
              && (forkOk ==> var p := d.attempts[|c.attempts|].session.parent;
                    p.reservation == reservation.value && p.port == c.port && p.promise.Pending? && p.posted == [])
  {
  }

  /** A handle, once there, passes `assertRunning` exactly while its child has not exited and no stop was asked. */
  lemma AssertRunningIsExact(port: int, events: seq<Event>, i: nat)
    requires i < |Run(Init(port), events).attempts| && Run(Init(port), events).attempts[i].Forked?
    requires Run(Init(port), events).attempts[i].session.parent.promise.Resolved?
    ensures var c := Run(Init(port), events);
            c.AssertRunningPasses(i) <==>
              c.attempts[i].session.parent.exitSeen.Off? && c.attempts[i].session.parent.stopping.Off?
  {
    RunKeepsInv(Init(port), events);
    var c := Run(Init(port), events);
    hide Run;
    assert AttemptValid(c.attempts[i]);
    assert c.Alive(i) <==> c.attempts[i].session.parent.exitSeen.Off?;
  }

  /** Attempt `i` resolved and its handle's `assertRunning` throws. */
  ghost predicate HandleDead(c: Controller, i: nat) {
    && i < |c.attempts| && c.attempts[i].Forked?
    && c.attempts[i].session.parent.promise.Resolved? && !c.AssertRunningPasses(i)
  }

  lemma StepKeepsHandleDead(c: Controller, e: Event, i: nat)
    requires Inv(c) && HandleDead(c, i)
    ensures HandleDead(Step(c, e), i)
  {
    assert AttemptValid(c.attempts[i]);
    var p := c.attempts[i].session.parent;
    assert p.ready.On? && p.settled.On? && p.handoff.Granted? && p.aborted.Off?;
    if c.processHandle != Some(i) { assert !c.Alive(i); }
    if e.Within? && e.attempt == i {
      S.StepKeepsInv(c.attempts[i].session, e.step);
    }
    hide S.Step, S.Inv;
  }

  lemma {:induction false} DeadHandlesStayDead(port: int, before: seq<Event>, after: seq<Event>, i: nat)
    requires HandleDead(Run(Init(port), before), i)
    ensures HandleDead(Run(Run(Init(port), before), after), i)
  {
    RunKeepsInv(Init(port), before);
    RunKeepsHandleDead(Run(Init(port), before), after, i);
  }

  lemma {:induction false} RunKeepsHandleDead(c: Controller, events: seq<Event>, i: nat)
    requires Inv(c) && HandleDead(c, i)
    ensures HandleDead(Run(c, events), i)
    decreases |events|
  {
    if events != [] {
      RunKeepsInv(c, events[..1]);
      assert Run(c, events[..1]) == Step(c, events[0]);
      StepKeepsHandleDead(c, events[0], i);
      RunKeepsHandleDead(Step(c, events[0]), events[1..], i);
    }
  }

  /** The controller's variables across calls.  Each attempt's own variables are in `StartAttempt`. */
  class BackendController {
    const port: int
    var processHandle: Option<nat>
    var startCount: nat
    ghost var attempts: seq<Attempt>

    ghost function State(): Controller
      reads this
    {
      Controller(port, processHandle, startCount, attempts)
    }

    constructor (port: int)
      ensures State() == Init(port)
    {
      this.port := port;
      processHandle, startCount, attempts := None, 0, [];
    }

    /** `child` is what a fork returns; `forked` is false where the call throws or its promise is rejected at once. */
    method StartBackend(reservation: Option<Descriptor>, secretMatches: bool, forkOk: bool, child: nat)
      returns (forked: bool)
      requires child == |attempts|
      modifies this
      ensures State() == Step(old(State()), Event.StartBackend(reservation, secretMatches, forkOk))
      ensures forked <==> old(processHandle) == None && secretMatches && reservation.Some? && forkOk
      ensures forked ==> processHandle == Some(child)
    {
      if processHandle.Some? || !secretMatches || reservation.None? { return false; }
      startCount := startCount + 1;
      if !forkOk {
        attempts := attempts + [ForkThrew(P.Rejected, On)];
        return false;
      }
      processHandle := Some(child);
      attempts := attempts + [Forked(S.Init(reservation.value, port))];
      forked := true;
    }

    /** The exit handler clears the process handle; nothing else of an attempt touches it. */
    method ObserveStep(ghost i: nat, ghost e: S.Event, exits: bool)
      requires i < |attempts| && attempts[i].Forked?
      requires exits <==> attempts[i].session.parent.exitSeen.Off? && S.Step(attempts[i].session, e).parent.exitSeen.On?
      modifies this
      ensures State() == Step(old(State()), Within(i, e))
    {
      hide S.Step;
      attempts := attempts[i := Forked(S.Step(attempts[i].session, e))];
      if exits { processHandle := None; }
    }
  }
}
