/**
 * The acceptance phase loop against one absolute reservation.  Running a phase is an oracle: it takes
 * some time, ends with an exit code, and its process boundary is verified or not.
 */
module AcceptanceCommand {

  datatype Phase = Phase(name: string, timeout: int, cleanup: int)

  /**
   * `lapse` is the time from the clock reading that sizes the phase to the next reading after it;
   * `gap` is the time between the two readings taken when the phase is skipped for lack of time.
   */
  datatype Attempt = Attempt(lapse: nat, gap: nat, exitCode: int, verified: bool)

  datatype What = Planned(index: nat) | PublishFailure

  datatype PhaseRun = PhaseRun(
    what: What, timeout: int, cleanup: int, preparation: int, started: int, ended: int, exitCode: int, verified: bool)

  const INT_LIMIT: int := 0x8000_0000

  predicate FitsInt(x: int) { -INT_LIMIT <= x < INT_LIMIT }

  /** The unchecked conversion of a long, or of an overflowing sum, to a 32-bit int. */
  function ToInt(x: int): (r: int)
    ensures FitsInt(r)
    ensures FitsInt(x) <==> r == x
  {
    if FitsInt(x) then x else (x + INT_LIMIT) % 0x1_0000_0000 - INT_LIMIT
  }

  function Min(a: int, b: int): int { if a <= b then a else b }

  function Max(a: int, b: int): int { if a <= b then b else a }

  function CalculatePhaseTimeout(reservation: int, elapsed: int, exitReserve: int,
                                 phaseTimeout: int, publicationTimeout: int, publishing: bool): int
  {
    var remaining := reservation - elapsed - exitReserve
                     - (if publishing then 0 else ToInt(publicationTimeout + exitReserve));
    ToInt(Min(phaseTimeout, remaining))
  }

  function CalculatePreparationTimeout(phaseTimeout: int, cleanupReserve: int, normalWorkCap: int): int {
    Max(0, Min(normalWorkCap, phaseTimeout - cleanupReserve))
  }

  /** Preparation gets the lesser of its cap and of what its cleanup leaves, but never less than nothing. */
  lemma PreparationExact(phaseTimeout: int, cleanupReserve: int, normalWorkCap: nat)
    ensures var p := CalculatePreparationTimeout(phaseTimeout, cleanupReserve, normalWorkCap);
            && 0 <= p <= normalWorkCap
            && (cleanupReserve < phaseTimeout ==> p <= phaseTimeout - cleanupReserve)
            && (p == normalWorkCap || p == phaseTimeout - cleanupReserve || (p == 0 && phaseTimeout <= cleanupReserve))
            && (phaseTimeout <= cleanupReserve ==> p == 0)
  {
  }

  /** What a phase leaves for the publication after it. */
  function HeldBack(exitReserve: int, publicationTimeout: int, publishing: bool): int {
    if publishing then 0 else publicationTimeout + exitReserve
  }

  /** The latest clock reading, far past the deadline, that the narrowing conversion still gets right. */
  function LastSafeClock(reservation: int, exitReserve: int, held: int): int {
    reservation - exitReserve - held + INT_LIMIT
  }

  /** The budgets are ints, as far as this phase adds them up. */
  predicate IntBudgets(exitReserve: int, phaseTimeout: int, publicationTimeout: int, publishing: bool) {
    FitsInt(phaseTimeout) && (publishing || FitsInt(publicationTimeout + exitReserve))
  }

  /** The timeout is the lesser of the phase's own and what remains if and only if the clock is not too late. */
  lemma PhaseTimeoutExact(reservation: int, elapsed: int, exitReserve: int, phaseTimeout: int,
                          publicationTimeout: int, publishing: bool)
    requires IntBudgets(exitReserve, phaseTimeout, publicationTimeout, publishing)
    ensures var held := HeldBack(exitReserve, publicationTimeout, publishing);
            CalculatePhaseTimeout(reservation, elapsed, exitReserve, phaseTimeout, publicationTimeout, publishing)
              == Min(phaseTimeout, reservation - elapsed - exitReserve - held)
            <==> elapsed <= LastSafeClock(reservation, exitReserve, held)
  {
  }

  /**
   * A phase with its exit reserve ends before the time held back for the publication, or before the
   * deadline if it publishes, if and only if the clock that sized it is not too late: past that
   * reading the wrap always grants too much.
   */
  lemma PhaseFitsExactly(reservation: int, elapsed: int, exitReserve: int, phaseTimeout: int,
                         publicationTimeout: int, publishing: bool)
    requires IntBudgets(exitReserve, phaseTimeout, publicationTimeout, publishing)
    ensures var held := HeldBack(exitReserve, publicationTimeout, publishing);
            elapsed + CalculatePhaseTimeout(reservation, elapsed, exitReserve, phaseTimeout, publicationTimeout, publishing)
              + exitReserve + held <= reservation
            <==> elapsed <= LastSafeClock(reservation, exitReserve, held)
  {
    PhaseTimeoutExact(reservation, elapsed, exitReserve, phaseTimeout, publicationTimeout, publishing);
    ToIntNeverLowers(reservation - elapsed - exitReserve - HeldBack(exitReserve, publicationTimeout, publishing));
  }

  /** Below the ints, the conversion only ever raises a value. */
  lemma ToIntNeverLowers(x: int)
    ensures x < -INT_LIMIT ==> x < ToInt(x)
  {
  }

  /** A clock past 2^32 milliseconds turns an exhausted reservation back into a long timeout. */
  lemma LateClockWraps()
    ensures CalculatePhaseTimeout(1565000, 0x1_0000_0000, 5000, 35000, 35000, true) == 1560000
  {
  }

  predicate IsPublish(p: Phase) { p.name == "publish" }

  /** The plan counts up to its first publish phase: the loop never goes past it. */
  function LoopLength(plan: seq<Phase>): (n: nat)
    ensures n <= |plan|
    ensures forall k :: 0 <= k < n - 1 ==> !IsPublish(plan[k])
    ensures n < |plan| ==> 0 < n && IsPublish(plan[n - 1])
  {
    if plan == [] then 0 else if IsPublish(plan[0]) then 1 else 1 + LoopLength(plan[1..])
  }

  predicate Publishes(plan: seq<Phase>, r: PhaseRun) {
    match r.what
    case PublishFailure => true
    case Planned(i) => i < |plan| && IsPublish(plan[i])
  }

  /** Runs appear in plan order; a failure publication can only come last. */
  predicate InOrder(plan: seq<Phase>, trace: seq<PhaseRun>) {
    && |trace| <= LoopLength(plan) + 1
    && forall k :: 0 <= k < |trace| ==>
         || (trace[k].what == Planned(k) && k < LoopLength(plan))
         || (trace[k].what.PublishFailure? && k == |trace| - 1)
  }

  predicate CleanRun(r: PhaseRun, k: nat) { r.what == Planned(k) && r.verified && r.exitCode == 0 }

  /** What a command must have done to report success. */
  predicate AllClean(plan: seq<Phase>, trace: seq<PhaseRun>) {
    |trace| == LoopLength(plan) && forall k :: 0 <= k < |trace| ==> CleanRun(trace[k], k)
  }

  function GapOf(env: seq<Attempt>, i: nat): nat { if i < |env| then env[i].gap else 0 }

  /** The run, with its bookkeeping, used at most its timeout plus the exit reserve. */
  predicate Kept(r: PhaseRun, env: seq<Attempt>, exitReserve: int) {
    r.ended + (match r.what case Planned(i) => GapOf(env, i + 1) case PublishFailure => 0)
      <= r.started + r.timeout + exitReserve
  }

  /** Budgets as the plans have them: a last phase that publishes, with time for more than its cleanup. */
  predicate SoundPlan(plan: seq<Phase>, deadline: int, exitReserve: int) {
    && plan != [] && LoopLength(plan) == |plan| && IsPublish(plan[|plan| - 1])
    && (forall k :: 0 <= k < |plan| ==> FitsInt(plan[k].timeout) && FitsInt(plan[k].cleanup))
    && 0 <= exitReserve && 0 <= plan[|plan| - 1].cleanup < plan[|plan| - 1].timeout
    && FitsInt(plan[|plan| - 1].timeout + exitReserve) && FitsInt(deadline)
  }

  /** The environment keeps every budget it was given, and the command starts in time. */
  predicate Punctual(plan: seq<Phase>, deadline: int, exitReserve: int, start: int, env: seq<Attempt>, trace: seq<PhaseRun>)
    requires plan != []
  {
    && 0 <= start && start + GapOf(env, 0) <= deadline - exitReserve - plan[|plan| - 1].timeout
    && forall k :: 0 <= k < |trace| ==> Kept(trace[k], env, exitReserve)
  }

  predicate Publication(plan: seq<Phase>, trace: seq<PhaseRun>)
    requires plan != []
  {
    && trace != [] && Publishes(plan, trace[|trace| - 1])
    && trace[|trace| - 1].timeout == plan[|plan| - 1].timeout
    && forall k :: 0 <= k < |trace| - 1 ==> !Publishes(plan, trace[k])
  }

  /** Preparation gets the whole work cap, or else all the time that its cleanup leaves, whichever is less. */
  predicate Sized(r: PhaseRun, workCap: nat) {
    && r.cleanup < r.timeout && 0 <= r.preparation <= workCap && r.preparation <= r.timeout - r.cleanup
    && (r.preparation == workCap || r.preparation == r.timeout - r.cleanup)
  }

  /** Nothing runs after an unverified boundary, and only a clean run of the whole plan succeeds. */
  ghost predicate Safe(plan: seq<Phase>, workCap: nat, code: int, trace: seq<PhaseRun>) {
    && InOrder(plan, trace)
    && (forall k :: 0 <= k < |trace| - 1 ==> trace[k].verified)
    && (forall k :: 0 <= k < |trace| ==> Sized(trace[k], workCap))
    && (code == 0 || code == 1)
    && (code == 0 <==> AllClean(plan, trace))
  }

  /**
   * While the environment keeps its budgets: unless a boundary stayed unverified, exactly one
   * publication runs, last and with its full budget; and the command ends within its reservation.
   */
  ghost predicate Timely(plan: seq<Phase>, deadline: int, exitReserve: int, start: int, env: seq<Attempt>,
                         trace: seq<PhaseRun>, finish: int)
    requires plan != []
  {
    SoundPlan(plan, deadline, exitReserve) && Punctual(plan, deadline, exitReserve, start, env, trace) ==>
      && finish <= deadline
      && ((trace != [] && !trace[|trace| - 1].verified) || Publication(plan, trace))
      && (forall k :: 0 <= k < |trace| && Publishes(plan, trace[k]) ==>
            k == |trace| - 1 && trace[k].timeout == plan[|plan| - 1].timeout)
  }

  /** The clock reading that sizes run `k`. */
  function Started(start: int, trace: seq<PhaseRun>, k: nat): int
    requires k <= |trace|
  {
    if k == 0 then start else trace[k - 1].ended
  }

  function TimeoutOf(plan: seq<Phase>, deadline: int, exitReserve: int, k: nat, clock: int): int
    requires k < |plan|
  {
    CalculatePhaseTimeout(deadline, clock, exitReserve, plan[k].timeout, plan[|plan| - 1].timeout, IsPublish(plan[k]))
  }

  function FailureTimeout(publication: Phase, deadline: int, exitReserve: int, clock: int): int {
    ToInt(Min(publication.timeout, deadline - clock - exitReserve))
  }

  /** Run `k` is sized by the clock at its start, and ends as the environment has it. */
  predicate Measured(plan: seq<Phase>, deadline: int, exitReserve: int, start: int, env: seq<Attempt>,
                     trace: seq<PhaseRun>, k: nat)
    requires k < |trace| && k < |plan| && k < |env|
  {
    && trace[k].started == Started(start, trace, k) && trace[k].ended == trace[k].started + env[k].lapse
    && trace[k].timeout == TimeoutOf(plan, deadline, exitReserve, k, trace[k].started) && trace[k].cleanup == plan[k].cleanup
    && trace[k].exitCode == env[k].exitCode && trace[k].verified == env[k].verified
  }

  ghost predicate AllMeasured(plan: seq<Phase>, deadline: int, exitReserve: int, start: int, env: seq<Attempt>,
                              trace: seq<PhaseRun>)
    requires |env| == |plan|
  {
    forall k :: 0 <= k < |trace| && k < |plan| && trace[k].what == Planned(k) ==>
      Measured(plan, deadline, exitReserve, start, env, trace, k)
  }

  function PlannedRuns(trace: seq<PhaseRun>): nat {
    if trace != [] && trace[|trace| - 1].what.PublishFailure? then |trace| - 1 else |trace|
  }

  /** The phase before run `n` of the plan ended in a way that lets the loop go on. */
  predicate MayGoOn(plan: seq<Phase>, trace: seq<PhaseRun>, n: nat)
    requires n <= |trace| && n <= |plan|
  {
    n == 0 || (trace[n - 1].verified && (trace[n - 1].exitCode == 0 || plan[n - 1].name == "scenario"))
  }

  /**
   * No phase is left out without a cause: the loop ends at its end, at an unverified boundary, at a
   * failure outside the scenario, or for lack of time.  And a failure is published unless the
   * boundary is unverified or its own time is used up.
   */
  ghost predicate StopsForCause(plan: seq<Phase>, deadline: int, exitReserve: int, start: int,
                                trace: seq<PhaseRun>, finish: int)
    requires plan != []
  {
    var n, publication := PlannedRuns(trace), plan[|plan| - 1];
    && n <= LoopLength(plan)
    && (n == LoopLength(plan) || !MayGoOn(plan, trace, n)
        || TimeoutOf(plan, deadline, exitReserve, n, Started(start, trace, n)) <= plan[n].cleanup)
    && (|trace| == n + 1 ==>
          trace[n].timeout == FailureTimeout(publication, deadline, exitReserve, trace[n].started)
          && trace[n].cleanup == publication.cleanup)
    && (|trace| == n < LoopLength(plan) && (n == 0 || trace[n - 1].verified) ==>
          FailureTimeout(publication, deadline, exitReserve, finish) <= publication.cleanup)
    && (n == LoopLength(plan) && IsPublish(plan[n - 1]) ==> |trace| == n)
  }

  /** The failure publication gets the lesser of its own budget and what remains, if its clock is not too late. */
  lemma FailureTimeoutExact(publication: Phase, deadline: int, exitReserve: int, clock: int)
    requires FitsInt(publication.timeout)
    ensures FailureTimeout(publication, deadline, exitReserve, clock) == Min(publication.timeout, deadline - clock - exitReserve)
            <==> clock <= LastSafeClock(deadline, exitReserve, 0)
  {
  }

  /** The failure publication with its exit reserve ends in time if and only if its clock was not too late. */
  lemma FailureFitsExactly(publication: Phase, deadline: int, exitReserve: int, clock: int)
    requires FitsInt(publication.timeout)
    ensures clock + FailureTimeout(publication, deadline, exitReserve, clock) + exitReserve <= deadline
            <==> clock <= LastSafeClock(deadline, exitReserve, 0)
  {
    ToIntNeverLowers(deadline - clock - exitReserve);
  }

  /** The time that run `k` must leave: that of the publication, unless it is one. */
  function HeldAfter(plan: seq<Phase>, exitReserve: int, r: PhaseRun): int
    requires plan != []
  {
    HeldBack(exitReserve, plan[|plan| - 1].timeout, Publishes(plan, r))
  }

  predicate IntPlan(plan: seq<Phase>, exitReserve: int) {
    plan != [] && forall k :: 0 <= k < |plan| ==> IntBudgets(exitReserve, plan[k].timeout, plan[|plan| - 1].timeout, IsPublish(plan[k]))
  }

  /** A run whose timeout was sized to fit the reservation, with what it holds back. */
  predicate SizedToFit(plan: seq<Phase>, deadline: int, exitReserve: int, r: PhaseRun)
    requires plan != []
  {
    r.started + r.timeout + exitReserve + HeldAfter(plan, exitReserve, r) <= deadline
  }

  predicate ClockSafe(plan: seq<Phase>, deadline: int, exitReserve: int, r: PhaseRun)
    requires plan != []
  {
    r.started <= LastSafeClock(deadline, exitReserve, HeldAfter(plan, exitReserve, r))
  }

  lemma PlannedFitsExactly(plan: seq<Phase>, deadline: int, exitReserve: int, r: PhaseRun, k: nat)
    requires IntPlan(plan, exitReserve) && k < |plan| && r.what == Planned(k)
    requires r.timeout == TimeoutOf(plan, deadline, exitReserve, k, r.started)
    ensures SizedToFit(plan, deadline, exitReserve, r) <==> ClockSafe(plan, deadline, exitReserve, r)
  {
    hide CalculatePhaseTimeout, LastSafeClock;
    PhaseFitsExactly(deadline, r.started, exitReserve, plan[k].timeout, plan[|plan| - 1].timeout, IsPublish(plan[k]));
  }

  /**
   * Of every run of the command, whether or not the environment keeps its budgets: its timeout was
   * sized to fit the reservation, with what it holds back, if and only if its clock was not too late.
   * The requirements on the trace are what the phase loop guarantees.
   */
  lemma TraceFitsExactly(plan: seq<Phase>, deadline: int, exitReserve: int, start: int, env: seq<Attempt>,
                         trace: seq<PhaseRun>, finish: int, k: nat)
    requires |env| == |plan| && IntPlan(plan, exitReserve) && k < |trace|
    requires InOrder(plan, trace) && AllMeasured(plan, deadline, exitReserve, start, env, trace)
    requires StopsForCause(plan, deadline, exitReserve, start, trace, finish)
    ensures SizedToFit(plan, deadline, exitReserve, trace[k]) <==> ClockSafe(plan, deadline, exitReserve, trace[k])
  {
    hide TimeoutOf, FailureTimeout, IsPublish, CalculatePreparationTimeout;
    var r := trace[k];
    if r.what.PublishFailure? {
      assert IntBudgets(exitReserve, plan[|plan| - 1].timeout, plan[|plan| - 1].timeout, IsPublish(plan[|plan| - 1]));
      FailureFitsExactly(plan[|plan| - 1], deadline, exitReserve, r.started);
    } else {
      assert Measured(plan, deadline, exitReserve, start, env, trace, k);
      PlannedFitsExactly(plan, deadline, exitReserve, r, k);
      hide SizedToFit, ClockSafe;
    }
  }

  /** The trace while the loop is still going. */
  ghost predicate Going(plan: seq<Phase>, workCap: nat, trace: seq<PhaseRun>) {
    && |trace| <= LoopLength(plan)
    && forall k :: 0 <= k < |trace| ==>
         trace[k].what == Planned(k) && !IsPublish(plan[k]) && trace[k].verified && Sized(trace[k], workCap)
  }

  lemma GoingBeforePublish(plan: seq<Phase>, i: nat)
    requires i < |plan| && forall k :: 0 <= k < i ==> !IsPublish(plan[k])
    ensures i < LoopLength(plan) && (IsPublish(plan[i]) <==> LoopLength(plan) == i + 1 && IsPublish(plan[i]))
  {
  }

  /** A publication left with its full budget before it ends within the reservation, as does any phase. */
  lemma TimeoutFits(plan: seq<Phase>, deadline: int, exitReserve: int, now: int, i: nat)
    requires SoundPlan(plan, deadline, exitReserve) && i < |plan|
    requires 0 <= now <= deadline - exitReserve - plan[|plan| - 1].timeout
    ensures var publication := plan[|plan| - 1].timeout;
            var timeout := CalculatePhaseTimeout(deadline, now, exitReserve, plan[i].timeout, publication, IsPublish(plan[i]));
            && now + timeout + exitReserve <= deadline
            && (!IsPublish(plan[i]) ==> now + timeout + exitReserve <= deadline - exitReserve - publication)
            && (i == |plan| - 1 ==> timeout == publication)
  {
  }

  lemma PunctualPrefix(plan: seq<Phase>, deadline: int, exitReserve: int, start: int, env: seq<Attempt>,
                       trace: seq<PhaseRun>, run: PhaseRun)
    requires plan != [] && Punctual(plan, deadline, exitReserve, start, env, trace + [run])
    ensures Punctual(plan, deadline, exitReserve, start, env, trace) && Kept(run, env, exitReserve)
  {
    assert (trace + [run])[|trace|] == run;
    forall k | 0 <= k < |trace| ensures Kept(trace[k], env, exitReserve) {
      assert (trace + [run])[k] == trace[k];
    }
  }

  /** One of the runs so far ended with a failure. */
  ghost predicate AnyFailed(trace: seq<PhaseRun>) { exists k :: 0 <= k < |trace| && trace[k].exitCode != 0 }

  lemma NoneFailed()
    ensures !AnyFailed([])
  {
  }

  lemma FailedGrows(trace: seq<PhaseRun>, run: PhaseRun)
    ensures AnyFailed(trace + [run]) <==> AnyFailed(trace) || run.exitCode != 0
  {
    var whole := trace + [run];
    assert whole[|trace|] == run && forall k :: 0 <= k < |trace| ==> whole[k] == trace[k];
  }

  /** Ending after run `i` of the plan: its boundary is unverified, or it published. */
  lemma EndsAfterRun(plan: seq<Phase>, workCap: nat, trace: seq<PhaseRun>, run: PhaseRun, failed: bool)
    requires Going(plan, workCap, trace) && |trace| < LoopLength(plan)
    requires run.what == Planned(|trace|) && Sized(run, workCap)
    requires failed <==> AnyFailed(trace)
    requires run.verified ==> |trace| + 1 == LoopLength(plan)
    ensures Safe(plan, workCap, if !run.verified || failed || run.exitCode != 0 then 1 else 0, trace + [run])
  {
    var whole := trace + [run];
    assert whole[|trace|] == run;
    if !failed && run.verified && run.exitCode == 0 {
      forall k | 0 <= k < |whole| ensures CleanRun(whole[k], k) {}
    } else if run.verified && run.exitCode == 0 {
      var k :| 0 <= k < |trace| && trace[k].exitCode != 0;
      assert !CleanRun(whole[k], k);
    } else {
      assert !CleanRun(whole[|trace|], |trace|);
    }
  }

  /** Ending in a failure publication, or in none for lack of time. */
  lemma EndsInFailure(plan: seq<Phase>, workCap: nat, trace: seq<PhaseRun>, whole: seq<PhaseRun>)
    requires Going(plan, workCap, trace)
    requires |trace| < LoopLength(plan) || (trace != [] && trace[|trace| - 1].exitCode != 0)
    requires whole == trace || (|whole| == |trace| + 1 && trace <= whole
                                && whole[|trace|].what.PublishFailure? && Sized(whole[|trace|], workCap))
    ensures Safe(plan, workCap, 1, whole)
  {
    if whole == trace {
      assert |trace| == LoopLength(plan) ==> !CleanRun(whole[|trace| - 1], |trace| - 1);
    } else {
      assert !CleanRun(whole[|trace|], |trace|);
    }
  }

  lemma TimelyAfterRun(plan: seq<Phase>, workCap: nat, deadline: int, exitReserve: int, start: int, env: seq<Attempt>,
                       trace: seq<PhaseRun>, run: PhaseRun)
    requires Going(plan, workCap, trace) && |trace| < LoopLength(plan) && run.what == Planned(|trace|)
    requires SoundPlan(plan, deadline, exitReserve) && Punctual(plan, deadline, exitReserve, start, env, trace) ==>
               0 <= run.started <= deadline - exitReserve - plan[|plan| - 1].timeout
    requires run.timeout == TimeoutOf(plan, deadline, exitReserve, |trace|, run.started)
    requires run.verified ==> IsPublish(plan[|trace|])
    ensures plan != [] && Timely(plan, deadline, exitReserve, start, env, trace + [run], run.ended)
  {
    var whole := trace + [run];
    if SoundPlan(plan, deadline, exitReserve) && Punctual(plan, deadline, exitReserve, start, env, whole) {
      PunctualPrefix(plan, deadline, exitReserve, start, env, trace, run);
      TimeoutFits(plan, deadline, exitReserve, run.started, |trace|);
      assert whole[|whole| - 1] == run;
      forall k | 0 <= k < |trace| ensures !Publishes(plan, whole[k]) {
        assert whole[k] == trace[k];
      }
    }
  }

  lemma TimelyInFailure(plan: seq<Phase>, workCap: nat, deadline: int, exitReserve: int, start: int, env: seq<Attempt>,
                        trace: seq<PhaseRun>, whole: seq<PhaseRun>, clock: int, finish: int)
    requires plan != [] && Going(plan, workCap, trace) && trace <= whole
    requires SoundPlan(plan, deadline, exitReserve) && Punctual(plan, deadline, exitReserve, start, env, trace) ==>
               0 <= clock <= deadline - exitReserve - plan[|plan| - 1].timeout
    requires var timeout := FailureTimeout(plan[|plan| - 1], deadline, exitReserve, clock);
             || (whole == trace && timeout <= plan[|plan| - 1].cleanup)
             || (|whole| == |trace| + 1 && whole[|trace|].what.PublishFailure? && whole[|trace|].timeout == timeout
                 && whole[|trace|].started == clock && whole[|trace|].ended == finish)
    ensures Timely(plan, deadline, exitReserve, start, env, whole, finish)
  {
    if SoundPlan(plan, deadline, exitReserve) && Punctual(plan, deadline, exitReserve, start, env, whole) {
      assert forall k :: 0 <= k < |trace| ==> trace[k] == whole[k];
      assert Punctual(plan, deadline, exitReserve, start, env, trace);
      FullFailureTimeout(plan[|plan| - 1], deadline, exitReserve, clock);
      assert Kept(whole[|trace|], env, exitReserve);
      forall k | 0 <= k < |trace| ensures !Publishes(plan, whole[k]) {}
    }
  }

  lemma StopsAfterRun(plan: seq<Phase>, workCap: nat, deadline: int, exitReserve: int, start: int, trace: seq<PhaseRun>, run: PhaseRun)
    requires Going(plan, workCap, trace) && |trace| < LoopLength(plan) && run.what == Planned(|trace|)
    requires run.verified ==> IsPublish(plan[|trace|])
    ensures plan != [] && StopsForCause(plan, deadline, exitReserve, start, trace + [run], run.ended)
  {
    GoingBeforePublish(plan, |trace|);
    assert (trace + [run])[|trace|] == run;
  }

  lemma StopsInFailure(plan: seq<Phase>, workCap: nat, deadline: int, exitReserve: int, start: int, trace: seq<PhaseRun>,
                       whole: seq<PhaseRun>, clock: int, finish: int)
    requires plan != [] && Going(plan, workCap, trace)
    requires || !MayGoOn(plan, trace, |trace|)
             || (|trace| < LoopLength(plan)
                 && TimeoutOf(plan, deadline, exitReserve, |trace|, Started(start, trace, |trace|)) <= plan[|trace|].cleanup)
    requires var timeout := FailureTimeout(plan[|plan| - 1], deadline, exitReserve, clock);
             || (whole == trace && finish == clock && timeout <= plan[|plan| - 1].cleanup)
             || (|whole| == |trace| + 1 && trace <= whole && whole[|trace|].what.PublishFailure?
                 && whole[|trace|].started == clock && whole[|trace|].timeout == timeout
                 && whole[|trace|].cleanup == plan[|plan| - 1].cleanup)
    ensures StopsForCause(plan, deadline, exitReserve, start, whole, finish)
  {
  }

  lemma MeasuredGrows(plan: seq<Phase>, deadline: int, exitReserve: int, start: int, env: seq<Attempt>,
                      trace: seq<PhaseRun>, whole: seq<PhaseRun>)
    requires |env| == |plan| && AllMeasured(plan, deadline, exitReserve, start, env, trace)
    requires trace <= whole && |whole| <= |trace| + 1
    requires |trace| < |whole| && |trace| < |plan| && whole[|trace|].what == Planned(|trace|) ==>
               Measured(plan, deadline, exitReserve, start, env, whole, |trace|)
    ensures AllMeasured(plan, deadline, exitReserve, start, env, whole)
  {
    hide TimeoutOf;
    forall k | 0 <= k < |trace| && k < |plan| && whole[k].what == Planned(k)
      ensures Measured(plan, deadline, exitReserve, start, env, whole, k)
    {
      assert whole[k] == trace[k] && Measured(plan, deadline, exitReserve, start, env, trace, k);
    }
  }

  lemma NothingMeasured(plan: seq<Phase>, deadline: int, exitReserve: int, start: int, env: seq<Attempt>)
    requires |env| == |plan|
    ensures AllMeasured(plan, deadline, exitReserve, start, env, [])
  {
  }

  lemma UnfoldTimeout(plan: seq<Phase>, deadline: int, exitReserve: int, k: nat, clock: int)
    requires k < |plan|
    ensures TimeoutOf(plan, deadline, exitReserve, k, clock) ==
            CalculatePhaseTimeout(deadline, clock, exitReserve, plan[k].timeout, plan[|plan| - 1].timeout, IsPublish(plan[k]))
  {
  }

  lemma FullFailureTimeout(publication: Phase, deadline: int, exitReserve: int, clock: int)
    requires FitsInt(publication.timeout) && publication.timeout <= deadline - clock - exitReserve
    ensures FailureTimeout(publication, deadline, exitReserve, clock) == publication.timeout
  {
  }

  /** The phase loop. */
  method Run(plan: seq<Phase>, deadline: int, exitReserve: int, workCap: nat, start: int, env: seq<Attempt>, last: Attempt)
    returns (code: int, trace: seq<PhaseRun>, finish: int)
    requires plan != [] && |env| == |plan|
    ensures Safe(plan, workCap, code, trace)
    ensures Timely(plan, deadline, exitReserve, start, env, trace, finish)
    ensures AllMeasured(plan, deadline, exitReserve, start, env, trace)
    ensures StopsForCause(plan, deadline, exitReserve, start, trace, finish)
  {
    hide CalculatePhaseTimeout, TimeoutOf;
    hide Safe, Timely, AllMeasured, StopsForCause, FailureTimeout, AnyFailed;
    assert !AnyFailed([]) by { NoneFailed(); }
    var publication := plan[|plan| - 1];
    var clock := start;
    var failed := false;
    trace := [];
    NothingMeasured(plan, deadline, exitReserve, start, env);
    for i := 0 to |plan|
      invariant |trace| == i && Going(plan, workCap, trace)
      invariant failed <==> AnyFailed(trace)
      invariant start <= clock == Started(start, trace, i)
      invariant AllMeasured(plan, deadline, exitReserve, start, env, trace) && MayGoOn(plan, trace, i)
      invariant SoundPlan(plan, deadline, exitReserve) && Punctual(plan, deadline, exitReserve, start, env, trace) ==>
                  clock + GapOf(env, i) <= deadline - exitReserve - publication.timeout
    {
      var phase := plan[i];
      GoingBeforePublish(plan, i);
      var timeout := CalculatePhaseTimeout(deadline, clock, exitReserve, phase.timeout, publication.timeout,
                                           IsPublish(phase));
      UnfoldTimeout(plan, deadline, exitReserve, i, clock);
      ghost var before := trace;
      if timeout <= phase.cleanup {
        code, trace, finish := PublishAfterFailure(publication, deadline, exitReserve, workCap, last, trace,
                                                   clock + env[i].gap);
        EndsInFailure(plan, workCap, before, trace);
        TimelyInFailure(plan, workCap, deadline, exitReserve, start, env, before, trace, clock + env[i].gap, finish);
        StopsInFailure(plan, workCap, deadline, exitReserve, start, before, trace, clock + env[i].gap, finish);
        MeasuredGrows(plan, deadline, exitReserve, start, env, before, trace);
        return;
      }
      var run := PhaseRun(Planned(i), timeout, phase.cleanup,
                          CalculatePreparationTimeout(timeout, phase.cleanup, workCap),
                          clock, clock + env[i].lapse, env[i].exitCode, env[i].verified);
      trace := trace + [run];
      clock := run.ended;
      MeasuredGrows(plan, deadline, exitReserve, start, env, before, trace);
      if !run.verified {
        EndsAfterRun(plan, workCap, before, run, failed);
        TimelyAfterRun(plan, workCap, deadline, exitReserve, start, env, before, run);
        StopsAfterRun(plan, workCap, deadline, exitReserve, start, before, run);
        return 1, trace, clock;
      }
      ghost var wasFailed := failed;
      failed := failed || run.exitCode != 0;
      if IsPublish(phase) {
        EndsAfterRun(plan, workCap, before, run, wasFailed);
        TimelyAfterRun(plan, workCap, deadline, exitReserve, start, env, before, run);
        StopsAfterRun(plan, workCap, deadline, exitReserve, start, before, run);
        return (if failed then 1 else 0), trace, clock;
      }
      GoingOn(plan, workCap, before, run);
      BudgetRemains(plan, deadline, exitReserve, start, env, before, run);
      if run.exitCode != 0 && phase.name != "scenario" {
        ghost var ran := trace;
        code, trace, finish := PublishAfterFailure(publication, deadline, exitReserve, workCap, last, trace, clock);
        EndsInFailure(plan, workCap, ran, trace);
        TimelyInFailure(plan, workCap, deadline, exitReserve, start, env, ran, trace, clock, finish);
        StopsInFailure(plan, workCap, deadline, exitReserve, start, ran, trace, clock, finish);
        MeasuredGrows(plan, deadline, exitReserve, start, env, ran, trace);
        return;
      }
      FailedGrows(before, run);
    }
    EndsWithoutPublish(plan, workCap, deadline, exitReserve, start, env, trace, failed, clock);
    return (if failed then 1 else 0), trace, clock;
  }

  lemma GoingOn(plan: seq<Phase>, workCap: nat, trace: seq<PhaseRun>, run: PhaseRun)
    requires Going(plan, workCap, trace) && |trace| < LoopLength(plan) && !IsPublish(plan[|trace|])
    requires run.what == Planned(|trace|) && Sized(run, workCap) && run.verified
    ensures Going(plan, workCap, trace + [run])
  {
  }

  /** A run that did not publish leaves the publication its full budget. */
  lemma BudgetRemains(plan: seq<Phase>, deadline: int, exitReserve: int, start: int, env: seq<Attempt>,
                      trace: seq<PhaseRun>, run: PhaseRun)
    requires |trace| < |plan| && run.what == Planned(|trace|) && !IsPublish(plan[|trace|])
    requires SoundPlan(plan, deadline, exitReserve) && Punctual(plan, deadline, exitReserve, start, env, trace) ==>
               0 <= run.started <= deadline - exitReserve - plan[|plan| - 1].timeout
    requires run.timeout == TimeoutOf(plan, deadline, exitReserve, |trace|, run.started)
    ensures SoundPlan(plan, deadline, exitReserve) && Punctual(plan, deadline, exitReserve, start, env, trace + [run]) ==>
              run.ended + GapOf(env, |trace| + 1) <= deadline - exitReserve - plan[|plan| - 1].timeout
  {
    if SoundPlan(plan, deadline, exitReserve) && Punctual(plan, deadline, exitReserve, start, env, trace + [run]) {
      PunctualPrefix(plan, deadline, exitReserve, start, env, trace, run);
      TimeoutFits(plan, deadline, exitReserve, run.started, |trace|);
    }
  }

  /** Running off the end of a plan that never publishes: no sound plan does. */
  lemma EndsWithoutPublish(plan: seq<Phase>, workCap: nat, deadline: int, exitReserve: int, start: int, env: seq<Attempt>,
                           trace: seq<PhaseRun>, failed: bool, clock: int)
    requires plan != [] && Going(plan, workCap, trace) && |trace| == |plan|
    requires failed <==> AnyFailed(trace)
    ensures Safe(plan, workCap, if failed then 1 else 0, trace)
    ensures Timely(plan, deadline, exitReserve, start, env, trace, clock)
    ensures StopsForCause(plan, deadline, exitReserve, start, trace, clock)
  {
    if failed {
      var k :| 0 <= k < |trace| && trace[k].exitCode != 0;
      assert !CleanRun(trace[k], k);
    } else {
      forall k | 0 <= k < |trace| ensures CleanRun(trace[k], k) {}
    }
    assert !IsPublish(plan[|plan| - 1]);
  }

  /** Publish the failure if its remaining budget exceeds its cleanup; the command fails either way. */
  method PublishAfterFailure(publication: Phase, deadline: int, exitReserve: int, workCap: nat, last: Attempt,
                             sofar: seq<PhaseRun>, clock: int)
    returns (code: int, trace: seq<PhaseRun>, finish: int)
    ensures code == 1
    ensures (trace == sofar && finish == clock)
            || (|trace| == |sofar| + 1 && sofar <= trace && trace[|sofar|].what.PublishFailure? && Sized(trace[|sofar|], workCap)
                && trace[|sofar|].started == clock && trace[|sofar|].ended == finish)
    ensures trace == sofar <==> FailureTimeout(publication, deadline, exitReserve, clock) <= publication.cleanup
    ensures trace != sofar ==>
              trace[|sofar|].timeout == FailureTimeout(publication, deadline, exitReserve, clock)
              && trace[|sofar|].cleanup == publication.cleanup
  {
    var timeout := FailureTimeout(publication, deadline, exitReserve, clock);
    code, trace, finish := 1, sofar, clock;
    if publication.cleanup < timeout {
      var run := PhaseRun(PublishFailure, timeout, publication.cleanup,
                          CalculatePreparationTimeout(timeout, publication.cleanup, workCap),
                          clock, clock + last.lapse, last.exitCode, last.verified);
      trace, finish := sofar + [run], run.ended;
    }
  }
}
