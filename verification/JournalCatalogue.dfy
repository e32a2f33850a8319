/** The phases a first-start journal may name, in short lists. */
module JournalCatalogue {
  import opened Json

  const MIXED_STAGES: seq<string> := [
    "setup", "mixedActiveFixture", "mixedCompatibleFixture", "mixedInvalidFixture",
    "mixedStores", "mixedSnapshotsBefore", "mixedStartup"]

  const MIXED_RUN_STAGES: seq<string> := [
    "mixedRuntimeReadback", "mixedShutdown", "mixedActiveInspection", "mixedCompatibleInspection"]

  const MIXED_END_STAGES: seq<string> := [
    "mixedInvalidInspection", "mixedSnapshotsAfter", "mixedRestart", "mixedComplete"]

  const CURRENT_STAGES: seq<string> := [
    "allCurrentFixtures", "allCurrentStores", "allCurrentSnapshotsBefore", "allCurrentStartup",
    "allCurrentRuntimeReadback"]

  const CURRENT_RUN_STAGES: seq<string> := [
    "allCurrentShutdown", "allCurrentSnapshotsAfter", "allCurrentRestart", "allCurrentComplete", "cleanup"]

  const SLOTS: seq<string> := ["mixedInitial", "mixedRestart", "currentInitial", "currentRestart"]

  const LOAD_EVENTS: seq<string> := [
    "windowObserved", "loadRequested", "loadHeld", "loadStarted", "loadSucceeded",
    "loadRejected", "mainFrameFailed", "shutdownStarted"]

  const CLOSING_EVENTS: seq<string> := [
    "protocolRemoved", "protocolRemovalUnverified", "loadReleased", "loadErrorDialog", "otherErrorDialog",
    "quitRequested", "gateCancelled", "hookReleased"]

  const PROOF_PHASES: seq<string> := [
    "initialShutdownStarted", "initialShutdownCompleted", "proofStarted",
    "proofCompleted", "proofFailed", "proofFinallyStarted"]

  const LIFECYCLE_PHASES: seq<string> := [
    "proofFinallyReturned", "lifecycleShutdownCompleted", "windowCleanupDeferred", "protocolUnregistered"]

  const CLEANUP_PHASES: seq<string> := ["loadExperimentCleanupFailed", "shutdownCleanupFailed"]

  const TRUNCATED: string := "observationsTruncated"

  /** The longest catalogued phase. */
  const MAX_PHASE: nat := 40

  predicate IsStage(p: string) {
    p in MIXED_STAGES || p in MIXED_RUN_STAGES || p in MIXED_END_STAGES || p in CURRENT_STAGES || p in CURRENT_RUN_STAGES
  }

  predicate IsLoadPhase(p: string) {
    exists n :: 0 <= n <= |p| && LoadPhase(p, n)
  }

  /** A slot, a colon, an event. */
  predicate LoadPhase(p: string, n: nat)
    requires n <= |p|
  {
    p[..n] in SLOTS && n < |p| && p[n] == ':' && (p[n + 1..] in LOAD_EVENTS || p[n + 1..] in CLOSING_EVENTS)
  }

  predicate IsPhase(p: string) {
    IsStage(p) || IsLoadPhase(p) || p in PROOF_PHASES || p in LIFECYCLE_PHASES || p in CLEANUP_PHASES
    || p == TRUNCATED
  }

  ghost predicate Short(p: string, n: nat) { AllPlain(p) && |p| <= n }

  lemma MixedStagesAreShort(p: string)
    ensures p in MIXED_STAGES ==> Short(p, 30)
  {
  }

  lemma MixedRunStagesAreShort(p: string)
    ensures p in MIXED_RUN_STAGES ==> Short(p, 30)
  {
  }

  lemma MixedEndStagesAreShort(p: string)
    ensures p in MIXED_END_STAGES ==> Short(p, 30)
  {
  }

  lemma CurrentStagesAreShort(p: string)
    ensures p in CURRENT_STAGES ==> Short(p, 30)
  {
  }

  lemma CurrentRunStagesAreShort(p: string)
    ensures p in CURRENT_RUN_STAGES ==> Short(p, 30)
  {
  }

  lemma SlotsAreShort(p: string)
    ensures p in SLOTS ==> Short(p, 14)
  {
  }

  lemma LoadEventsAreShort(p: string)
    ensures p in LOAD_EVENTS ==> Short(p, 25)
  {
  }

  lemma ClosingEventsAreShort(p: string)
    ensures p in CLOSING_EVENTS ==> Short(p, 25)
  {
  }

  lemma ProofPhasesAreShort(p: string)
    ensures p in PROOF_PHASES ==> Short(p, 30)
  {
  }

  lemma LifecyclePhasesAreShort(p: string)
    ensures p in LIFECYCLE_PHASES ==> Short(p, 30)
  {
  }

  lemma CleanupPhasesAreShort(p: string)
    ensures p in CLEANUP_PHASES ==> Short(p, 30)
  {
  }

  /** Every phase prints as itself, one byte a character, and is at most forty characters long. */
  lemma PhasesAreShort(p: string)
    requires IsPhase(p)
    ensures Short(p, MAX_PHASE)
  {
    hide Short;
    MixedStagesAreShort(p);
    MixedRunStagesAreShort(p);
    MixedEndStagesAreShort(p);
    CurrentStagesAreShort(p);
    CurrentRunStagesAreShort(p);
    ProofPhasesAreShort(p);
    LifecyclePhasesAreShort(p);
    CleanupPhasesAreShort(p);
    if IsLoadPhase(p) {
      var n :| 0 <= n <= |p| && LoadPhase(p, n);
      SlotsAreShort(p[..n]);
      LoadEventsAreShort(p[n + 1..]);
      ClosingEventsAreShort(p[n + 1..]);
      assert p == p[..n] + ":" + p[n + 1..];
      JoinIsShort(p[..n], p[n + 1..]);
    }
    ShortWeakens(p);
  }

  lemma JoinIsShort(a: string, b: string)
    requires Short(a, 14) && Short(b, 25)
    ensures Short(a + ":" + b, MAX_PHASE)
  {
  }

  lemma ShortWeakens(p: string)
    ensures Short(p, 30) ==> Short(p, MAX_PHASE)
    ensures p == TRUNCATED ==> Short(p, MAX_PHASE)
  {
  }
}
