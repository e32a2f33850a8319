# Protocols of the desktop application, its backend and its installer

A Dafny model of small protocols and state machines, each with the guarantees it is there to
give over whole runs. An `await` is a point where any other event may come in; everything between
two awaits is one atomic step. What the code cannot decide itself (whether a `postMessage`, a
`close`, an ownership check or a provider call succeeds, what a clock says, when a timer fires or a
process exits) is an argument of the event, so every theorem holds for all of it.

Code that updates variables step by step appears twice: as a transition function on a value that
holds those variables, of which the run theorems are proved, and as a class whose methods update the
same variables in place and are proved to make exactly that transition, and for the hand-off to keep
its invariants as well. Fields that only record
history, so that a theorem can speak of it, are said to be history where they are declared; no branch
reads them. Beside the invariants, lemmas named `...Exact` say of each transition what it does in terms
of causes that do not name it, both ways, and the `Needs` and `HaveCauses` theorems lift them to
runs. Loops of the original are loops here, proved with invariants against what they are for.

| files | what they model |
|---|---|
| `Common` | an option type and flags, shared |
| `HandoffParent`, `HandoffChild`, `HandoffSystem`, `HandoffController`; `StartAttempt`, `Runner` | the hand-off between the controller and the backend runner over two FIFO channels, for one start and for any number of starts |
| `ControllerCauses`, `RunnerCauses`, `HandoffHistory` | what each event does to either side, told by its causes, and what a run shows, told from its events |
| `SecretAdmission`, `ServerShutdown` | admission and draining of secret operations, and the HTTP server's close sequence around it |
| `AcceptanceCommand` | the phase loop against one absolute reservation, with its 32-bit arithmetic |
| `ExceptionProjection` | the bounded walk over an arbitrary, possibly cyclic, error graph |
| `Json`, `JournalCatalogue`, `JournalFormat`, `Journal`, `JournalWriter`, `JournalStory` | the first-start journal: writer, strict parser, recovery of any prefix of the file, and the file told from the calls alone |
| `ReplyRelay`, `RelayStory` | the relay that may hold back one acknowledgement, and which one, told from the events |
| `ReservationScopes`, `ScopeStory` | the reservation scopes of the first-start proof and their clean-up, and what becomes of each call |
| `ApplicationListReader` | the budgeted reading of a list through a provider |
| `LoadGate` | the gate around the native window load |

Two results qualify what the code might be expected to do. `CalculatePhaseTimeout` converts to a
32-bit int without a check: `LateClockWraps` gives a clock at which a spent reservation turns into
a long timeout, and `TraceFitsExactly` says that every run of the command is sized to fit its
reservation exactly up to a certain clock reading, far past the deadline. And the list reader cannot
tell a list that uses up one of its caps from a longer one: `FullListReadsAsCut` is such a list, and
`VerdictIsExact` says exactly which lists are reported as whole.

## Model

| member | source | states |
|---|---|---|
| `HandoffSession.ResolvesOnlyAfterFullHandshake` | eky_software/apps/desktop/e2e/electronE2eBackendProcess.ts:124-203 | In every interleaving of both processes, the start promise is resolved if and only if the seven milestones (prepare called and posted, reservation matched, grant called and confirmed, `start` posted, `ready` accepted) have each been passed once, in that order; the runner has then really reported its reservation and readiness after its import |
| `HandoffSession.ImportOnlyAfterGrant` | eky_software/apps/desktop/e2e/electronE2eBackendRunner.ts:128-171 | The writing import starts only in a runner that was prepared with this reservation and took a `start` that the controller posted after its grant was confirmed |
| `HandoffSession.PeersNeverMisorder` | eky_software/apps/desktop/e2e/electronE2eBackendProcess.ts:138-183 | Neither side ever refuses a message of the other as out of order, while startup is unsettled or later |
| `HandoffSession.CancelledRunnerStaysQuiet` | eky_software/apps/desktop/e2e/electronE2eBackendRunner.ts:256-270 | Cancelled before the import, the import never starts; once cancelled, `ready` is never posted |
| `HandoffSession.ExitLeaksNothing` | eky_software/apps/desktop/e2e/electronE2eBackendRunner.ts:239-268 | At `process.exit` every server and broker ever created has had a close attempt; code 0 means that no close failed and no `failed` was posted; `ready` never follows `failed` |
| `HandoffSession.NoStartAfterSettlement` | eky_software/apps/desktop/e2e/electronE2eBackendProcess.ts:107-155 | A settled promise keeps its outcome, and from then on nothing but `shutdown` is posted |
| `HandoffSession.RejectedStartIsInvalidated` | eky_software/apps/desktop/e2e/electronE2eBackendProcess.ts:107-296 | A rejected start has aborted and invalidated its reservation, an unsettled one still has its timer, and an unexpected exit invalidates |
| `HandoffSession.FullStartHappens` | eky_software/apps/desktop/e2e/electronE2eBackendProcess.ts:124-203 | The guarded path is not empty: when every oracle answers well, a run of both processes resolves the start |
| `HandoffHistory.ImportNeedsOwnership` | eky_software/apps/desktop/e2e/electronE2eBackendRunner.ts:143-171 | The writing import starts if and only if, somewhere in the run, the ownership check before it came back well, both brokers were made, and the runner was neither cancelled nor without its reservation |
| `HandoffHistory.ReservationNeedsOwnership` | eky_software/apps/desktop/e2e/electronE2eBackendRunner.ts:113-121 | The same of `reservationReady` and the ownership check after the acquisition |
| `HandoffHistory.BackendNeedsOwnership` | eky_software/apps/desktop/e2e/electronE2eBackendRunner.ts:187-219 | The backend is started only after the ownership check that follows the import came back well in a current runner; the server is there if and only if that start returned it |
| `HandoffHistory.ReadyNeedsOwnership` | eky_software/apps/desktop/e2e/electronE2eBackendRunner.ts:235-238 | `ready` is posted if and only if the last ownership check came back well in a current runner and the post went out |
| `HandoffHistory.ExitCodeIsExact` | eky_software/apps/desktop/e2e/electronE2eBackendRunner.ts:239-267 | The runner that exits does so with code 0 if and only if the whole run held no refused command, failed or cancelled stage, time-out, lost reservation, unsettled secret or failed close |
| `HandoffHistory.OutcomesHaveCauses` | eky_software/apps/desktop/e2e/electronE2eBackendProcess.ts:107-296 | The start is resolved, is rejected, and has its reservation withdrawn, each if and only if an event of the run caused it |
| `HandoffHistory.CommandsHaveCauses` | eky_software/apps/desktop/e2e/electronE2eBackendProcess.ts:128-249 | `prepare`, `start` and `shutdown` are each posted if and only if their own oracle, in time, and the send went well in the run |
| `HandoffSession.StepKeepsInv` | eky_software/apps/desktop/e2e/electronE2eBackendProcess.ts:124-311 | Every step of either process or either channel keeps the invariant that what one side has learnt, the other side did |
| `HandoffSession.RunKeepsInv` | eky_software/apps/desktop/e2e/electronE2eBackendProcess.ts:124-311 | The invariant over whole runs, with all that only grows |
| `HandoffSession.CommandKeepsInv` | eky_software/apps/desktop/e2e/electronE2eBackendRunner.ts:100-133 | A command delivered over the FIFO channel arrives in the order the runner expects |
| `HandoffSession.StatusKeepsInv` | eky_software/apps/desktop/e2e/electronE2eBackendProcess.ts:136-203 | A status delivered over the FIFO channel finds the controller waiting for it, or settled |
| `HandoffParent.StepKeepsValid` | eky_software/apps/desktop/e2e/electronE2eBackendProcess.ts:107-311 | Each handler keeps the handshake on the one path and keeps exactly one settlement, with what it leaves behind |
| `HandoffParent.MessageKeepsValid` | eky_software/apps/desktop/e2e/electronE2eBackendProcess.ts:136-203 | The same for each status that the runner could have sent by then |
| `HandoffParent.PrepareKeepsValid` | eky_software/apps/desktop/e2e/electronE2eBackendProcess.ts:124-135 | The same around the await of `prepare`, at which a settlement may have intervened |
| `HandoffParent.GrantKeepsValid` | eky_software/apps/desktop/e2e/electronE2eBackendProcess.ts:144-155 | The same around the await of `assertGrant`, with a failed `assertCurrent` or send |
| `HandoffParent.StopKeepsValid` | eky_software/apps/desktop/e2e/electronE2eBackendProcess.ts:231-259 | The same for `stop`, which is posted once and only by a resolved handle |
| `HandoffParent.StepMoves` | eky_software/apps/desktop/e2e/electronE2eBackendProcess.ts:107-311 | No step takes back a post, a milestone or a settlement |
| `ControllerCauses.StepIsExact` | eky_software/apps/desktop/e2e/electronE2eBackendProcess.ts:107-311 | Of any event at any valid state: outcome, withdrawal, commands posted, the stage of the hand-off and of both continuations change exactly as the causes say, which are told without the handlers |
| `HandoffParent.StepCauses` | eky_software/apps/desktop/e2e/electronE2eBackendProcess.ts:136-157 | Only a message can be refused as out of order, only the exit event is an exit |
| `HandoffParent.OnlyReadyResolves` | eky_software/apps/desktop/e2e/electronE2eBackendProcess.ts:180-203 | Only `ready` with the configured port, in state granted and unsettled, resolves |
| `HandoffSession.FailuresReject` | eky_software/apps/desktop/e2e/electronE2eBackendProcess.ts:107-189 | In any run, whatever ends an unsettled start (the timer, an exit, a continuation that threw, `failed`, any status not to be accepted) rejects it and withdraws its reservation for good, whatever comes after |
| `HandoffParent.EndingRejects` | eky_software/apps/desktop/e2e/electronE2eBackendProcess.ts:107-189 | One step of that |
| `HandoffSession.OracleFailuresDoom` | eky_software/apps/desktop/e2e/electronE2eBackendProcess.ts:128-155 | In any run, a prepare or grant that fails, is out of date or cannot be posted dooms its start: in no continuation does it resolve, and once settled it is rejected and withdrawn |
| `HandoffParent.DoomLasts` | eky_software/apps/desktop/e2e/electronE2eBackendProcess.ts:107-311 | No event, and no status the runner can have sent by then, rescues a doomed start |
| `HandoffChild.StepKeepsValid` | eky_software/apps/desktop/e2e/electronE2eBackendRunner.ts:84-270 | Each stretch of the runner between awaits keeps its invariants on tasks, resources and statuses; a cancelled runner never begins the import or posts `ready` |
| `RunnerCauses.StepIsExact` | eky_software/apps/desktop/e2e/electronE2eBackendRunner.ts:84-267 | Of any event at any valid state: both tasks, what is held, failure, cancellation, exit code and the statuses posted change exactly as the causes say, which are told without the handlers |
| `RunnerCauses.ResourcesAreExact` | eky_software/apps/desktop/e2e/electronE2eBackendRunner.ts:157-265 | Each broker and the server is created by its own step, and a close is attempted on it by its own |
| `RunnerCauses.StagesAreExact` | eky_software/apps/desktop/e2e/electronE2eBackendRunner.ts:80-261 | So do the timer, the invalidation listener, the prepare task and the shutdown task |
| `HandoffChild.RefuseKeepsValid` | eky_software/apps/desktop/e2e/electronE2eBackendRunner.ts:90-98 | Reporting a boundary failure keeps them |
| `HandoffChild.FailStartKeepsValid` | eky_software/apps/desktop/e2e/electronE2eBackendRunner.ts:239-252 | The start task that fails, wherever it stands, closes the brokers it built and keeps them |
| `HandoffChild.PrepareKeepsValid` | eky_software/apps/desktop/e2e/electronE2eBackendRunner.ts:106-127 | `prepare` keeps them, and is refused as out of order only the second time |
| `HandoffChild.StartKeepsValid` | eky_software/apps/desktop/e2e/electronE2eBackendRunner.ts:128-142 | `start` keeps them, and is refused as out of order only without a matching ready reservation |
| `HandoffChild.OwnedBeforeImportKeepsValid` | eky_software/apps/desktop/e2e/electronE2eBackendRunner.ts:143-171 | The step that sets `writingImportStarted` keeps them; the import starts only in a current runner |
| `HandoffChild.BackendStartsKeepsValid` | eky_software/apps/desktop/e2e/electronE2eBackendRunner.ts:193-232 | Keeps them also when the server starts in a runner that is no longer current: it has then failed, and the server counts as one to close before the exit |
| `HandoffChild.ReadyKeepsValid` | eky_software/apps/desktop/e2e/electronE2eBackendRunner.ts:235-238 | Keeps them: `ready` is posted at most once, never after `failed` and never by a cancelled runner |
| `HandoffChild.ExitKeepsValid` | eky_software/apps/desktop/e2e/electronE2eBackendRunner.ts:261-267 | Keeps them: the exit comes after a close attempt on everything created, and code 0 only without a failure |
| `HandoffChild.CommandEffects` | eky_software/apps/desktop/e2e/electronE2eBackendRunner.ts:100-133 | What one command can change, and that one in its turn is not out of order |
| `HandoffChild.DeadStaysDead` | eky_software/apps/desktop/e2e/electronE2eBackendRunner.ts:267-267 | Nothing happens in a runner that has exited or been killed |
| `HandoffChild.CancelledExits` | eky_software/apps/desktop/e2e/electronE2eBackendRunner.ts:256-270 | No cancelled state is stuck: however the await in hand settles, and however the server and brokers close, the runner shuts down and exits |
| `HandoffChild.SettlingEndsStart` | eky_software/apps/desktop/e2e/electronE2eBackendRunner.ts:143-252 | However the await in hand settles, well or badly, a cancelled start task ends with it |
| `StartAttempts.StartAttempt.OnSpawn` | eky_software/apps/desktop/e2e/electronE2eBackendProcess.ts:124-129 | In place on the closure variables, the spawn handler makes exactly the transition of the state machine, keeps the handshake on its one path with one settlement, and takes back no post, milestone or outcome |
| `StartAttempts.StartAttempt.PrepareBegins` | eky_software/apps/desktop/e2e/electronE2eBackendProcess.ts:128-130 | In place on the closure variables, the continuation up to `prepare` makes exactly the transition of the state machine, keeps the handshake on its one path with one settlement, and takes back no post, milestone or outcome |
| `StartAttempts.StartAttempt.PrepareSettles` | eky_software/apps/desktop/e2e/electronE2eBackendProcess.ts:130-133 | In place on the closure variables, what follows `prepare` makes exactly the transition of the state machine, keeps the handshake on its one path with one settlement, and takes back no post, milestone or outcome |
| `StartAttempts.StartAttempt.PrepareCatches` | eky_software/apps/desktop/e2e/electronE2eBackendProcess.ts:134-134 | In place on the closure variables, its catch makes exactly the transition of the state machine, keeps the handshake on its one path with one settlement, and takes back no post, milestone or outcome |
| `StartAttempts.StartAttempt.GrantBegins` | eky_software/apps/desktop/e2e/electronE2eBackendProcess.ts:144-146 | In place on the closure variables, the continuation up to `assertGrant` makes exactly the transition of the state machine, keeps the handshake on its one path with one settlement, and takes back no post, milestone or outcome |
| `StartAttempts.StartAttempt.GrantSettles` | eky_software/apps/desktop/e2e/electronE2eBackendProcess.ts:146-154 | In place on the closure variables, what follows `assertGrant` makes exactly the transition of the state machine, keeps the handshake on its one path with one settlement, and takes back no post, milestone or outcome |
| `StartAttempts.StartAttempt.GrantCatches` | eky_software/apps/desktop/e2e/electronE2eBackendProcess.ts:155-155 | In place on the closure variables, its catch makes exactly the transition of the state machine, keeps the handshake on its one path with one settlement, and takes back no post, milestone or outcome |
| `StartAttempts.StartAttempt.OnMessage` | eky_software/apps/desktop/e2e/electronE2eBackendProcess.ts:136-203 | In place on the closure variables, the message handler makes exactly the transition of the state machine, keeps the handshake on its one path with one settlement, and takes back no post, milestone or outcome |
| `StartAttempts.StartAttempt.OnReservationReady` | eky_software/apps/desktop/e2e/electronE2eBackendProcess.ts:138-156 | In place on the closure variables, the branch for `reservationReady` makes exactly the transition of the state machine, keeps the handshake on its one path with one settlement, and takes back no post, milestone or outcome |
| `StartAttempts.StartAttempt.OnReady` | eky_software/apps/desktop/e2e/electronE2eBackendProcess.ts:180-203 | In place on the closure variables, the branch for `ready` makes exactly the transition of the state machine, keeps the handshake on its one path with one settlement, and takes back no post, milestone or outcome |
| `StartAttempts.StartAttempt.FailStartup` | eky_software/apps/desktop/e2e/electronE2eBackendProcess.ts:107-115 | In place on the closure variables, `failStartup` makes exactly the transition of the state machine, keeps the handshake on its one path with one settlement, and takes back no post, milestone or outcome |
| `StartAttempts.StartAttempt.OnTimer` | eky_software/apps/desktop/e2e/electronE2eBackendProcess.ts:116-121 | In place on the closure variables, the readiness timer makes exactly the transition of the state machine, keeps the handshake on its one path with one settlement, and takes back no post, milestone or outcome |
| `StartAttempts.StartAttempt.OnExit` | eky_software/apps/desktop/e2e/electronE2eBackendProcess.ts:281-311 | In place on the closure variables, the exit handler makes exactly the transition of the state machine, keeps the handshake on its one path with one settlement, and takes back no post, milestone or outcome |
| `StartAttempts.StartAttempt.Stop` | eky_software/apps/desktop/e2e/electronE2eBackendProcess.ts:231-249 | In place on the closure variables, `stopBackend` up to its await makes exactly the transition of the state machine, keeps the handshake on its one path with one settlement, and takes back no post, milestone or outcome |
| `StartAttempts.StartAttempt.StopFails` | eky_software/apps/desktop/e2e/electronE2eBackendProcess.ts:250-258 | In place on the closure variables, its failure after that makes exactly the transition of the state machine, keeps the handshake on its one path with one settlement, and takes back no post, milestone or outcome |
| `StartAttempts.StartAttempt.Handle` | eky_software/apps/desktop/e2e/electronE2eBackendProcess.ts:107-311 | In place on the closure variables, any event makes exactly the transition of the state machine, keeps the handshake on its one path with one settlement, and takes back no post, milestone or outcome |
| `Runners.Runner.OnPrepare` | eky_software/apps/desktop/e2e/electronE2eBackendRunner.ts:106-112 | In place on the module variables, `prepare` makes exactly the transition of the state machine, keeps the invariants on tasks, resources and statuses, and never wakes a cancelled runner |
| `Runners.Runner.OnStart` | eky_software/apps/desktop/e2e/electronE2eBackendRunner.ts:128-142 | In place on the module variables, `start` up to its first await makes exactly the transition of the state machine, keeps the invariants on tasks, resources and statuses, and never wakes a cancelled runner |
| `Runners.Runner.OnMessage` | eky_software/apps/desktop/e2e/electronE2eBackendRunner.ts:100-133 | In place on the module variables, the message handler makes exactly the transition of the state machine, keeps the invariants on tasks, resources and statuses, and never wakes a cancelled runner |
| `Runners.Runner.AcquireSettles` | eky_software/apps/desktop/e2e/electronE2eBackendRunner.ts:113-119 | In place on the module variables, what follows the acquisition makes exactly the transition of the state machine, keeps the invariants on tasks, resources and statuses, and never wakes a cancelled runner |
| `Runners.Runner.OwnedSettles` | eky_software/apps/desktop/e2e/electronE2eBackendRunner.ts:119-122 | In place on the module variables, what follows the ownership check makes exactly the transition of the state machine, keeps the invariants on tasks, resources and statuses, and never wakes a cancelled runner |
| `Runners.Runner.PrepareCatches` | eky_software/apps/desktop/e2e/electronE2eBackendRunner.ts:123-125 | In place on the module variables, the catch of the prepare task makes exactly the transition of the state machine, keeps the invariants on tasks, resources and statuses, and never wakes a cancelled runner |
| `Runners.Runner.OwnedBeforeImport` | eky_software/apps/desktop/e2e/electronE2eBackendRunner.ts:143-172 | In place on the module variables, the brokers and the start of the import makes exactly the transition of the state machine, keeps the invariants on tasks, resources and statuses, and never wakes a cancelled runner |
| `Runners.Runner.ImportSettles` | eky_software/apps/desktop/e2e/electronE2eBackendRunner.ts:172-188 | In place on the module variables, what follows the import makes exactly the transition of the state machine, keeps the invariants on tasks, resources and statuses, and never wakes a cancelled runner |
| `Runners.Runner.OwnedAfterImport` | eky_software/apps/desktop/e2e/electronE2eBackendRunner.ts:188-193 | In place on the module variables, the start of the backend makes exactly the transition of the state machine, keeps the invariants on tasks, resources and statuses, and never wakes a cancelled runner |
| `Runners.Runner.BackendStarts` | eky_software/apps/desktop/e2e/electronE2eBackendRunner.ts:193-235 | In place on the module variables, what follows it makes exactly the transition of the state machine, keeps the invariants on tasks, resources and statuses, and never wakes a cancelled runner |
| `Runners.Runner.OwnedBeforeReady` | eky_software/apps/desktop/e2e/electronE2eBackendRunner.ts:235-238 | In place on the module variables, the `ready` post makes exactly the transition of the state machine, keeps the invariants on tasks, resources and statuses, and never wakes a cancelled runner |
| `Runners.Runner.FailStart` | eky_software/apps/desktop/e2e/electronE2eBackendRunner.ts:239-252 | In place on the module variables, the catch of the start task makes exactly the transition of the state machine, keeps the invariants on tasks, resources and statuses, and never wakes a cancelled runner |
| `Runners.Runner.ReportBoundaryFailure` | eky_software/apps/desktop/e2e/electronE2eBackendRunner.ts:90-98 | In place on the module variables, `reportBoundaryFailure` makes exactly the transition of the state machine, keeps the invariants on tasks, resources and statuses, and never wakes a cancelled runner |
| `Runners.Runner.Shutdown` | eky_software/apps/desktop/e2e/electronE2eBackendRunner.ts:256-259 | In place on the module variables, `shutdown`, whose task is queued once makes exactly the transition of the state machine, keeps the invariants on tasks, resources and statuses, and never wakes a cancelled runner |
| `Runners.Runner.OnTimer` | eky_software/apps/desktop/e2e/electronE2eBackendRunner.ts:80-82 | In place on the module variables, the readiness timer makes exactly the transition of the state machine, keeps the invariants on tasks, resources and statuses, and never wakes a cancelled runner |
| `Runners.Runner.OnReservationLost` | eky_software/apps/desktop/e2e/electronE2eBackendRunner.ts:118-118 | In place on the module variables, the invalidation listener makes exactly the transition of the state machine, keeps the invariants on tasks, resources and statuses, and never wakes a cancelled runner |
| `Runners.Runner.ShutdownRuns` | eky_software/apps/desktop/e2e/electronE2eBackendRunner.ts:259-261 | In place on the module variables, the shutdown task up to its first await makes exactly the transition of the state machine, keeps the invariants on tasks, resources and statuses, and never wakes a cancelled runner |
| `Runners.Runner.StartupAwaited` | eky_software/apps/desktop/e2e/electronE2eBackendRunner.ts:260-261 | In place on the module variables, the server close after the startup task makes exactly the transition of the state machine, keeps the invariants on tasks, resources and statuses, and never wakes a cancelled runner |
| `Runners.Runner.ServerCloseSettles` | eky_software/apps/desktop/e2e/electronE2eBackendRunner.ts:261-267 | In place on the module variables, the broker closes and the exit makes exactly the transition of the state machine, keeps the invariants on tasks, resources and statuses, and never wakes a cancelled runner |
| `Runners.Runner.Handle` | eky_software/apps/desktop/e2e/electronE2eBackendRunner.ts:80-268 | In place on the module variables, any event makes exactly the transition of the state machine, keeps the invariants on tasks, resources and statuses, and never wakes a cancelled runner |
| `Runners.Runner.Settle` | eky_software/apps/desktop/e2e/electronE2eBackendRunner.ts:113-238 | In place on the module variables, the settling of any await of the two tasks makes exactly the transition of the state machine, keeps the invariants on tasks, resources and statuses, and never wakes a cancelled runner |
| `HandoffController.OneChildAtATime` | eky_software/apps/desktop/e2e/electronE2eBackendProcess.ts:67-99 | Over any number of starts at most one child has not exited, it is the latest, and `isRunning` says whether there is one |
| `HandoffController.UnsuccessfulAttemptsInvalidate` | eky_software/apps/desktop/e2e/electronE2eBackendProcess.ts:89-115 | Every rejected attempt, with a fork or without one, has invalidated its reservation |
| `HandoffController.DeadHandlesStayDead` | eky_software/apps/desktop/e2e/electronE2eBackendProcess.ts:203-209 | Once `assertRunning` of a handle throws, it throws for ever, whatever later starts do |
| `HandoffController.AssertRunningIsExact` | eky_software/apps/desktop/e2e/electronE2eBackendProcess.ts:203-209 | In every run, a handle passes `assertRunning` if and only if its child has not exited and no stop was asked |
| `HandoffController.StartsExactly` | eky_software/apps/desktop/e2e/electronE2eBackendProcess.ts:67-104 | A call is refused while a child runs or on a bad secret or reservation; otherwise its attempt is the latest, counted once, with its own reservation |
| `HandoffController.RunKeepsInv` | eky_software/apps/desktop/e2e/electronE2eBackendProcess.ts:67-104 | Whole runs with any number of starts and of steps within them keep all attempts valid and the process handle right |
| `HandoffController.StartKeepsInv` | eky_software/apps/desktop/e2e/electronE2eBackendProcess.ts:67-104 | A start, refused, failing to fork or forking, keeps them |
| `HandoffController.WithinKeepsInv` | eky_software/apps/desktop/e2e/electronE2eBackendProcess.ts:281-284 | A step within any attempt, its exit included, keeps them |
| `HandoffController.BackendController.StartBackend` | eky_software/apps/desktop/e2e/electronE2eBackendProcess.ts:67-99 | In place, a call is refused while a child runs or on a bad secret or reservation, and otherwise counts and forks |
| `HandoffController.BackendController.ObserveStep` | eky_software/apps/desktop/e2e/electronE2eBackendProcess.ts:281-284 | In place, only an exit clears the process handle |
| `SecretAdmission.AdmissionIsSound` | eky_software/apps/backend/src/composition/companySettingsComposition.ts:53-100 | In every interleaving the counter is the number of operations admitted and unfinished, uncertain implies sealed, and the adapter seal ran once if sealed and never otherwise |
| `SecretAdmission.RunKeepsValid` | eky_software/apps/backend/src/composition/companySettingsComposition.ts:53-100 | The same from any valid state on |
| `SecretAdmission.StepKeepsValid` | eky_software/apps/backend/src/composition/companySettingsComposition.ts:57-100 | One step of that |
| `SecretAdmission.UncertainIffCaused` | eky_software/apps/backend/src/composition/companySettingsComposition.ts:86-95 | The flag is set if and only if the history holds an unknown-effect failure of an admitted operation, a throwing seal at settlement, or a settlement with work in flight |
| `SecretAdmission.StepDoubtsIffCaused` | eky_software/apps/backend/src/composition/companySettingsComposition.ts:86-95 | One step of that, both ways |
| `SecretAdmission.SettlementDecides` | eky_software/apps/backend/src/composition/companySettingsComposition.ts:179-187 | The answer of one settlement assertion is the answer of every later one; after a success nothing is in flight and nothing is admitted again |
| `SecretAdmission.ProviderReadIsHonest` | eky_software/apps/backend/src/composition/companySettingsComposition.ts:80-85 | A provider read hands out a value if and only if its reader returned one and nothing in the history of any interleaving so far (unknown-effect failure, throwing seal, settlement over work in flight) gave cause for doubt |
| `SecretAdmission.FailedReadPoisons` | eky_software/apps/backend/src/composition/companySettingsComposition.ts:166-177 | A provider read that fails with anything but a store error of no effect answers that its effect is unknown, and every later admission, settlement and read, in every continuation, meets the doubt |
| `SecretAdmission.AnswersAreExact` | eky_software/apps/backend/src/composition/companySettingsComposition.ts:79-98 | After any run, the answer to an operation in flight: a value if and only if its work returned and, for a read, nothing so far gave cause for doubt; else its own error, which for a read is mapped to unknown effect unless it is a store error |
| `SecretAdmission.AdmissionIsExact` | eky_software/apps/backend/src/composition/companySettingsComposition.ts:72-78 | After any run, an operation is admitted if and only if the history holds neither a cause for doubt nor a settlement, and is refused with its reason otherwise |
| `SecretAdmission.ClosedIffAsked` | eky_software/apps/backend/src/composition/companySettingsComposition.ts:57-66 | Admission is closed if and only if the history holds a cause for doubt or a settlement |
| `SecretAdmission.SettlementIsExact` | eky_software/apps/backend/src/composition/companySettingsComposition.ts:179-187 | After any run, a settlement succeeds if and only if nothing is in flight, the history holds no cause for doubt, and its own seal, if it is the first, does not throw |
| `SecretAdmission.InFlightIsExact` | eky_software/apps/backend/src/composition/companySettingsComposition.ts:78-98 | Operations come into flight by their admission alone and leave by their own end alone |
| `SecretAdmission.HarmlessFailureLeavesNoTrace` | eky_software/apps/backend/src/composition/companySettingsComposition.ts:86-98 | A failure known to have changed nothing leaves all as it was but for the operation itself |
| `SecretAdmission.DoubtLasts` | eky_software/apps/backend/src/composition/companySettingsComposition.ts:54-54 | Uncertainty is sticky |
| `SecretAdmission.QuiescenceLasts` | eky_software/apps/backend/src/composition/companySettingsComposition.ts:72-77 | A settled, certain, drained gate never changes again |
| `SecretAdmission.SecretGate.SealSecretAdmission` | eky_software/apps/backend/src/composition/companySettingsComposition.ts:57-66 | In place, the seal: only its first call can throw, and then leaves uncertainty |
| `SecretAdmission.SecretGate.BeginOperation` | eky_software/apps/backend/src/composition/companySettingsComposition.ts:72-78 | In place, admission, with its two refusals in the order of the source |
| `SecretAdmission.SecretGate.FinishOperation` | eky_software/apps/backend/src/composition/companySettingsComposition.ts:79-99 | In place, completion: a failed operation rethrows its own error even when the seal it triggers throws |
| `SecretAdmission.SecretGate.AssertSettled` | eky_software/apps/backend/src/composition/companySettingsComposition.ts:180-187 | In place, the settlement assertion |
| `ServerShutdown.CompletedMeansQuiescent` | eky_software/apps/backend/src/http/server.ts:130-164 | `backend.shutdownCompleted` is logged only with the HTTP server and the diagnostic reader closed and both hooks registered, and from then on secret work is quiescent for good |
| `ServerShutdown.UnusedConnectionsExact` | eky_software/apps/backend/src/http/server.ts:171-187 | The set is exactly the sockets from before the close that sent no request and have not closed, so the sweep never destroys a socket with an accepted request |
| `ServerShutdown.ServerRunKeepsValid` | eky_software/apps/backend/src/http/server.ts:110-187 | Whole runs of connections, closes and secret operations keep the connection, admission and completion invariants |
| `ServerShutdown.ResumeKeepsValid` | eky_software/apps/backend/src/http/server.ts:149-163 | So does the part of `close()` after its await |
| `ServerShutdown.CompletionLasts` | eky_software/apps/backend/src/http/server.ts:155-163 | A close call that completed stays completed |
| `ServerShutdown.CompletionNeedsHooks` | eky_software/apps/backend/src/http/server.ts:142-153 | No close call completes without both shutdown hooks |
| `ServerShutdown.CallsAreExact` | eky_software/apps/backend/src/http/server.ts:138-163 | Each close call keeps its own account: it completes if and only if both its closes were fulfilled, the secret hook is there and the settlement succeeds, and fails if and only if any of these fails |
| `ServerShutdown.ConnectionsAreExact` | eky_software/apps/backend/src/http/server.ts:171-187 | A socket is unused from its connection before the close until its request or its close, and by nothing else |
| `ServerShutdown.AdmissionIsTouchedExactly` | eky_software/apps/backend/src/http/server.ts:149-154 | Close calls touch secret work only by the settlement they ask for after both closes |
| `ServerShutdown.ConnectionTable.OnConnection` | eky_software/apps/backend/src/http/server.ts:171-177 | In place, a socket is admitted before the close and destroyed after it |
| `ServerShutdown.ConnectionTable.OnRequest` | eky_software/apps/backend/src/http/server.ts:179-180 | In place, a request takes its socket out of the set |
| `ServerShutdown.ConnectionTable.OnSocketClose` | eky_software/apps/backend/src/http/server.ts:177-177 | In place, so does the close of the socket |
| `ServerShutdown.ConnectionTable.SweepUnused` | eky_software/apps/backend/src/http/server.ts:138-148 | The sweep loop destroys exactly the unused sockets |
| `AcceptanceCommand.Run` | eky_software/apps/desktop/installer/windows-process-supervisor/AcceptanceCommandProgram.cs:60-93 | The phase loop, for any plan and environment: nothing runs after an unverified boundary; runs are in plan order, each measured from the clock and prepared within the lesser of the work cap and what its cleanup leaves; it stops only for a cause; the result is 0 if and only if every phase ran in order, verified, with code 0. With sound budgets that the environment keeps, exactly one publication runs, last and with its full budget, unless a boundary stays unverified, and the command ends within the reservation |
| `AcceptanceCommand.PublishAfterFailure` | eky_software/apps/desktop/installer/windows-process-supervisor/AcceptanceCommandProgram.cs:106-110 | A failure is published if and only if its remaining time exceeds its cleanup, with exactly that time, its own cleanup, and a preparation as of every run |
| `AcceptanceCommand.PreparationExact` | eky_software/apps/desktop/installer/windows-process-supervisor/AcceptanceCommandProgram.cs:103-104 | Preparation gets the lesser of its cap and of what the cleanup leaves, and nothing if the cleanup leaves nothing |
| `AcceptanceCommand.FailureTimeoutExact` | eky_software/apps/desktop/installer/windows-process-supervisor/AcceptanceCommandProgram.cs:71-72 | The failure publication gets the lesser of its budget and of what remains if and only if the clock is not too late |
| `AcceptanceCommand.PhaseTimeoutExact` | eky_software/apps/desktop/installer/windows-process-supervisor/AcceptanceCommandProgram.cs:95-101 | The timeout is the lesser of the phase budget and what remains if and only if the clock is at most 2^31 ms past the time held back before the deadline |
| `AcceptanceCommand.PhaseFitsExactly` | eky_software/apps/desktop/installer/windows-process-supervisor/AcceptanceCommandProgram.cs:95-101 | A phase with its exit reserve ends before what is held back if and only if the clock is not later than that: past it the wrap always grants too much |
| `AcceptanceCommand.FailureFitsExactly` | eky_software/apps/desktop/installer/windows-process-supervisor/AcceptanceCommandProgram.cs:71-72 | The same of the failure publication |
| `AcceptanceCommand.TraceFitsExactly` | eky_software/apps/desktop/installer/windows-process-supervisor/AcceptanceCommandProgram.cs:65-89 | The same of every run of the command, planned or failure publication, with no assumption that the environment keeps its budgets |
| `AcceptanceCommand.LateClockWraps` | eky_software/apps/desktop/installer/windows-process-supervisor/AcceptanceCommandProgram.cs:98-100 | A concrete clock value at which the conversion turns an exhausted reservation into a long timeout |
| `AcceptanceCommand.TimeoutFits` | eky_software/apps/desktop/installer/windows-process-supervisor/AcceptanceCommandProgram.cs:68-69 | A phase started with the publication budget intact ends, with its reserve, before that budget is touched, and the publication phase gets all of it |
| `AcceptanceCommand.BudgetRemains` | eky_software/apps/desktop/installer/windows-process-supervisor/AcceptanceCommandProgram.cs:68-79 | A phase that keeps its budget leaves the publication its own |
| `AcceptanceCommand.TimelyAfterRun` | eky_software/apps/desktop/installer/windows-process-supervisor/AcceptanceCommandProgram.cs:82-84 | Returning after a phase, published or unverified, meets the deadline |
| `AcceptanceCommand.TimelyInFailure` | eky_software/apps/desktop/installer/windows-process-supervisor/AcceptanceCommandProgram.cs:71-88 | So does returning through the failure publication |
| `AcceptanceCommand.EndsAfterRun` | eky_software/apps/desktop/installer/windows-process-supervisor/AcceptanceCommandProgram.cs:82-84 | Returning after a phase: the result is 0 only for a clean run of the whole plan |
| `AcceptanceCommand.EndsInFailure` | eky_software/apps/desktop/installer/windows-process-supervisor/AcceptanceCommandProgram.cs:85-88 | Returning through the failure publication never succeeds and publishes last |
| `AcceptanceCommand.StopsAfterRun` | eky_software/apps/desktop/installer/windows-process-supervisor/AcceptanceCommandProgram.cs:82-84 | A return after a phase has its cause |
| `AcceptanceCommand.StopsInFailure` | eky_software/apps/desktop/installer/windows-process-supervisor/AcceptanceCommandProgram.cs:71-88 | A failure publication has its cause, and is left out only when its time is used up |
| `AcceptanceCommand.EndsWithoutPublish` | eky_software/apps/desktop/installer/windows-process-supervisor/AcceptanceCommandProgram.cs:89-90 | A plan that never publishes runs to its end with an honest code; no sound plan is one |
| `ExceptionProjection.Project` | eky_software/apps/desktop/e2e/workspaceDeletionExecutionProof.ts:107-145 | The walk terminates on any graph and is breadth first: objects are inspected as they first occur in the root followed by all links in order; their new parts (not the cause, not inspected by then, no proxies) are projected in that order up to the cap, and dropped beyond it; the flag is raised if and only if something was left queued, a new part was dropped or an inspected object is irregular; without it the visited set is exactly what the root reaches through own-data `cause` and `errors[i]`; short of the inspection budget all that can be read is visited |
| `ExceptionProjection.AllShowsAreNew` | eky_software/apps/desktop/e2e/workspaceDeletionExecutionProof.ts:133-139 | Whatever is projected, or dropped at the cap, is a part of an inspected object, neither its cause nor inspected by then, nor a proxy |
| `ExceptionProjection.BreadthFirstExplores` | eky_software/apps/desktop/e2e/workspaceDeletionExecutionProof.ts:119-142 | An order of inspection that is breadth first leaves nothing that can be read unvisited, but what is still queued |
| `ExceptionProjection.Inspect` | eky_software/apps/desktop/e2e/workspaceDeletionExecutionProof.ts:123-141 | Inspecting one object queues exactly its links in order and projects exactly its new parts up to the cap; it is flagged for a dropped part or anything irregular, unless an inspected proxy already was |
| `ExceptionProjection.InspectParts` | eky_software/apps/desktop/e2e/workspaceDeletionExecutionProof.ts:133-140 | The inner loop: every part is queued; of the parts exactly the new ones are projected, in order, as far as the cap allows; nothing projected is the cause or was inspected before; the flag is raised exactly for a dropped part, an accessor, or a new proxy |
| `ExceptionProjection.ProjectsError` | eky_software/apps/desktop/e2e/workspaceDeletionExecutionProof.ts:147-158 | The preflight projects the error itself if and only if its first links are own data on real objects |
| `ExceptionProjection.ClosedIsReachable` | eky_software/apps/desktop/e2e/workspaceDeletionExecutionProof.ts:119-142 | A closed set of reachable objects around the root is the whole reachable set |
| `ExceptionProjection.AllEdgesFollowed` | eky_software/apps/desktop/e2e/workspaceDeletionExecutionProof.ts:112-141 | With the flag down and the queue empty, no edge was missed |
| `JournalWriter.PrefixRecovers` | eky_software/apps/desktop/e2e/workspaceFirstStartProofObservation.ts:67-152 | For every sequence of calls, clock readings and short writes, and every byte prefix of the file: with a complete line in it, it parses to exactly the observations of its complete lines, partial if and only if it does not end at a line break, truncated if and only if the marker is its last line; otherwise it is invalid; it is never too large |
| `JournalStory.FileIsExact` | eky_software/apps/desktop/e2e/workspaceFirstStartProofObservation.ts:88-116 | For every sequence of calls the file is exactly what the calls before the first `close` tell: one line each, with the phase it was called with and the latest clock reading, in order, the marker in the 128th place, up to the first call that is refused, falls short or throws; and of a line that fell short the part written |
| `JournalStory.RecoversTheStory` | eky_software/apps/desktop/e2e/workspaceFirstStartProofObservation.ts:67-152 | Any prefix of the file that holds a complete line parses to the observations of the first calls, told from the calls alone |
| `JournalWriter.ByteCapUnreachable` | eky_software/apps/desktop/e2e/workspaceFirstStartProofObservation.ts:99-113 | The byte cap is dead code: with an open journal the next line always fits |
| `JournalWriter.RunKeepsValid` | eky_software/apps/desktop/e2e/workspaceFirstStartProofObservation.ts:86-116 | Every run keeps the file a chronicle of whole catalogued lines and at most one part of a line |
| `JournalWriter.RecordKeepsValid` | eky_software/apps/desktop/e2e/workspaceFirstStartProofObservation.ts:90-115 | So does one call of `record`, with a short or throwing write |
| `JournalWriter.JournalOnlyGrows` | eky_software/apps/desktop/e2e/workspaceFirstStartProofObservation.ts:78-116 | The file is append-only, and a closed writer never writes |
| `JournalWriter.Observer.Record` | eky_software/apps/desktop/e2e/workspaceFirstStartProofObservation.ts:90-115 | In place, `record` on the descriptor, the clock and the two counters |
| `JournalWriter.Observer.Close` | eky_software/apps/desktop/e2e/workspaceFirstStartProofObservation.ts:78-83 | In place, `close` |
| `JournalWriter.PrefixSplits` | eky_software/apps/desktop/e2e/workspaceFirstStartProofObservation.ts:123-125 | Any prefix is its complete lines and a part without a line break |
| `JournalWriter.SplitLines` | eky_software/apps/desktop/e2e/workspaceFirstStartProofObservation.ts:123-125 | Splitting printed lines and a part gives back their texts and the part |
| `JournalWriter.LinesParse` | eky_software/apps/desktop/e2e/workspaceFirstStartProofObservation.ts:119-152 | Printed lines of a chronicle, with part of another, parse back to it |
| `Journal.ParseObservations` | eky_software/apps/desktop/e2e/workspaceFirstStartProofObservation.ts:119-152 | The parser loop computes the specified capture of any text |
| `Journal.CapturedExactly` | eky_software/apps/desktop/e2e/workspaceFirstStartProofObservation.ts:119-152 | A text is captured with given observations if and only if its complete lines read as them, they are in time order with the marker only last, and both caps hold |
| `Journal.AcceptsExactly` | eky_software/apps/desktop/e2e/workspaceFirstStartProofObservation.ts:131-147 | The running checks accept a sequence of lines if and only if they read as a chronicle |
| `Journal.SplitJoins` | eky_software/apps/desktop/e2e/workspaceFirstStartProofObservation.ts:123-124 | Splitting at line breaks loses nothing, and leaves no break in a piece |
| `JournalFormat.LineReadsBack` | eky_software/apps/desktop/e2e/workspaceFirstStartProofObservation.ts:100-105 | What the writer prints for a catalogued phase and a safe-integer time, JSON parsing and the field checks read back |
| `JournalFormat.TextParses` | eky_software/apps/desktop/e2e/workspaceFirstStartProofObservation.ts:105-105 | The printed text is the JSON object of its three members |
| `JournalFormat.LineIsShort` | eky_software/apps/desktop/e2e/workspaceFirstStartProofObservation.ts:105-106 | No line is longer than a hundred bytes |
| `JournalFormat.ReadLine` | eky_software/apps/desktop/e2e/workspaceFirstStartProofObservation.ts:133-142 | A line that is accepted has a catalogued phase and a safe-integer time |
| `JournalFormat.ReadLineExactly` | eky_software/apps/desktop/e2e/workspaceFirstStartProofObservation.ts:133-142 | A line is accepted as an observation if and only if it is the JSON text of an object with just the three members, whose last values are version 1, that catalogued phase and that safe-integer time |
| `JournalCatalogue.PhasesAreShort` | eky_software/apps/desktop/e2e/workspaceFirstStartLoadObservation.ts:1-13 | Every catalogued phase, slots times events included, prints as itself and has at most forty characters |
| `Json.NumberReadsBack` | eky_software/apps/desktop/e2e/workspaceFirstStartProofObservation.ts:134-134 | A printed natural number is read back as that number |
| `Json.StringReadsBack` | eky_software/apps/desktop/e2e/workspaceFirstStartProofObservation.ts:134-134 | A plain string literal is read back as that string |
| `ReplyRelay.RelayConserves` | eky_software/apps/desktop/e2e/electronSecretReplyHold.ts:41-92 | In every run that leaves the relay open: requests reach the main process in arrival order; replies reach the backend in arrival order except at most one acknowledgement of a mutation, asked for in the run before it came, which is held if and only if there was no release yet, and delivered, once, after exactly the replies that came before the first release; nothing else is lost or duplicated |
| `ReplyRelay.RunKeepsTimed` | eky_software/apps/desktop/e2e/electronSecretReplyHold.ts:41-92 | Where the request, the reply held and the first release stand among the events, over any continuation of any run |
| `RelayStory.HeldIsExact` | eky_software/apps/desktop/e2e/electronSecretReplyHold.ts:41-92 | In every run that leaves the relay open, a reply is held back if and only if the first arming is followed by a request for its mutation, and that by its acknowledgement, all before any release; and then it is the first acknowledgement of the first such request |
| `ReplyRelay.EndsExactly` | eky_software/apps/desktop/e2e/electronSecretReplyHold.ts:27-66 | The relay ends if and only if it is disposed of, a send throws, or a second acknowledgement comes, each with its own failure |
| `ReplyRelay.DisposalLosesNoMore` | eky_software/apps/desktop/e2e/electronSecretReplyHold.ts:27-40 | What ends the relay delivers nothing and nothing is delivered after it; the failure it leaves tells a duplicate acknowledgement and a clean disposal apart |
| `ReplyRelay.StepDisposes` | eky_software/apps/desktop/e2e/electronSecretReplyHold.ts:27-66 | The relay ends by `dispose`, by a send that throws or by a second acknowledgement, and by nothing else |
| `ReplyRelay.RunDelivers` | eky_software/apps/desktop/e2e/electronSecretReplyHold.ts:41-92 | The delivery invariant over any continuation of any run |
| `ReplyRelay.ReplyDelivers` | eky_software/apps/desktop/e2e/electronSecretReplyHold.ts:50-66 | One reply: held, forwarded, or the end |
| `ReplyRelay.RequestDelivers` | eky_software/apps/desktop/e2e/electronSecretReplyHold.ts:41-49 | One request: forwarded, and its binding expected if it is the first of the armed operation |
| `ReplyRelay.ControlDelivers` | eky_software/apps/desktop/e2e/electronSecretReplyHold.ts:74-92 | Arming, releasing and disposing |
| `ReplyRelay.RearrangedKeepsAll` | eky_software/apps/desktop/e2e/electronSecretReplyHold.ts:58-65 | Holding one reply and releasing it later keeps all messages, counted with repetition |
| `ReplyRelay.ElectronSecretReplyHold.ReceiveRequest` | eky_software/apps/desktop/e2e/electronSecretReplyHold.ts:41-49 | In place on the relay variables and the two outgoing message sequences, exactly the transition the conservation theorem is about |
| `ReplyRelay.ElectronSecretReplyHold.ReceiveReply` | eky_software/apps/desktop/e2e/electronSecretReplyHold.ts:50-66 | In place on the relay variables and the two outgoing message sequences, exactly the transition the conservation theorem is about |
| `ReplyRelay.ElectronSecretReplyHold.Arm` | eky_software/apps/desktop/e2e/electronSecretReplyHold.ts:74-81 | In place on the relay variables and the two outgoing message sequences, exactly the transition the conservation theorem is about |
| `ReplyRelay.ElectronSecretReplyHold.Release` | eky_software/apps/desktop/e2e/electronSecretReplyHold.ts:86-92 | In place on the relay variables and the two outgoing message sequences, exactly the transition the conservation theorem is about |
| `ReplyRelay.ElectronSecretReplyHold.Dispose` | eky_software/apps/desktop/e2e/electronSecretReplyHold.ts:27-36 | In place on the relay variables and the two outgoing message sequences, exactly the transition the conservation theorem is about |
| `ReplyRelay.ElectronSecretReplyHold.ForwardToMain` | eky_software/apps/desktop/e2e/electronSecretReplyHold.ts:37-40 | In place on the relay variables and the two outgoing message sequences, exactly the transition the conservation theorem is about |
| `ReplyRelay.ElectronSecretReplyHold.ForwardToBackend` | eky_software/apps/desktop/e2e/electronSecretReplyHold.ts:37-40 | In place on the relay variables and the two outgoing message sequences, exactly the transition the conservation theorem is about |
| `ReservationScopes.ScopesExclude` | eky_software/apps/desktop/e2e/workspaceFirstStartMigrationProofFixtures.ts:105-123 | In every interleaving at most one call is live, and its scope assertion alone passes |
| `ReservationScopes.AuthorityNeverRevives` | eky_software/apps/desktop/e2e/workspaceFirstStartMigrationProofFixtures.ts:117-123 | A scope that has ended never passes its assertion again |
| `ReservationScopes.FailureForbids` | eky_software/apps/desktop/e2e/workspaceFirstStartMigrationProofFixtures.ts:109-111 | After a failure of any body or reservation close no call is admitted, no clean-up is, and the directory is never removed |
| `ReservationScopes.RemovalMeansSuccess` | eky_software/apps/desktop/e2e/workspaceFirstStartMigrationProofFixtures.ts:227-237 | The directory is removed only when every call ever admitted returned and closed its reservation |
| `ReservationScopes.BodyErrorSurvives` | eky_software/apps/desktop/e2e/workspaceFirstStartMigrationProofFixtures.ts:209-225 | The error of a body is the error of its call, however the clean-up goes |
| `ScopeStory.OutcomesHaveCauses` | eky_software/apps/desktop/e2e/workspaceFirstStartMigrationProofFixtures.ts:105-225 | In every run: a call throws an error of its body if and only if its acquisition, factories or body threw it; one of its clean-up if and only if the assertion or close threw it after a body that did not; and returns if and only if all went well |
| `ScopeStory.FlagsHaveCauses` | eky_software/apps/desktop/e2e/workspaceFirstStartMigrationProofFixtures.ts:209-231 | In every run, evidence is kept, a clean-up failure is flagged, the clean-up has begun and the directory is removed, each if and only if the history holds its cause |
| `ScopeStory.CallGoesOn` | eky_software/apps/desktop/e2e/workspaceFirstStartMigrationProofFixtures.ts:124-225 | A call goes on by its own awaits alone, one stage at a time |
| `ScopeStory.CleanupIsExact` | eky_software/apps/desktop/e2e/workspaceFirstStartMigrationProofFixtures.ts:227-237 | The clean-up begins only when idle and clean, and the directory is removed only by a removal it began |
| `ReservationScopes.RunKeepsValid` | eky_software/apps/desktop/e2e/workspaceFirstStartMigrationProofFixtures.ts:98-238 | The flags agree with the history in every run: evidence is kept if and only if a call failed, the clean-up flag is set if and only if a clean-up failed, closed means idle and clean |
| `ReservationScopes.StepKeepsValid` | eky_software/apps/desktop/e2e/workspaceFirstStartMigrationProofFixtures.ts:98-238 | One step of that |
| `ReservationScopes.EvidenceIsKept` | eky_software/apps/desktop/e2e/workspaceFirstStartMigrationProofFixtures.ts:227-230 | Kept evidence stays kept |
| `ReservationScopes.ProofFactories.EnterScope` | eky_software/apps/desktop/e2e/workspaceFirstStartMigrationProofFixtures.ts:109-114 | In place on the shared variables, exactly the transition the scope theorems are about |
| `ReservationScopes.ProofFactories.FinishAcquire` | eky_software/apps/desktop/e2e/workspaceFirstStartMigrationProofFixtures.ts:124-144 | In place on the shared variables, exactly the transition the scope theorems are about |
| `ReservationScopes.ProofFactories.FinishBody` | eky_software/apps/desktop/e2e/workspaceFirstStartMigrationProofFixtures.ts:145-212 | In place on the shared variables, exactly the transition the scope theorems are about |
| `ReservationScopes.ProofFactories.CatchBody` | eky_software/apps/desktop/e2e/workspaceFirstStartMigrationProofFixtures.ts:209-212 | In place on the shared variables, exactly the transition the scope theorems are about |
| `ReservationScopes.ProofFactories.FinishAssert` | eky_software/apps/desktop/e2e/workspaceFirstStartMigrationProofFixtures.ts:216-216 | In place on the shared variables, exactly the transition the scope theorems are about |
| `ReservationScopes.ProofFactories.FinishClose` | eky_software/apps/desktop/e2e/workspaceFirstStartMigrationProofFixtures.ts:217-217 | In place on the shared variables, exactly the transition the scope theorems are about |
| `ReservationScopes.ProofFactories.EndScope` | eky_software/apps/desktop/e2e/workspaceFirstStartMigrationProofFixtures.ts:213-225 | In place, the outer `finally`: the body error is thrown before the clean-up error, and the scope ends either way |
| `ReservationScopes.ProofFactories.BeginCleanup` | eky_software/apps/desktop/e2e/workspaceFirstStartMigrationProofFixtures.ts:227-231 | In place on the shared variables, exactly the transition the scope theorems are about |
| `ApplicationListReader.Read` | eky_software/apps/desktop/installer/windows-process-supervisor/MsiApplicationListObservation.cs:19-119 | For any admission, budget and provider behaviour: the texts are the first ones of those the limits let through; `partial` is set if and only if a failure was reported; without it the texts are the names of the whole list and every question was answered well. Every access to the list comes right after budget, admission, both time-outs and admission again; each text comes of an item admitted on its own, with its process, kind and name read and admission asked once more, and reached by its sibling; texts are returned only if nothing threw and admission was granted at the end. When the surroundings do no harm, the list alone decides the texts and the reported reason |
| `ApplicationListReader.Reading.ReadItem` | eky_software/apps/desktop/installer/windows-process-supervisor/MsiApplicationListObservation.cs:82-95 | One item, from the admission at the head of the loop to the one after its name |
| `ApplicationListReader.Reading.Walk` | eky_software/apps/desktop/installer/windows-process-supervisor/MsiApplicationListObservation.cs:79-107 | The sibling loop, with the same guarantees before the final admission check |
| `ApplicationListReader.Reading.Ready` | eky_software/apps/desktop/installer/windows-process-supervisor/MsiApplicationListObservation.cs:48-63 | Budget, admission and provider time-outs: a refusal has always been reported, the first report stays |
| `ApplicationListReader.Reading.ReadName` | eky_software/apps/desktop/installer/windows-process-supervisor/MsiApplicationListObservation.cs:85-95 | A name comes only from an item of the right process and kind |
| `ApplicationListReader.Reading.Open` | eky_software/apps/desktop/installer/windows-process-supervisor/MsiApplicationListObservation.cs:43-78 | The way to the first item: a root of the wrong process or kind is refused and reported |
| `ApplicationListReader.TextsAreBounded` | eky_software/apps/desktop/installer/windows-process-supervisor/MsiApplicationListObservation.cs:96-102 | Each text is a prefix of the name at its place; item count, total and single lengths stay within the limits |
| `ApplicationListReader.FullListReadsAsCut` | eky_software/apps/desktop/installer/windows-process-supervisor/MsiApplicationListObservation.cs:101-102 | A concrete list that just uses up its item cap, or its character cap, is reported as cut short although its texts are all its names |
| `ApplicationListReader.VerdictIsExact` | eky_software/apps/desktop/installer/windows-process-supervisor/MsiApplicationListObservation.cs:82-102 | A list reads whole if and only if every item is readable and short enough and both totals stay strictly below their caps; then the texts are the names |
| `LoadGate.GateIsOneShot` | eky_software/apps/desktop/e2e/workspaceFirstStartLoadObservation.ts:99-141 | In hold mode, in every run, the native load starts at most once, only after shutdown began and the protocol removal was verified, exactly when the gate was released, and the gate is never both released and cancelled |
| `LoadGate.CancelledLasts` | eky_software/apps/desktop/e2e/workspaceFirstStartLoadObservation.ts:112-119 | A cancelled gate never starts the load |
| `LoadGate.CompleteMeansObserved` | eky_software/apps/desktop/e2e/workspaceFirstStartLoadObservation.ts:153-169 | When the final assertion passes, exactly one load was started and has settled; in hold mode it was released after the removal and rejected, otherwise it succeeded |
| `LoadGate.GateIsExact` | eky_software/apps/desktop/e2e/workspaceFirstStartLoadObservation.ts:99-176 | The gate holds only the first request before shutdown, and lets go of it exactly at the verified removal or the disposal |
| `LoadGate.LoadsAreExact` | eky_software/apps/desktop/e2e/workspaceFirstStartLoadObservation.ts:77-98 | Loads start exactly at once without the gate and at the verified removal with it, and settle exactly when they throw, end or are given up |
| `LoadGate.CountsAreExact` | eky_software/apps/desktop/e2e/workspaceFirstStartLoadObservation.ts:73-152 | Each counter counts its own events and no others |
| `LoadGate.RunKeepsValid` | eky_software/apps/desktop/e2e/workspaceFirstStartLoadObservation.ts:73-179 | Loads started are loads settled and under way, and the gate is in one of its four lives, in every run |
| `LoadGate.StepKeepsValid` | eky_software/apps/desktop/e2e/workspaceFirstStartLoadObservation.ts:73-179 | One step of that |
| `LoadGate.LoadProbe.StartLoad` | eky_software/apps/desktop/e2e/workspaceFirstStartLoadObservation.ts:77-98 | In place on the counters, flags and gate, exactly the transition the gate theorems are about |
| `LoadGate.LoadProbe.Load` | eky_software/apps/desktop/e2e/workspaceFirstStartLoadObservation.ts:74-103 | In place on the counters, flags and gate, exactly the transition the gate theorems are about |
| `LoadGate.LoadProbe.OnSettled` | eky_software/apps/desktop/e2e/workspaceFirstStartLoadObservation.ts:87-96 | In place on the counters, flags and gate, exactly the transition the gate theorems are about |
| `LoadGate.LoadProbe.OnProtocolRemoved` | eky_software/apps/desktop/e2e/workspaceFirstStartLoadObservation.ts:137-141 | In place on the counters, flags and gate, exactly the transition the gate theorems are about |
| `LoadGate.LoadProbe.Dispose` | eky_software/apps/desktop/e2e/workspaceFirstStartLoadObservation.ts:170-179 | In place on the counters, flags and gate, exactly the transition the gate theorems are about |

## Left out

- HandoffSession.ExitLeaksNothing: a runner killed from outside closes nothing; the theorem is about runs that reach `process.exit`.
- The operational logger, `invalidate()` and the observers of the controller are taken not to throw; `startupFailure` and the utility environment are not modelled.
- The waiting part of `stopBackend` (its deadline, forced stop and `reclaimAfterExit`) is one event that may fail; the restore, update and delete stops always throw and are left out.
- Progress statuses of the runner may come at any time, as one status without content; `parseDesktopBackendStatus` is taken to tell statuses apart.
- `workspaceProcessReservation`, `reservationTransfer` and the imported backend are oracles; nothing is claimed about their insides.
- SecretAdmission.AdmissionIsSound: the identity of an operation is history; a second admission under a live identity cannot happen in the source and changes nothing here.
- The routes, repositories and audit writers of the company settings composition are not modelled.
- ServerShutdown: `close()` across its await is a value state machine; only its connection table is a class. `closeIdleConnections` after a late response is left out.
- AcceptanceCommand.Run: exceptions out of a phase, the evidence writer, the nonces, the history file and the test hooks for budgets are left out; a phase is its duration, exit code and boundary.
- The phase lists and budgets of the shipped plans are data; the theorems are for any list.
- ExceptionProjection.Project: what one projected chain holds (`projectExceptionChain`) is not modelled, nor the flag that the projection of the error itself may already carry.
- Json: numbers are exact reals, not doubles, so a literal within rounding distance of an integer is refused here and accepted by the source; a lone surrogate escape reads as U+FFFD.
- The journal's file path checks, the one-admission guard and `realpath` handling are left out; the bytes of the file are its characters, which the proof shows to be ASCII.
- ReplyRelay: how a message parses into a request or a reply is given with the message; the two port closes are one event that may fail. `snapshot` is left out.
- ReservationScopes: what a scope's body does with its factories is its success or its error; identities of calls are distinct, as `randomUUID` is taken to make them.
- ApplicationListReader.Read: the list is a snapshot, so an item does not change between two reads of it; releasing COM objects and the exception's HRESULT are left out. Exceptions of other kinds than the three caught are left out.
- LoadGate: `waitForLoadBeforeShutdown` and the forced-outcome promise are left out; the native load is taken not to call back into the probe before it returns.
- Scenario scripts, configuration and path validation, business fixtures and other wiring are left out: they are fixed checks or I/O with little to prove.
