# Proofs about AutoMobile's shutdown, its acceptance tooling and its metrics

AutoMobile's daemon and stdio server must release devices, finish writes and close a database
before a process limit they do not control, while some of their own cleanup hangs. The first and
largest part of this project models that: the stage runner and database tail of
`src/shutdownCleanup.ts`, the signal and stdin/stdout handling of `src/processLifecycle.ts`, and
the two composed. The other parts take the repository's remaining algorithms with a promise worth
proving: the benchmark's tool-sequence diff and answer check, its signal-safe cleanup, the
acceptance run's books and time budget, the workflow graph search, the schema diff, the shell
tokenizer, the diagnostic normalizer, the download metrics and the memory-pressure fill loop.

`dafny verify dfyconfig.toml` checks everything.

## How the two machines are modelled

A schedule is any sequence of events; an event that is not enabled when its turn comes does
nothing. Every theorem about a run is about the state after an arbitrary schedule, so it covers
every interleaving of the clock, stages settling or failing, deadlines, late stragglers, signals
and lost streams.

- Starting a stage, and resuming after one, are separate events, although the code runs them
  back to back; this only adds interleavings. Code between two awaits is one event: the check for
  writers and the call of `closeDatabase` in particular.
- `slopMs` bounds how late anything that is due may be served: the clock may not pass a due timer
  or an awaited wake-up by more. With slop 0 the clock stops at each.
- `raceWithDeadline` (`src/utils/raceWithDeadline.ts:123-171`) is the pair of a settling event and a
  timer event, of which the first decides.
- A stage is its index in the list, which is what keying by the stage object means. Reporters and
  `warn` are assumed not to throw when called at once; late reports are guarded in the code.
- The classes `ShutdownRunner.Runner`, `ProcessHandlers.Handlers`, `BenchmarkRun.Benchmark`,
  `AcceptanceRun.Acceptance`, `ShellCommands.Tokenizer` and `BunSetupSteps.Search` hold the variables the
  code holds and update them as it does; each method is proved to take exactly the step of the
  state machine or specification function, about which the theorems are. A method that drives
  a whole schedule or loop through them (`Follow`, `TakeSteps`, `Run`) carries the main results over.

## Where the code and its documentation disagree

The model follows the code.

- `src/shutdownCleanup.ts:154` says both stage tables have the same total. The rows add up to 8495
  (`StageTables.DaemonTotal`) and 8475 (`StageTables.StdioTotal`); both are within 9000 - 500.
- `src/shutdownCleanup.ts:251-252` says a shutdown whose stragglers all finish before the sequence
  ends still closes the database. It need not: a straggler that finishes after the late settle has
  decided leaves it open although the run resolves
  (`ShutdownLateClose.StragglerDuringLoggerLeavesDatabaseOpen`).
  `ShutdownCloseIff.ClosedIffStragglersFinished` says of every run exactly when it does.
- `src/shutdownCleanup.ts:221` says the connection is never closed around an abandoned stage that
  may write. A tail stage without a budget gets a context that reports no stragglers
  (`src/shutdownCleanup.ts:347-352`), so this holds of a plan if and only if no such stage can hide
  one (`ShutdownHiddenStragglers.ExactlySafe`). Both real tables are safe
  (`ShutdownUnderLimit.TablesCloseSafely`).
- `scripts/live-device-acceptance.ts:4350-4359` throws only truthy errors, while the evidence records
  `passed` by comparing with `undefined` (`4326`). A run in which something falsy was thrown therefore
  returns evidence that says it did not pass, and the command line reports it as passed; and a
  run in which `undefined` was thrown returns evidence that says it passed
  (`AcceptanceMatrix.FalsyThrowIsReturned`, `UndefinedThrowPasses`). `PassedMeansCompletedIff` says
  that these are the only such runs. Whatever was thrown, evidence that is returned comes with
  every minted session released (`ReturnsMeansReleased`).
- The acceptance run's books are kept by session uuid, so a uuid handed out again after its release
  stays with the daemon although the run passes (`AcceptanceMatrix.ReissuedSessionIsLeft`); a run
  that returns leaves the daemon nothing exactly when that never happened.
- `scripts/live-device-acceptance.ts:2923-2926` says a timeout starts cancellation before the phase's
  deadline. With one millisecond left it starts at the deadline and reaping ends one millisecond
  past it; so a timeout below nine milliseconds can leave cleanup without any time, and none from
  nine on can (`AcceptanceBudget.CleanupIsMissableIff`).

## Model

| member | source | states |
|---|---|---|
| StageTables.DaemonTotal | src/shutdownCleanup.ts:91-141 | the 44 daemon rows sum to 8495, within the 9000 ms limit less its 500 ms reserve |
| StageTables.StdioTotal | src/shutdownCleanup.ts:161-178 | the 16 stdio rows sum to 8475, within the same bound |
| StageTables.DaemonRow | src/shutdownCleanup.ts:91-141 | of the 44 rows the 41st closes, the 42nd settles late, the video stream server, the three helper rows behind it and the ADB server alone cannot write, and no budget is under 10 ms |
| StageTables.StdioRow | src/shutdownCleanup.ts:161-178 | likewise for the 16 rows: the 14th closes, the 15th settles late, only the ADB server cannot write, and no budget is under 25 ms |
| ShutdownProtocol.LoopInvAlways | src/shutdownCleanup.ts:376-427 | after any schedule a stage is unstarted exactly from the loop's position on, and each stage the loop is past has settled or is in `unsettled` |
| ShutdownAbandoned.AbandonInvAlways | src/shutdownCleanup.ts:467-498 | a stage is abandoned, and reported as timed out, at most once; `unsettled` holds every abandoned stage in flight and only abandoned stages, a settled one until its outcome is observed |
| ShutdownSafety.CloseIsSafe | src/shutdownCleanup.ts:258-278 | in every interleaving, at the step that calls `closeDatabase` every earlier stage that may write has settled and no abandoned writer is in flight |
| ShutdownSafety.ClosedAtMostOnce | src/shutdownCleanup.ts:257-296 | one run calls `closeDatabase` at most once, and only in a process that owns the database |
| ShutdownCloseIff.DatabaseClosedIff | src/shutdownCleanup.ts:257-296 | after any schedule the database has been closed iff one of its events was the start of the database stage with no abandoned writer unsettled, or the return of the late settle's drain before the late settle was abandoned, with nothing asking to keep it open |
| ShutdownCloseIff.ClosedIffStragglersFinished | src/shutdownCleanup.ts:247-252 | a run that nothing kept open and whose drain did not fail has closed it iff no writer was abandoned when the database stage started, or none, the late settle included, was left when the late wait ended and the late settle was not abandoned by its drain's return |
| ShutdownHiddenStragglers.ExactlySafe | src/shutdownCleanup.ts:347-352 | a plan never closes around a running writer, in any schedule, if and only if no tail stage without a deadline can follow an abandonable writer |
| ShutdownLateClose.LateWaitDecision | src/shutdownCleanup.ts:285-291 | after its wait the late settle goes on to drain if and only if no abandoned writer, itself included, is unsettled |
| ShutdownLateClose.LateCloseIff | src/shutdownCleanup.ts:292-296 | when that drain returns and nothing keeps the database open, it closes if and only if the late settle has not been abandoned meanwhile |
| ShutdownLateClose.StragglerDuringLoggerLeavesDatabaseOpen | src/shutdownCleanup.ts:251-252 | a schedule in which the only straggler finishes before the sequence ends, the run resolves, and the database is never closed |
| ShutdownLateWait.LateSettleWaits | src/shutdownCleanup.ts:279-288 | in every interleaving a late settle with a budget waits when it starts, unless no stage is abandoned and no close is owed |
| ShutdownLateWait.LateWaitEndsIff | src/shutdownCleanup.ts:285-288 | it waits for every stage abandoned when it started: the wait may end once all of those are observed, and with one left exactly from 50 ms before its rolled deadline on, from 150 ms before it if the close is owed |
| ShutdownLateWait.DaemonLateWait | src/shutdownCleanup.ts:91-141 | with the daemon's table and a close owed that is 8145 ms after the start of the run |
| ShutdownOutcome.RunOutcome | src/shutdownCleanup.ts:501-512 | a run that has ended resolved iff every stage had settled successfully when the sequence ended, and otherwise rejected with exactly one error for each stage that had failed by then and one more, naming the stages still running, iff there were any |
| ShutdownOutcome.EveryRejectionReportedOnce | src/shutdownCleanup.ts:391-404 | a stage's rejection is reported at most once, and exactly once if it was observed, before the end or after it |
| ShutdownOutcome.EndsOnlyOnce | src/shutdownCleanup.ts:480-512 | nothing after the end changes the outcome: a late failure is only reported |
| ShutdownTiming.RollForward | src/shutdownCleanup.ts:417-419 | a stage starts no later than the budgets before it plus one slop, and is offered at least its own budget less that slop: overshoot does not add up |
| ShutdownTiming.RunsWithinTotal | src/shutdownCleanup.ts:385-419 | a budgeted run that is still going is within the sum of its table and one slop |
| ShutdownLateWait.AbandonedFromDeadlineOn | src/shutdownCleanup.ts:417-457 | in every interleaving the stage being awaited can be abandoned exactly from its rolled deadline on, the budgets up to its own, and a stage without a budget never |
| ShutdownTiming.NeverStuck | src/shutdownCleanup.ts:405-497 | whatever its stages do, a budgeted run always has a next event, at once or when its deadline comes |
| ShutdownTiming.LoopProgress | src/shutdownCleanup.ts:405-497 | no event moves the loop back and each loop event moves it on, so the run ends |
| ShutdownRunner.Runner.constructor | src/shutdownCleanup.ts:376-389 | the runner begins in the initial state of the machine |
| ShutdownRunner.Runner.StartNextStage | src/shutdownCleanup.ts:405-457 | starting the next stage rolls the deadline forward, runs a tail body up to its first await and changes nothing else |
| ShutdownRunner.Runner.CloseIfNobodyWrites | src/shutdownCleanup.ts:258-278 | the check and the close or deferral are one step |
| ShutdownRunner.Runner.BeginSettlingLate | src/shutdownCleanup.ts:279-288 | the late settle waits, or finds nothing owed |
| ShutdownRunner.Runner.FinishLateWait | src/shutdownCleanup.ts:289-294 | after the wait it drains, or gives up, by the writers left |
| ShutdownRunner.Runner.FinishDrain | src/shutdownCleanup.ts:294-295 | after the drain it checks again |
| ShutdownRunner.Runner.SettleBody | src/shutdownCleanup.ts:451-459 | a stage's work settles, in time or late |
| ShutdownRunner.Runner.ResumeAfterRace | src/shutdownCleanup.ts:467-498 | a failure is recorded and reported at once; a stage past its deadline is recorded as unsettled and reported as timed out |
| ShutdownRunner.Runner.ObserveAbandoned | src/shutdownCleanup.ts:476-487 | an abandoned stage's outcome takes it out of `unsettled`, counts before the end and is reported in any case |
| ShutdownRunner.Runner.EndSequence | src/shutdownCleanup.ts:501-512 | the end decides the outcome `RunOutcome` describes |
| ShutdownRunner.Runner.TakeStep | src/shutdownCleanup.ts:376-512 | every event of the machine is taken by the runner's variables as the machine takes it, keeps the loop, failure and tail invariants, and closes the database around no running writer |
| ShutdownRunner.Runner.Follow | src/shutdownCleanup.ts:371-513 | so is every schedule: an ended runner's outcome is the one its end called for, it closed the database once at most, and exactly when an event of the schedule closes it |
| ShutdownRunner.RunStages | src/shutdownCleanup.ts:371-513 | a runner made for a plan and driven through any schedule ends in the state the theorems speak of |
| ProcessLifecycle.HandlerRunsOnceWithTheFirstSignal | src/processLifecycle.ts:259-278 | over any schedule the shutdown handler is called at most once, with the signal of the first request |
| ProcessLifecycle.FirstRequestStays | src/processLifecycle.ts:259-264 | no later signal, loss or setting replaces the first request or its time |
| ProcessRequests.FirstToAskIsServed | src/processLifecycle.ts:259-301 | over any schedule the first event that asks for a shutdown gives the request its signal and time, and the handler is called exactly once, with that signal, if one was set before that event, and never if none was |
| ProcessRequests.RequestedIffAsked | src/processLifecycle.ts:113-264 | a shutdown is under way iff a signal or request, a lost stdout, a lost stdin with nothing to wait for, or the end of an answer wait came |
| ProcessRequests.OnlyAHandlerIsAwaited | src/processLifecycle.ts:266-288 | with a handler set the process waits for it, and without one it exits at once |
| ProcessRequests.HandlerSetting | src/processLifecycle.ts:133-139 | the handler in force is there iff one was set, with the finalizer, or none, it was last set with |
| ProcessRequests.CodeSetting | src/processLifecycle.ts:145-148 | the exit code in force is the one last set |
| ProcessRequests.HandlerLimitIff | src/processLifecycle.ts:280-301 | a handler that has not settled is cut off exactly from the whole limit after the request on |
| ProcessRequests.TimedOutIsFinalized | src/processLifecycle.ts:271-310 | a handler cut off is followed by the finalizer last set with a handler, or by exit 1 if that had none |
| ProcessRequests.FinalizerLimitIff | src/processLifecycle.ts:303-330 | the finalizer is cut off exactly from min(T, 100) ms after its call on |
| ProcessRequests.AnswersAreAwaited | src/processLifecycle.ts:180-201 | a lost stdin whose callback returned a promise begins the answer wait, unless a shutdown is under way |
| ProcessRequests.AnswerWaitIff | src/processLifecycle.ts:207-219 | that wait times out exactly from its own length after the loss on |
| ProcessLifecycle.ExitCode | src/processLifecycle.ts:266-330 | an exit is final, and its code is the configured one or 0 when the handler finished in time, the finalizer's or 1 when it did not, and 1 when anything threw |
| ProcessLifecycle.ExitDeadline | src/processLifecycle.ts:280-330 | a process asked to shut down that has not exited is within T + min(T, 100) of the first request, each limit served within the slop |
| ProcessLifecycle.StdinLossDeadline | src/processLifecycle.ts:169-219 | end, error and close of stdin in any order and number call the client-gone callback once, and a process that has not exited is within the answer wait and the two limits |
| ProcessExit.NotStuck | src/processLifecycle.ts:207-330 | a process asked to shut down, or whose stdin is lost, always has a step towards its exit, at once or at a time the clock may reach, that needs no handler, finalizer or answer to settle |
| ProcessExit.ExitIsReached | src/processLifecycle.ts:207-330 | from every such reachable state its own timers alone lead to the exit, in seven steps and as many ticks at most |
| ProcessExit.StepsAreFew | src/processLifecycle.ts:207-330 | and no schedule takes more than seven such steps, so the exit cannot be put off by them |
| ProcessHandlers.Handlers.constructor | src/processLifecycle.ts:94-111 | the handlers begin idle |
| ProcessHandlers.Handlers.StartShutdown | src/processLifecycle.ts:259-267 | a second request finds one in progress and changes nothing |
| ProcessHandlers.Handlers.OnStdinEvent | src/processLifecycle.ts:180-201 | the first stdin event calls back once and then waits for answers, shuts down, or leaves it to the shutdown in progress |
| ProcessHandlers.Handlers.OnStdoutEvent | src/processLifecycle.ts:227-238 | the first stdout event requests shutdown, further ones nothing |
| ProcessHandlers.Handlers.ResumeAnswerWait | src/processLifecycle.ts:207-219 | however the wait ended, it ends in the same shutdown request |
| ProcessHandlers.Handlers.ResumeShutdown | src/processLifecycle.ts:266-277 | exit, or the finalizer when the handler timed out |
| ProcessHandlers.Handlers.ResumeFinalization | src/processLifecycle.ts:271-277 | exit with the finalizer's code, or 1 |
| ProcessHandlers.Handlers.TakeStep | src/processLifecycle.ts:113-330 | every event of the machine is taken by the fields as the machine takes it, and keeps its invariant |
| ProcessHandlers.Handlers.Follow | src/processLifecycle.ts:113-330 | so is every schedule: the handler was called once, with the signal of the first event that asked, if it was set before that and never otherwise, a lost stdin called back once, and the step that set an exit code explains it |
| ProcessHandlers.RunLifecycle | src/processLifecycle.ts:107-330 | handlers driven through any schedule end in the state the theorems speak of |
| ShutdownUnderLimit.LimitNeverFires | src/processLifecycle.ts:280-301 | when a table's sum and one slop are under the limit, in every interleaving of run and lifecycle the limit never cuts the run short, and the exit code is the run's |
| ShutdownEnds.NotStuck | src/processLifecycle.ts:280-301 | run and lifecycle together always have a next step towards the exit, however the stages hang |
| ShutdownEnds.ExitIsReached | src/processLifecycle.ts:259-301 | from every reachable state of a leaving process the exit can be reached, which with the row above is before the limit |
| ShutdownEnds.StepsAreFew | src/processLifecycle.ts:259-301 | and no schedule takes more than three such steps a stage and eight more |
| ShutdownUnderLimit.DaemonBeatsTheLimit | src/shutdownCleanup.ts:91-149 | the daemon's table does so for every slop up to 10 ms, its smallest budget |
| ShutdownUnderLimit.StdioBeatsTheLimit | src/shutdownCleanup.ts:161-178 | the stdio table does so for every slop up to 25 ms |
| ShutdownUnderLimit.TablesCloseSafely | src/shutdownCleanup.ts:91-178 | with either table no schedule closes the database around a running writer |
| ToolSequenceDiff.LcsTable | scripts/agent-benchmark/compare.ts:117-130 | the table holds the longest-common-subsequence recurrence in every cell |
| ToolSequenceDiff.DiffToolSequence | scripts/agent-benchmark/compare.ts:133-152 | the diff is a script from baseline to actual, keeps as many tools as any common subsequence has, edits no more than any script, and comes first of those that edit no more; each side spells its sequence with its indices |
| ToolSequenceDiff.WalkIsOptimal | scripts/agent-benchmark/compare.ts:133-152 | that optimality, over all common subsequences and all scripts |
| ToolSequenceDiff.WalkIsFirst | scripts/agent-benchmark/compare.ts:133-152 | where another script with as few edits first differs from the walk, the walk keeps a tool that the other does not keep there, or has an extra tool where the other has a missing one |
| ToolSequenceDiff.NoneLongerThanBest | scripts/agent-benchmark/compare.ts:117-130 | no common subsequence is longer than the recurrence says |
| ReportLines.MissingFromAnswer | scripts/agent-benchmark/compare.ts:293-312 | the position counter holds each keyed needle against its line counted from the report's end |
| ReportLines.NothingMissingIff | scripts/agent-benchmark/compare.ts:285-312 | nothing is missing iff the report ends with the keyed needles in order and the answer contains the others |
| ReportLines.MissingAreNamed | scripts/agent-benchmark/compare.ts:293-312 | the needles named are, in order and once each, those not found, and the keyed ones whose line is not there, as far from the report's end as there are keyed needles from it on |
| BunSetupSteps.FindIsExact | scripts/check-bun-version-coherence.ts:46-63 | on any finite graph, shared and cyclic nodes included, the search finds exactly the setup steps reachable from the root, each once |
| BunSetupSteps.Search.constructor | scripts/check-bun-version-coherence.ts:46-46 | a search begins with nothing visited |
| BunSetupSteps.Search.FindBunSetupSteps | scripts/check-bun-version-coherence.ts:46-63 | the recursion over one shared visited set terminates and computes that search |
| BunSetupSteps.SetupStepsOf | scripts/check-bun-version-coherence.ts:46-63 | a search of its own returns exactly those steps |
| BunSetupOrder.StepsInDocumentOrder | scripts/check-bun-version-coherence.ts:46-63 | in the document's order: of all ways down that do not come back to a node they are inside of, read in order, each step where it comes first |
| SchemaDiff.StructuralDiffPaths | scripts/check-schema-copy-drift.ts:47-91 | the recursion with its pushes computes the list of differences the next rows describe |
| SchemaDiff.SchemasStructurallyEqual | scripts/check-schema-copy-drift.ts:93-95 | true iff the two values are equal up to the order of object keys |
| SchemaDiff.EmptyIffEqual | scripts/check-schema-copy-drift.ts:47-95 | no difference is reported iff the values are so equal |
| SchemaDiff.ReportedDiffers | scripts/check-schema-copy-drift.ts:47-91 | every reported path is below the starting one and leads to a difference of the reported kind |
| SchemaDiff.DifferenceIsReported | scripts/check-schema-copy-drift.ts:47-91 | every such difference is reported |
| SchemaDiff.DifferenceIsGenuine | scripts/check-schema-copy-drift.ts:47-91 | at such a path the values are unequal, or just one exists |
| SchemaDiff.ReportAscends | scripts/check-schema-copy-drift.ts:47-91 | the differences are reported in the order of their paths, items by index and properties by name |
| SchemaDiff.NoPathTwice | scripts/check-schema-copy-drift.ts:47-91 | so no path is reported twice |
| McpDiagnostic.NormalizeMcpTransportDiagnostic | scripts/live-device-acceptance.ts:1164-1180 | the loop ends and computes the normalization of the next rows |
| McpDiagnostic.StrippedWasPrefixed | scripts/live-device-acceptance.ts:1183-1198 | what a strip removes is exactly a printed prefix with a canonical negative code |
| McpDiagnostic.SafeCodesArePrinted | scripts/live-device-acceptance.ts:1192-1196 | up to 2^53 - 1 the canonical codes are exactly the printed negative integers |
| McpDiagnostic.NormalizeUndoesPrinting | scripts/live-device-acceptance.ts:1164-1198 | any chain of one or more prefixes, with or without one leading `Error: `, before a message without one gives back the message |
| McpDiagnostic.NormalizeIsTheInverse | scripts/live-device-acceptance.ts:1164-1198 | a diagnostic is changed exactly when it is such a printing, and then to its message, which is unique |
| McpDiagnostic.IdempotentUnlessErrorNested | scripts/live-device-acceptance.ts:1164-1198 | normalizing twice differs from once exactly when the text is a chain of prefixes before `Error: ` and a prefix of its own |
| McpDiagnostic.NestedErrorIsNormalizedFurther | scripts/live-device-acceptance.ts:1164-1198 | an input on which it does not |
| AcceptanceBudget.GuardPassesIff | scripts/live-device-acceptance.ts:2896-2909 | the guard passes iff the timeout is at least 3 ms; work ends before cleanup before the deadline, and work gets at least half from 4 ms on |
| AcceptanceBudget.ReservesAre | scripts/live-device-acceptance.ts:2897-2904 | the evidence is kept a tenth of the timeout, 1 ms at least and 5 s at most, and the cleanup a quarter of the rest, up to 15 s, both rounded down |
| AcceptanceBudget.ReapReserveIs | scripts/live-device-acceptance.ts:2923-2927 | reaping is kept a quarter of the remaining time, rounded down, 1 ms at least and 1 s at most |
| AcceptanceBudget.SlicesFillTheRemaining | scripts/live-device-acceptance.ts:2923-2928 | an operation's budget and reap slice are the remaining time from 2 ms on, and each takes the last millisecond otherwise |
| AcceptanceBudget.BoundedEndsInTime | scripts/live-device-acceptance.ts:2911-2969 | whatever the operation does, it is over by its phase's deadline, a millisecond later at worst, and its result counts only if it came in time |
| AcceptanceBounded.EndsExactly | scripts/live-device-acceptance.ts:2927-2969 | as a race of events, operation against timer and then against the reap timer, `bounded` can end exactly as the endings that the other rows reason about |
| AcceptanceBounded.EndsWithoutOperation | scripts/live-device-acceptance.ts:2927-2969 | however far it has come, it ends in three steps without any help from the operation |
| AcceptanceBudget.CleanupIsMissableIff | scripts/live-device-acceptance.ts:2896-2930 | work can leave cleanup no time exactly when the timeout is below 9 ms |
| AcceptanceBudget.RunEndsInTime | scripts/live-device-acceptance.ts:2896-2969 | all three phases are over a millisecond past the run's deadline at worst, and from 20 ms on the evidence write gets its turn |
| AcceptanceMatrix.NoFailureReleasesAll | scripts/live-device-acceptance.ts:4153-4213 | whatever step failed and wherever, a run without a recorded cleanup failure has had every minted session's release confirmed, each exactly once |
| AcceptanceMatrix.ReturnsMeansReleased | scripts/live-device-acceptance.ts:4325-4359 | evidence that is returned comes with every minted session released, and the daemon holds nothing iff no session was handed out again after its release |
| AcceptanceMatrix.BodyEndsIff | scripts/live-device-acceptance.ts:4150-4153 | the body ends in one place only: after the first step that throws, whose error is the primary one, or after the last |
| AcceptanceMatrix.PassedMeansCompletedIff | scripts/live-device-acceptance.ts:4325-4359 | returned evidence means every step was taken and none threw, except exactly when cleanup went well and a step threw something falsy; evidence that says `passed`, except exactly when it threw `undefined` |
| AcceptanceOutcome.BodyEndsWithFirstFailure | scripts/live-device-acceptance.ts:4150-4153 | the body ends with the first attempt that fails, of whatever error, and that error is the primary one: an awaited call, a connection still to be made, or the connection or call of an open session's release |
| AcceptanceOutcome.PassesIff | scripts/live-device-acceptance.ts:4150-4359 | a run returns evidence that says `passed` iff no attempt to clean up failed, no truthy error came from the write, and no attempt of its body failed, or the first to fail threw `undefined`; it rethrows exactly a first failure that is truthy |
| AcceptanceOutcome.CleanupCounts | scripts/live-device-acceptance.ts:4153-4213 | the finally block records no failure iff the kill, every release of a session left, the close of a connected daemon and every client's close succeed |
| AcceptanceOutcome.OpenIff | scripts/live-device-acceptance.ts:3013-3126 | a session is open iff a step acquired it and none has had its release confirmed |
| AcceptanceOutcome.ConnectedIff | scripts/live-device-acceptance.ts:3106-3110 | the daemon is connected iff a step connected it and none has discarded it since |
| AcceptanceMatrix.FalsyThrowIsReturned | scripts/live-device-acceptance.ts:4350-4359 | a run in which a step throws something falsy, and which returns |
| AcceptanceMatrix.UndefinedThrowPasses | scripts/live-device-acceptance.ts:4326-4326 | a run in which a step throws `undefined`, and whose evidence says it passed |
| AcceptanceMatrix.ReissuedIff | scripts/live-device-acceptance.ts:3013-3017 | which sessions those are |
| AcceptanceMatrix.ReissuedSessionIsLeft | scripts/live-device-acceptance.ts:3013-3017 | a run that passes and leaves such a session with the daemon |
| AcceptanceRun.Acceptance.constructor | scripts/live-device-acceptance.ts:2992-3003 | the run begins with empty books |
| AcceptanceRun.Acceptance.MintSession | scripts/live-device-acceptance.ts:3013-3017 | a uuid is entered once |
| AcceptanceRun.Acceptance.ReleaseSession | scripts/live-device-acceptance.ts:3098-3126 | a session is marked released only after the call succeeded, and not called for again |
| AcceptanceRun.Acceptance.TakeSteps | scripts/live-device-acceptance.ts:4150-4153 | the body ends at the first throw, which becomes the primary error |
| AcceptanceRun.Acceptance.ReleaseLeft | scripts/live-device-acceptance.ts:4186-4194 | the release loop goes on past failures and records each |
| AcceptanceRun.Acceptance.CleanUp | scripts/live-device-acceptance.ts:4153-4213 | the finally block as a whole |
| AcceptanceRun.RunAcceptanceMatrix | scripts/live-device-acceptance.ts:4150-4359 | the whole run: if it returns its evidence, every minted session is released, and its evidence says `passed` iff every attempt succeeded that `PassesIff` names |
| BenchmarkCleanup.CleanupRunsOnce | scripts/benchmark-settled-screenshot.ts:99-109 | whenever a signal comes, cleanup begins once at most and only after setup ended, a created client is closed by it exactly once, and neither return nor exit precedes it |
| BenchmarkCleanup.RunDirRemovedSafely | scripts/benchmark-settled-screenshot.ts:231-258 | the run directory goes only if no child was attempted or its daemon confirmed the stop, and is kept exactly when a stop failed |
| BenchmarkCleanup.TerminationIsRespected | scripts/benchmark-settled-screenshot.ts:110-152 | after termination no tool call is issued; the exit is the first signal's, final, and after cleanup |
| BenchmarkCleanup.TerminationNotStuck | scripts/benchmark-settled-screenshot.ts:104-117 | a terminated benchmark that has not exited always has a next step |
| BenchmarkCleanup.ExitsWithinNineSteps | scripts/benchmark-settled-screenshot.ts:104-258 | and takes at most nine |
| BenchmarkOutcome.FirstSignalCounts | scripts/benchmark-settled-screenshot.ts:110-117 | over any schedule the exit is with 130 if the first signal was SIGINT and with 143 if it was SIGTERM |
| BenchmarkOutcome.ChildIff | scripts/benchmark-settled-screenshot.ts:126-132 | a child is attempted iff the port was picked, nothing refused the launch and no signal had come by then |
| BenchmarkOutcome.CallsGoOn | scripts/benchmark-settled-screenshot.ts:135-152 | until a signal comes a created client's calls are issued, and each return leaves the benchmark ready for the next |
| BenchmarkOutcome.CallsCount | scripts/benchmark-settled-screenshot.ts:141-146 | the calls issued are all those that came before the first signal |
| BenchmarkOutcome.ReturnsIffBodyEnded | scripts/benchmark-settled-screenshot.ts:119-123 | the benchmark returns its report iff its body came to its end |
| BenchmarkRun.Benchmark.constructor | scripts/benchmark-settled-screenshot.ts:92-123 | setup begins, or has failed at once on an unsafe run directory |
| BenchmarkRun.Benchmark.AskForCleanup | scripts/benchmark-settled-screenshot.ts:103-109 | everyone waits on one cleanup |
| BenchmarkRun.Benchmark.OnTerminate | scripts/benchmark-settled-screenshot.ts:110-117 | the first signal counts |
| BenchmarkRun.Benchmark.ResumeAfterPort | scripts/benchmark-settled-screenshot.ts:126-132 | a child is attempted only when nothing refused it and nothing terminated the run |
| BenchmarkRun.Benchmark.ResumeAfterClient | scripts/benchmark-settled-screenshot.ts:132-136 | setup ends after the client is recorded, and the run goes on only if not terminated |
| BenchmarkRun.Benchmark.IssueCall | scripts/benchmark-settled-screenshot.ts:141-146 | a call is issued only if not terminated |
| BenchmarkRun.Benchmark.ResumeAfterCall | scripts/benchmark-settled-screenshot.ts:146-152 | a terminated run ends at its next return from a call |
| BenchmarkRun.Benchmark.StartCleanup | scripts/benchmark-settled-screenshot.ts:231-243 | cleanup closes the client there is |
| BenchmarkRun.Benchmark.TakeStep | scripts/benchmark-settled-screenshot.ts:95-258 | every event of the machine is taken by the benchmark's variables as the machine takes it, and keeps its invariant |
| BenchmarkRun.Benchmark.Follow | scripts/benchmark-settled-screenshot.ts:95-258 | so is every schedule: cleanup once at most and after setup, a created client closed by it once, the directory removed only without a child or after its stop, and return and exit after cleanup |
| BenchmarkRun.RunBenchmark | scripts/benchmark-settled-screenshot.ts:88-258 | a benchmark driven through any schedule ends in the state the theorems speak of |
| ShellCommands.ShellCommandsOf | scripts/check-process-safety.ts:62-160 | the loop terminates, substitutions recurring on shorter text, and returns the commands of `Tokens`, none empty |
| ShellCommands.FindEnd | scripts/check-process-safety.ts:91-119 | the inner loop stops at the close that balanced text stands before, and past the end if there is none |
| ShellSubstitutions.EndsAtItsOwnClose | scripts/check-process-safety.ts:91-119 | a substitution ends at a place iff text stands before it that is balanced but for escapes and quoted stretches, with `)` or the backtick behind it; between backticks parentheses are plain |
| ShellCommands.Tokenizer.TakeSubstitution | scripts/check-process-safety.ts:90-130 | a substitution adds its commands and goes to the word as text |
| ShellCommands.Tokenizer.TakeSeparator | scripts/check-process-safety.ts:139-153 | a separator ends the command, and the pipeline unless it is a lone bar |
| ShellCommands.Tokenizer.TakeStep | scripts/check-process-safety.ts:86-157 | one round of the loop takes the branch of the specification |
| ShellTokenizerLaws.NoEmptyTokens | scripts/check-process-safety.ts:71-85 | in the source and every substitution no command is without words and no word without text |
| ShellTokenizerLaws.TopLevelWordsAreText | scripts/check-process-safety.ts:86-160 | the words of the source's own commands are stretches of it, in order and disjoint, each command between two neighbouring separators |
| ShellTokenizerLaws.CommandsInOrder | scripts/check-process-safety.ts:78-85 | a later command's words come after an earlier one's |
| ShellTokenizerParts.CommandsComeInParts | scripts/check-process-safety.ts:86-160 | the commands returned are those of parts that follow the text, each ending before the next begins: the source's own commands, exactly those these rows speak of, each at the separator or end that completes it, and those of its substitutions, each the balanced text between its `$(` or backtick and its close, or the rest of the source if it has none |
| ShellTokenizerLaws.PipelineIff | scripts/check-process-safety.ts:147-149 | two of them share a pipeline iff every separator between them is a bar with none beside it |
| ShellTokenizerRoundTrip.QuotedDataStaysData | scripts/check-process-safety.ts:60-160 | commands written in words of bare, single- and double-quoted, escaped, `${...}` and substituted parts, with comments, and joined by any of the separators, are read back word for word, with their values, lines and pipelines, and each substitution's commands in their place |
| ShellCommandWords.CommandWords | scripts/check-process-safety.ts:189-262 | the loops terminate and strip what the next rows describe |
| ShellCommandWords.RestIsCommand | scripts/check-process-safety.ts:189-262 | what is left is an end of the words and begins with neither an assignment nor a keyword nor a wrapper |
| ShellCommandWords.UnchangedIff | scripts/check-process-safety.ts:189-262 | nothing is stripped iff the first word is already such a command, so stripping is idempotent |
| ShellCommandWords.PrefixIsPassedOver | scripts/check-process-safety.ts:194-200 | an assignment or keyword in front changes nothing |
| ShellCommandWords.AssignmentIff | scripts/check-process-safety.ts:187-187 | an assignment is a name that does not begin with a digit, and an `=` behind it |
| ShellCommandWords.BaseNameIs | scripts/check-process-safety.ts:193-193 | a program's name is what follows its last slash |
| ShellWrappers.WrapperIsPassedOver | scripts/check-process-safety.ts:209-260 | a wrapper, its options with or without their values and the duration of `timeout` are passed over, whatever follows |
| ShellWrappers.ValuePassed | scripts/check-process-safety.ts:220-260 | `sudo -u`, `nice -n` and `xargs -n` take a value, and `timeout -k` one and then a duration |
| ShellWrappers.FlagPassed | scripts/check-process-safety.ts:249-253 | `sudo -n` and `command -p` take none |
| ShellWrappers.QueryIsNoCommand | scripts/check-process-safety.ts:201-208 | `command -v` and the help of `sudo`, `time` and `env` leave nothing |
| DownloadSeries.BuildAssetSeries | docs-assets/src/usage-data.ts:224-264 | each asset's series is its sightings in day order with their deltas, under the tag and asset name of the first of them, keys in the order first seen |
| DownloadSeries.NameIsReported | docs-assets/src/usage-data.ts:230-239 | the tag and asset name of a series are those of an asset that some snapshot reports, and make up its key |
| DownloadSeries.KeysTellApart | docs-assets/src/usage-data.ts:161-164 | two assets whose tags hold no middle dot have the same key iff they are the same |
| DownloadSeries.KeysCanCollide | docs-assets/src/usage-data.ts:161-164 | two assets that share one, the tag of one holding the separator |
| DownloadSeries.DeltaKnownIff | docs-assets/src/usage-data.ts:240-258 | a day's delta is known, and v, iff some snapshot reports the asset on the day before, by no other counter and with a count v lower, v not negative, whatever order the snapshots came in |
| DownloadSeries.SeenIsReported | docs-assets/src/usage-data.ts:224-264 | every report is a point of its series and every point a report |
| DownloadSeries.DeltasTelescope | docs-assets/src/usage-data.ts:240-258 | a run of known deltas adds up to last minus first, not negative, one day each |
| DownloadTotals.CounterConserved | docs-assets/src/usage-data.ts:240-258 | what a counter gained is its known deltas and its unseen jumps |
| DownloadTotals.SummarizeDailyByType | docs-assets/src/usage-data.ts:269-317 | the nested loops compute every family's cells and total, and leave out exactly the unobserved families |
| DownloadTotals.PartialIffUnknown | docs-assets/src/usage-data.ts:288-298 | a cell is partial iff some asset of the family has an unknown delta that day, and observed iff one has a delta |
| DownloadTotals.TotalsConserve | docs-assets/src/usage-data.ts:269-317 | the totals of all families add up to the known deltas of all assets |
| DownloadTotals.DailyByType | docs-assets/src/usage-data.ts:613-619 | so they do for the page, from any snapshots; its rows are the families with a delta, in the fixed order, and a cell is partial iff some asset of the family has an unknown delta that day, and observed iff one has a delta |
| DownloadTotals.PartialIffUnexplained | docs-assets/src/usage-data.ts:240-298 | so a family's cell is partial iff a snapshot of that day reports an asset of the family whose change no report of the same asset gives, and observed iff one reports an asset of the family |
| DownloadTotals.FamilyByName | docs-assets/src/usage-data.ts:195-213 | the last four characters of a name, in any case, decide its family, and the helper's name at its start where they do not |
| RollingAverage.RollingAverage | docs-assets/src/usage-data.ts:362-376 | each point of the queue and running sum is the plain mean of the last values, as many as the window or as there are |
| RollingAverage.SizeIs | docs-assets/src/usage-data.ts:363-363 | the window is its whole part, and one at least |
| RollingAverage.MeanBounds | docs-assets/src/usage-data.ts:361-376 | no point leaves the range of the values it averages |
| MemoryFill.XorShiftInjective | android/lmk-pressure/lmk_pressure.c:111-113 | the three shifts lose nothing: equal results come from equal states |
| MemoryFill.StreamNeverZero | android/lmk-pressure/lmk_pressure.c:91-113 | the state never becomes zero |
| MemoryFill.RepeatsFromTheSeed | android/lmk-pressure/lmk_pressure.c:91-113 | the stream can repeat only by coming back to its seed |
| MemoryFill.WordsAt | android/lmk-pressure/lmk_pressure.c:110-115 | the k-th word written is the k-th state with its lowest bit set and the others as they are |
| MemoryFill.NextState | android/lmk-pressure/lmk_pressure.c:111-113 | the three assignments are one xorshift step |
| MemoryFill.StepBits | android/lmk-pressure/lmk_pressure.c:111-113 | in a step every bit is mixed with the one 13 below it, then with the one 17 above, then with the one 5 below |
| MemoryFill.FillChunk | android/lmk-pressure/lmk_pressure.c:104-116 | the page and word loops write every word of a mapping once, in stream order, for any page size |
| MemoryFill.Fill | android/lmk-pressure/lmk_pressure.c:89-118 | exactly the requested bytes are mapped in chunks of at most 4 MiB and hold one stream running on from chunk to chunk, unless a mapping is refused |

## Left out

- ShutdownOutcome.RunOutcome: a reporter that throws at once (`src/shutdownCleanup.ts:411`, `470`) rejects the run early; a reporter that does not throw is assumed.
- ShutdownSafety.CloseIsSafe: requires at most one database stage and one late settle after it, in a plan whose tail stages see the stragglers; without the latter it is false, and `ExactlySafe` gives the condition.
- ShutdownTiming.RollForward: requires every stage to have a budget no smaller than the slop; both tables have, for slops up to 10 and 25 ms.
- Budgets and times are whole milliseconds of one monotonic clock.
- The refused-access report of the late settle, `boundWithinStage` beyond its use there, and the stage bodies themselves, which settle, fail or hang at will.
- `runAllCleanupOperations` and `createStdioShutdownStages`, which only assemble.
- The fatal-event path of the process lifecycle, the stderr guard and the flags of the signal listeners; a request may come from any of the listeners at any time.
- ProcessLifecycle.StdinLossDeadline: one stdin installation with its answer wait; a second installation is shown to change nothing.
- ToolSequenceDiff.LcsTable: indices and lengths are unbounded integers.
- ReportLines.MissingFromAnswer: line normalization, the key pattern and the search for other needles depend on regular expressions and Unicode; needles come with their normalized text and the search's answer.
- BunSetupSteps.FindIsExact: a property named `uses` counts as the node's own; inherited properties and getters are not part of this model.
- SchemaDiff.StructuralDiffPaths: paths are sequences of steps, not their printed form; the reviver of `parseSchemaJson` is not part of this model.
- McpDiagnostic.StripMcpErrorPrefix: which texts past 2^53 - 1 print back as themselves is up to the number type; the results hold for any set of them written with digits, `.`, `e` and `+`.
- AcceptanceBudget.BoundedEndsInTime: timers fire on time and code between awaits takes none; operations nested in another operation's bound are not nested here.
- AcceptanceMatrix.NoFailureReleasesAll: a session the daemon started but whose answer never reached the run is not in its books, in the code as here.
- That every created client of the acceptance run is closed: the code registers the forward discovery client only after the reverse one has connected too (`scripts/live-device-acceptance.ts:3752-3763`).
- The evidence's checks, redaction, message authentication, ownership manifests and all device and daemon traffic of the acceptance run.
- BenchmarkCleanup.CleanupRunsOnce: loggers are assumed not to throw; a client creation that never settles keeps cleanup from beginning, as in the code.
- The benchmark's measurements, metrics and reports.
- ShellTokenizerLaws.PipelineIff: line numbers of words after a quoted newline are not claimed; the code does not count newlines inside quotes.
- ShellTokenizerRoundTrip.QuotedDataStaysData: texts that leave a quote, a brace or a substitution open are read as `Tokens` says, but are not among those written; nor are `\$` and `\|`, a separator beside a `|` other than `||`, and gaps other than one space or tab.
- Heredoc skipping, the allowlist and the argument rules of the process-safety guard.
- DownloadSeries.BuildAssetSeries: days are numbers, for which four-digit ISO dates sort and subtract alike; snapshots of one day keep their order, where the code's comparator leaves it to the engine.
- DownloadSeries.DeltaKnownIff: requires distinct days and each asset once per snapshot, as do `SeenIsReported` and `DownloadTotals.PartialIffUnexplained`; the other theorems about deltas and totals do not.
- DownloadTotals.SummarizeDailyByType: asset names are lowered as ASCII.
- RollingAverage.RollingAverage: over reals; floating-point rounding is not part of this model.
- MemoryFill.FillChunk: words are their 32 bits and positions unbounded integers, so `size_t` wrap-around is not modelled; the argument check keeps sizes far below it.
- Charts, tables and other rendering; argument parsing; percentile helpers.
