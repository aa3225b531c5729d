# rpi-procmon, verified

A model of the monitoring daemon rpi-procmon in Dafny, with proofs about it. `dafny verify dfyconfig.toml`
checks everything.

## What is modelled

**The monitor and recovery engine** (internal/engine/manager.go). An operation is one call of `withMonitorLock`:
a scheduled or manual check, or a manual recovery. `RecoveryMachine.dfy` gives it as a sequence of atomic steps -
a section under the manager's mutex, a wait for the monitor's slot, a test of the context, a reading of the clock
outside the mutex, one check, one action. `MonitorRecord.dfy` says what a section does to the monitor's record and
which events it appends. `System.dfy` puts any number of operations on any number of monitors together, with the
slots, the bounded event log and the two files. What a crash may leave of a file is a *set* of candidates: a save
that succeeds leaves exactly the new contents, one that fails leaves the old ones or the new ones. A run is a
sequence of labels; each names who moves and carries all outside input: clock readings, check and action results,
save outcomes, cancellations, crashes, and what a restart finds. The clock does not go back; that is the only
assumption on it.

`RuntimeState.dfy` and `Engine.dfy` are the same in the source's own form: records updated in place, one method per
section, the operations composed of them with the source's loops and early returns. The `Manager` class keeps two
ghost histories: the labels of all earlier lives of the process, from a blank disk on, and the trace of this one.
`Valid` says that its fields are what the machine reaches by the two, so the theorems about runs hold of it;
`Invariant`, `CooldownIsSaved`, `OutcomeFollows` and `LogIsAWord` state the main ones on the class, and `RunAction`
asks for the saved cooldown before it runs an action. Between two sections any other operations may move (`Yield`).

The theorems about runs are in `Locking`, `Accounting`, `WriteAhead`, `Cooldown`, `Spacing`, `RecoveryCap`, `Attempts`,
`Exhaustion`, `RecoverySpec`, `EventGrammar`, `LifeLog`, `EventLog`, `Serial`, `Effects` and `Restart`; `Lifting` takes a
property of one operation to the whole process, and `Carried` says what an operation under way has changed so far.
`Effects` is a description of whole operations of its own: it tells the record each exit leaves, field by field, by the
entries the operation left in the log, and uses none of the functions that describe single sections. `Solo` and `Paths`
build runs in which one operation moves alone, and `Witnesses` the runs that show a property to fail.
`MutexOrder.dfy` is one level below: the mutex and the slots taken and given back one at a time. `Health.dfy` is the
overall status, `Output.dfy` the bounded capture of command output, `Wrappers.dfy` the option type.

**The remote command compiler** (internal/command/runner.go). `ShellLexer.dfy` is token recognition and quoting of
POSIX.1-2017 XCU sections 2.2 and 2.3 as a machine that reads one character at a time; `ShellScript.dfy` parses and
runs simple commands, assignments, AND lists and the if clause (sections 2.9.1, 2.9.3, 2.9.4, 2.10).
`CommandLine.dfy`, `Remote.dfy` and `Builders.dfy` are the builders, `Fallback.dfy` runs what they build.

**Durable storage** (internal/persistence/json.go). `Persistence.dfy` is `Save` and `Load` over a file system that
keeps, in a crash, any choice of the directory changes since the last sync and anything at all of a file not synced.
`SaveCovers` ties it to the candidate sets of `System.dfy`, and `Stores.dfy` the two saves of `persistLocked` to its
`Persist`.

**Log verdict and configuration.** `LogVerdict.dfy` is the docker_log_pattern check, `Configuration.dfy` is
`dedupeMonitors`, `Normalize` and the rules of validate.go, `Dispatch.dfy` the two handler registries and the command
line each handler starts. `Text.dfy` holds the string functions they share.

## Where the code is weaker than it looks

- The stored cooldown keeps whole seconds only. Every later automatic start is a full cooldown away if and only if the
  cooldown is zero or ends on a whole second (`Spacing.FullCooldownExactly`); otherwise one may come up to a second
  early less a nanosecond, and does in some run (`Spacing.BoundIsTight`).
- recovery_exhausted is announced twice with no success in between if and only if some step counts a failed manual
  recovery while exhaustion stands announced (`Exhaustion.AnnouncedTwiceExactly`);
  `Witnesses.ExhaustionAnnouncedTwiceExample` is a run from a first start in which it happens.
- A monitor that was disabled and is enabled again keeps the status disabled after a restart until its next check
  begins: `NewManager` writes a status only over an empty one (`Restart.BootReloads`).
- A destination is taken apart into the configured user and host if and only if the host holds no `@`
  (`CommandLine.DestinationReads`).
- The cap on failed recoveries is stated of one process life: an interrupted recovery is not counted, and the save
  of an outcome may fail with no more than a log line.

## Model
| member | source | states |
|---|---|---|
| Cooldown.ActionsRunUnderSavedCooldown | internal/engine/manager.go:437-464 | Over every run from a blank disk: whenever a recovery action runs, every snapshot a crash could leave behind already holds that monitor's cooldown, start + cooldown in whole seconds |
| Cooldown.CooldownSurvivesCrashes | internal/engine/manager.go:437-465 | After an action has run, no automatic recovery of that monitor starts before the end of its cooldown, across other monitors' steps, failing saves, crashes and restarts |
| Cooldown.SavedStartsAreSpaced | internal/engine/manager.go:341 | In every run, crashes and restarts included, the automatic starts of one monitor whose save succeeded lie more than (cooldown - 1 s) apart, whether or not an action followed |
| Cooldown.SavedStartsAreFew | internal/engine/manager.go:341 | Any n + 1 of them in a row span more than n (cooldown - 1 s), which is the bound on recoveries in a window |
| Cooldown.EveryRecoveryIsListed | internal/engine/manager.go:437-460 | Every automatic recovery that got past its start is among those starts, with the time it keeps |
| Cooldown.AutomaticStartsAreFew | internal/engine/manager.go:341 | Within one process life, however it began, all automatic starts of a monitor, saved or not, finished or interrupted, lie more than (cooldown - 1 s) apart, and n + 1 of them span more than n times that |
| Cooldown.StartsAreSpaced | internal/engine/manager.go:440-442 | Within one process life every recorded start, manual or automatic, saved or not, finished or interrupted, keeps the next automatic start more than (cooldown - 1 s) away |
| Spacing.NextStartExactly | internal/engine/manager.go:777-786 | After an automatic start at t1 the next can come at t2 if and only if t2 is not before t1 and not before the whole second in which the cooldown ends |
| Spacing.FullCooldownExactly | internal/engine/manager.go:440-442 | Every later automatic start is a full cooldown away if and only if the cooldown is zero or ends on a whole second |
| Spacing.BoundIsTight | internal/engine/manager.go:440-442 | Some run has two automatic starts only cooldown - 1 s + 1 ns apart |
| Cooldown.GuardedAlways | internal/engine/manager.go:734-750 | A cooldown that stands in memory and in every candidate snapshot is never lost or shortened again in any run |
| Cooldown.GuardHolds | internal/engine/manager.go:777-786 | An automatic start of a guarded monitor happens only once the guarded second has passed |
| Accounting.CooldownNeverShrinks | internal/engine/manager.go:545-630 | No step moves a stored cooldown back |
| WriteAhead.Reachable | internal/engine/manager.go:734-750 | Every reachable state keeps the whole invariant: lock discipline, sound records in memory and in every candidate snapshot, sound operations, saved cooldowns of running recoveries |
| WriteAhead.RecordsAddUp | internal/engine/manager.go:308-331 | In every reachable state, crashes included, a record in memory or on disk has checks = successes + failures, recovery failures <= recoveries, and a status its counters justify |
| WriteAhead.InvStep | internal/engine/manager.go:30-34 | Every step, cancellation, crash and restart keeps the invariant |
| Restart.BootReloads | internal/engine/manager.go:42-91 | A start begins with every loaded record, up to the status of a configured monitor, with the trimmed history, no operation and free slots |
| Restart.ExhaustionOutlives | internal/engine/manager.go:605-607 | With a loaded snapshot in which the attempts are used up, no automatic recovery of that monitor starts or acts in the next life |
| Restart.MemoryIsKept | internal/engine/manager.go:734-750 | In every run the records in memory are among what a crash may leave |
| Restart.DiskIsMemory | internal/engine/manager.go:734-750 | When no save fails, the disk holds at every moment exactly the records and the history of memory |
| Restart.StateIsMemory | internal/engine/manager.go:734-750 | The state file alone does so whenever its own saves succeed |
| Restart.CrashLosesNothing | internal/engine/manager.go:42-91 | Then a crash at any moment loses nothing: the next start goes on with the records and the history of that moment |
| Accounting.AdvanceKeeps | internal/engine/manager.go:283-618 | Every single step keeps its record sound and its operation's local variables right |
| RecoverySpec.OutcomesFollowTheSpecification | internal/engine/manager.go:463-496 | In every run, an operation that hands over an outcome executed the actions and came to the verdict that the recursive specification gives for complete evaluations |
| RecoverySpec.EveryVerdictIsReached | internal/engine/manager.go:463-496 | Conversely, in every state in which the monitor is free, a manual recovery called next has a run to each outcome the specification allows |
| RecoverySpec.RecoveredMeansChecked | internal/engine/manager.go:478-496 | Recovered exactly when the evaluation after the last executed action found no failure; every earlier evaluation found one and no earlier action failed unless it is a recheck |
| RecoverySpec.AdvanceFollows | internal/engine/manager.go:463-496 | Every step of the recovery loop stays within the specification |
| RecoveryCap.CapHolds | internal/engine/manager.go:365-375 | In a crash-free run from a fresh state at most max_recovery_attempts automatic recoveries fail, and the counter has seen each of them |
| Attempts.CapIsAttained | internal/engine/manager.go:365-375 | For every monitor with checks and a cap some run from a first start has exactly max_recovery_attempts failed automatic recoveries, whatever its actions |
| Attempts.EveryFailureCounts | internal/engine/manager.go:575-576 | Without crash or recovery by hand the failure counter is the number of failed automatic recoveries |
| RecoveryCap.ExhaustedStaysQuiet | internal/engine/manager.go:605-607 | Once 0 < max_recovery_attempts <= failed recoveries, no automatic recovery starts and none of its actions runs for the rest of the process's life |
| RecoveryCap.CounterIsCapped | internal/engine/manager.go:575-576 | Without manual recoveries the failure counter never exceeds max_recovery_attempts, in memory or on disk, crashes included |
| RecoveryCap.ExhaustionAnnouncedAgain | internal/engine/manager.go:600-602 | While exhaustion stands announced, a step announces it again if and only if it counts a failed manual recovery |
| Witnesses.ExhaustionAnnouncedTwice | internal/engine/manager.go:600-602 | For every configuration with one attempt and a first action that can fail: some run from a first start logs recovery_exhausted twice without a success in between |
| Witnesses.ExhaustionAnnouncedTwiceExample | internal/engine/manager.go:600-602 | A concrete configuration and a run of it in which that happens |
| RecoveryCap.FailuresNeverShrink | internal/engine/manager.go:576 | The counter of failed recoveries is never reset |
| Exhaustion.ExhaustionIsAnnouncedOnce | internal/engine/manager.go:609-645 | In a crash-free run without manual recoveries of the monitor it never announces exhaustion twice with no success in between |
| Exhaustion.AnnouncedTwiceExactly | internal/engine/manager.go:600-645 | In every crash-free run the log announces exhaustion twice with no success in between if and only if some label counts a failed manual recovery while exhaustion stands announced |
| EventGrammar.LogIsAWord | internal/engine/manager.go:308-375 | In every crash-free run each monitor's events are a word of (check_succeeded, check_failed R?, check_failed recovery_exhausted, R)* with R = recovery_started (recovery_succeeded, recovery_failed recovery_exhausted?)? |
| LifeLog.LifeIsAWord | internal/engine/manager.go:308-375 | After any history, crashes included, what a monitor logs from a restart to the next crash is a word of the same grammar |
| EventGrammar.CountersAreTheLogs | internal/engine/manager.go:559-602 | Failures, recoveries, failed recoveries, failure streak and the exhausted flag can be recomputed from the log |
| EventGrammar.SuccessesAlternate | internal/engine/manager.go:828-835 | Between two check_succeeded events of a monitor there is a check_failed or a recovery_failed |
| EventGrammar.FreeMeansSettled | internal/engine/manager.go:283-306 | A monitor whose slot is free is neither checking nor recovering, and its status agrees with the log |
| EventLog.HistoryIsTheTail | internal/engine/manager.go:734-763 | Whatever saves failed and whatever crashed: the history in memory is the last events_max_entries of the untrimmed log, a clear dirty flag means the same history is on disk, and loading does not shorten it |
| EventLog.AppendTrimmed | internal/engine/manager.go:752-763 | Trimming at every append keeps what trimming the whole log would keep |
| EventLog.TrimTwice | internal/events/store.go:41-49 | Trimming on load after trimming on save changes nothing |
| EventLog.EventsSnapshot | internal/engine/manager.go:215-248 | The query returns the newest matching entries first: as many as asked for, 50 when nothing is asked for, never more than 500, and a match left out is older than all of them |
| EventLog.SelectionAnswers | internal/engine/manager.go:215-248 | What the query selects is such an answer, for every history and filter |
| System.Trim | internal/events/store.go:41-49 | The last limit entries, or everything when there is no limit |
| Serial.Serialisable | internal/engine/manager.go:660-676 | In any interleaving each monitor's record and events are those of its own operations run one after the other in the order in which they took its slot |
| Effects.EveryOperationHasItsEffect | internal/engine/manager.go:275-404 | In every interleaving each finished operation changed its monitor's record and log by exactly the effect of the way it ended, and was called off only with its context done |
| Effects.OperationEffect | internal/engine/manager.go:297-306 | An operation run alone, by its exit: every field of the record and every entry of the log, told without the sections. Suppressed exactly when a due recovery meets 0 < max_recovery_attempts <= failures; a recovery's last results, actions and reasons are those of its entry, and the actions can come to them |
| Locking.MutualExclusion | internal/engine/manager.go:660-676 | At most one operation of a monitor is past its lock in any run |
| Locking.Progress | internal/engine/manager.go:660-676 | In every reachable state with an unfinished operation some operation can move |
| Locking.OperationIsFinite | internal/engine/manager.go:463-496 | However the others interleave, an operation takes a bounded number of steps from its call to the release of its slot |
| Locking.CancelledEndsSoon | internal/engine/manager.go:463-472 | Once its context is done an operation takes at most five more steps, however the others interleave |
| Locking.CancelledStaysIdle | internal/engine/manager.go:406-419 | ... and none of them runs a check or an action, counts anything or starts a recovery |
| Locking.CancelledWaiterNeverRuns | internal/engine/manager.go:660-676 | A waiter cancelled before it takes the slot never runs its callback |
| Locking.HolderUndisturbed | internal/engine/manager.go:692-726 | Nobody but the holder of the slot changes the monitor's record or the holder's position |
| Locking.DisciplinedStep | internal/engine/manager.go:660-690 | Every step keeps: each taken slot has exactly one holder, each holder has its slot |
| MutexOrder.MutexIsShort | internal/engine/manager.go:660-690 | With the mutex and the slots taken and given back one at a time: under every schedule at most one goroutine is inside the mutex, at most one holds each slot, and whoever is inside the mutex can leave it at once |
| MutexOrder.NoDeadlock | internal/engine/manager.go:660-690 | Under every schedule, as long as some goroutine has not finished some goroutine can move |
| MutexOrder.StuckMeansDone | internal/engine/manager.go:660-690 | No schedule moves more often than there are instructions, and when nobody can move every goroutine is through and every lock given back |
| MutexOrder.EngineIsOrderly | internal/engine/manager.go:660-690 | Whatever operations and sections a goroutine of the engine goes through, it never asks for a slot inside the mutex nor for a second one, and gives all back |
| MutexOrder.EngineFinishes | internal/engine/manager.go:660-690 | So any number of them come to rest only when all are through |
| MutexOrder.ReversedOrderSticks | internal/engine/manager.go:678-690 | A goroutine that took a slot inside the mutex could deadlock with one that keeps the order |
| MonitorRecord.FailureReasonsEmpty | internal/engine/manager.go:413-419 | There are no failure reasons exactly when every check succeeded |
| MonitorRecord.FailureReasonsExactly | internal/engine/manager.go:413-419 | The reasons are the messages of the failing results, all of them and in their order |
| Engine.NewManager | internal/engine/manager.go:42-91 | No manager unless the first save succeeds; otherwise one whose state is the restart of the machine from what was loaded, reached from a blank disk by all earlier lives and this start, with every loaded record kept up to the status |
| Engine.Manager.Invariant | internal/engine/manager.go:30-34 | Every valid manager satisfies the whole invariant of reachable states |
| Engine.Manager.CooldownIsSaved | internal/engine/manager.go:437-464 | From its saved start on, a recovery's cooldown stands in every snapshot a crash may leave |
| Engine.Manager.OutcomeFollows | internal/engine/manager.go:463-496 | An outcome about to be applied is one the recursive specification of executeRecovery gives |
| Engine.Manager.LogIsAWord | internal/engine/manager.go:308-375 | What a monitor has logged in this life is a word of the event grammar |
| Engine.PrepareMonitors | internal/engine/manager.go:75-84 | Every loaded record keeps every field but the status, which is disabled for a disabled monitor, unknown for an empty one and else as loaded; a configured monitor without a record gets an empty one; records of other monitors stay |
| Engine.Manager.PersistLocked | internal/engine/manager.go:734-750 | State file first, event file when it is due; success exactly when both are saved, and the candidates a crash may leave |
| Engine.Manager.Append | internal/engine/manager.go:752-763 | Each event in turn, trimming every time |
| Engine.Manager.OpenCheck | internal/engine/manager.go:282-290 | First section of a cycle, in place: one step of the machine |
| Engine.Manager.CancelCheck | internal/engine/manager.go:297-302 | A check cancelled during its evaluation gets its old status back |
| Engine.Manager.ConcludeHealthy | internal/engine/manager.go:303-334 | A check without failures, in place: one step of the machine |
| Engine.Manager.ConcludeFailed | internal/engine/manager.go:336-357 | A failed check, in place, and whether recovery is due |
| Engine.Manager.CheckAttempts | internal/engine/manager.go:365-377 | Suppressed exactly when 0 < max_recovery_attempts <= failed recoveries |
| Engine.Manager.ReadStatus | internal/engine/manager.go:504-510 | The status a manual recovery falls back to |
| Engine.Manager.RecordStart | internal/engine/manager.go:437-460 | The start of a recovery is recorded and saved before anything runs; if the save fails nothing runs |
| Engine.Manager.AbortRecovery | internal/engine/manager.go:428-435 | The deferred restore of the status |
| Engine.Manager.CancelOutcome | internal/engine/manager.go:385-390 | A recovery cancelled before its outcome is not counted |
| Engine.Manager.CloseRecovery | internal/engine/manager.go:391-393 | The outcome is applied in one section, exhaustion included |
| Engine.Manager.EvaluateMonitor | internal/engine/manager.go:406-420 | The loop over the checks: results in order, reasons the messages of the failing ones, cut short only by cancellation, every step noted in the trace |
| Engine.Manager.RunAction | internal/engine/manager.go:464-477 | An action runs only with the cooldown of its recovery in every snapshot a crash may leave |
| Engine.Manager.RunOne | internal/engine/manager.go:463-490 | One recovery action and what follows it end where the machine does, by steps added to the trace |
| Engine.Manager.RunActions | internal/engine/manager.go:463-496 | The loop over the recovery actions and the last evaluation is interrupted, or hands over an outcome of the specification with the cooldown of this recovery in every snapshot a crash may leave |
| Engine.Manager.ExecuteRecovery | internal/engine/manager.go:422-497 | Interrupted with nothing to count, or an outcome of the specification to apply, its cooldown saved |
| Engine.Manager.Conclude | internal/engine/manager.go:383-393 | The section after executeRecovery, in both operations: the outcome is applied, or dropped when the context is done |
| Engine.Manager.RunMonitorCycle | internal/engine/manager.go:275-404 | The whole cycle is a sequence of machine steps between which other operations may move; it changed the monitor's record and log by exactly the effect of its exit, and was called off only with its context done |
| Engine.Manager.RunForcedRecovery | internal/engine/manager.go:499-541 | The same of a manual recovery |
| Engine.Manager.PreCheck | internal/engine/manager.go:499-510 | The evaluation before a manual recovery: its reasons, and the status to fall back to, or the cancellation |
| Engine.Manager.WithMonitorLock | internal/engine/manager.go:660-676 | Refused only with the context done, entered only with the slot taken and the context alive, for any number of looks at the slot |
| Engine.Manager.LockedCheck | internal/engine/manager.go:660-676 | A check behind the lock is finished with its slot given back, refused with the context done, or still waiting; the error returned is that of the context at its end |
| Engine.Manager.LockedRecovery | internal/engine/manager.go:660-676 | The same of a manual recovery |
| Engine.Manager.Release | internal/engine/manager.go:670 | The slot is free again |
| Engine.Manager.TriggerCheck | internal/engine/manager.go:102-119 | Unknown and disabled monitors are told apart, a done context is an error, and an answer is a new record with the contents after the finished check |
| Engine.Manager.TriggerRecovery | internal/engine/manager.go:121-141 | The same of a manual recovery; its own error comes exactly from an exit that was cancelled or interrupted, and after that of the context |
| Engine.Manager.LookupEnabledMonitor | internal/engine/manager.go:647-658 | Unknown, disabled and available monitors are told apart; only an available one begins an operation |
| Engine.Manager.MonitorSnapshot | internal/engine/manager.go:205-213 | A record of the caller's own with the contents of the moment |
| RuntimeState.MonitorState.Clone | internal/state/types.go:96-109 | A new object with the same contents |
| RuntimeState.MonitorState.EndRecovery | internal/engine/manager.go:543-603 | The outcome of a recovery, written field by field, and its events: the actions and the last evaluation become the last results, a success clears streak, exhaustion and reasons, a failure is counted and exhausts exactly when it uses up the attempts |
| RuntimeState.MonitorState.Suppress | internal/engine/manager.go:609-618 | A second suppression announces nothing |
| RuntimeState.MonitorState.Announce | internal/engine/manager.go:620-645 | The record and the event of an exhausted monitor |
| RuntimeState.MonitorState.Pass | internal/engine/manager.go:303-331 | The record and the event of a passed check |
| RuntimeState.MonitorState.Fail | internal/engine/manager.go:336-356 | The record and the event of a failed check |
| RuntimeState.MonitorState.BeginRecovery | internal/engine/manager.go:438-455 | The record and the event of a recorded start |
| Health.Summarise | internal/engine/manager.go:143-181 | The fold over the monitors: failed if any is, else degraded if any is, else unknown if any is in no known status, else recovering if any is recovering or checking, else healthy; each count is the number of monitors in that status |
| Health.WorstIgnoresOrder | internal/engine/manager.go:147-181 | The overall status does not depend on the order of the monitors |
| Health.FineMeansAllFine | internal/engine/manager.go:147-181 | Healthy or recovering exactly when every monitor is healthy, disabled, checking or recovering |
| Output.BoundedOutput.Write | internal/command/runner.go:35-44 | Every write keeps: the buffer is the longest allowed prefix of everything written, overflow exactly when some is missing |
| Output.Capture | internal/command/runner.go:30-44 | After any sequence of writes: the first min(cap, total) bytes, overflow if and only if some are missing |
| CommandLine.QuoteRoundTrip | internal/command/runner.go:239-241 | For every string the shell reads the quoted text as one word, all of it quoted, equal to the string |
| CommandLine.SSHRoundTrip | internal/command/runner.go:193-215 | The shell runs ssh with the intended arguments and no others, whatever characters host, identity file and remote command hold |
| CommandLine.SSHOperands | internal/command/runner.go:202-214 | The arguments, position by position: options, port, key file where they are given, then the trimmed user, an @ and the host, then the remote command |
| CommandLine.DestinationAddresses | internal/command/runner.go:208-212 | The destination ends in the host; before it stand the trimmed user and an @, or nothing when the user is blank |
| CommandLine.DestinationReads | internal/command/runner.go:208-212 | Split at its last @ it gives back user and host if and only if the host holds no @ |
| CommandLine.LineIsCommand | internal/command/runner.go:193-215 | A line of plain and quoted words is one command with exactly these arguments |
| Remote.TargetHosts | internal/command/runner.go:217-237 | The loop with its seen-set computes the list of distinct hosts |
| Remote.HostsInOrder | internal/command/runner.go:217-237 | Exactly the non-empty trimmed hosts, none twice, in the order of their first occurrence |
| Remote.BuildRemoteCommand | internal/command/runner.go:169-191 | The loop over the hosts builds the script |
| Remote.ParsesScript | internal/command/runner.go:183-190 | The script text lexes and parses to one block per host and a final exit |
| Fallback.FallbackIsCorrect | internal/command/runner.go:169-191 | For every non-empty host list and all answers, the one-host form included: hosts are asked in order, the next only after 255, and the exit status is the first other answer or 255 |
| Fallback.TriesDetermines | internal/command/runner.go:169-191 | That leaves no choice: calls and exit status are determined |
| Fallback.RunBlock | internal/command/runner.go:187 | One host's part of the script ends with its answer, or goes on exactly on 255 |
| Builders.ThreeLayers | internal/command/runner.go:154-156 | On every host asked, the remote shell runs docker exec with the container's name, and the shell in the container is given the command, both exactly as configured |
| Builders.TwoLayers | internal/command/runner.go:154-156 | The same of a local docker exec |
| Builders.ExecReads | internal/command/runner.go:155 | The remote command reads back as docker exec, container, sh -lc, command |
| Builders.InspectReads | internal/command/runner.go:147 | docker inspect with its format and the container |
| Builders.LogsReads | internal/command/runner.go:151 | docker logs with since and container; the redirection is the only other thing in it |
| Builders.RestartReads | internal/command/runner.go:159 | docker restart of the container |
| Builders.IsActiveReads | internal/command/runner.go:135 | systemctl is-active of the service |
| Builders.SystemdRestartReads | internal/command/runner.go:138-144 | systemctl restart of the service, through sudo exactly on an ssh target |
| Builders.SystemdRestartRuns | internal/command/runner.go:162-167 | Sent to the hosts of an ssh target, run as it is on any other |
| Text.DecimalRoundTrip | internal/command/runner.go:243-245 | The decimal text of a number reads back |
| Text.TrimTwice | internal/config/load.go:70 | A trimmed string has no white space at its ends and trimming it again changes nothing |
| Text.TrimExactly | internal/config/load.go:70 | Trimming takes away white space at the two ends, all of it and nothing else |
| Text.TrimsOnce | internal/config/load.go:70 | ... which leaves no choice |
| Persistence.Save | internal/persistence/json.go:45-72 | A crash after any step finds the old contents or the new bytes; after success only the new bytes, with no temporary file left; running programs see the old file or the new one; no other name in the directory can come to hold what it could not hold before |
| Persistence.Load | internal/persistence/json.go:16-42 | No file is an empty value, other read errors are errors, undecodable bytes give an empty value only once they stand under the backup name for good and are never lost on the way |
| Persistence.RenameIsAtomic | internal/persistence/json.go:68-70 | Renaming a stable file leaves the old contents or the new bytes |
| Persistence.SavedIsLoaded | internal/persistence/json.go:45-72 | What was saved with success is decoded again after any crash |
| Persistence.SaveCovers | internal/persistence/json.go:45-72 | A save does to the set of snapshots a crash may leave what the engine's model assumes |
| Persistence.OtherCovers | internal/persistence/json.go:45-72 | Saving one file leaves the snapshots a crash may leave of another file in the same directory as they were |
| Persistence.SaveBoth | internal/engine/manager.go:734-750 | The two saves of persistLocked in one directory: at every step a crash leaves of each file an old candidate or the new value, and at the end exactly what the engine's model assumes of each outcome |
| Stores.PersistBoth | internal/engine/manager.go:734-750 | The candidate sets the machine gives the two files after a save are those a crash can leave, for each way the save can end |
| Persistence.CrashFinds | internal/persistence/json.go:45-72 | Whatever a crash keeps is one of the contents the model allows |
| LogVerdict.RunDockerLogPattern | internal/checks/checks.go:283-338 | The loops fail the check exactly when at least one and at least match_count_threshold lines match, no later success supersedes them and enough different captures are among them; an invalid pattern is reported first |
| LogVerdict.CountPatternMatches | internal/checks/checks.go:622-656 | The number of lines some pattern matches, and the patterns that are first to match a line |
| LogVerdict.DistinctCaptures | internal/checks/checks.go:658-694 | The set of trimmed captures |
| LogVerdict.LatestTimestamps | internal/checks/checks.go:696-741 | The latest stamps of matching messages |
| LogVerdict.CountExactly | internal/checks/checks.go:622-656 | The count is the number of lines some pattern matches |
| LogVerdict.UncompiledExactly | internal/checks/checks.go:627-632 | The pattern reported is the first that does not compile; none exactly when all do |
| LogVerdict.SplitExactly | internal/checks/checks.go:743-753 | A line is stamped exactly when it is a time that parses, a space and the message |
| LogVerdict.CapturedExactly | internal/checks/checks.go:658-694 | The capture of a line is the group of the first pattern that has one there |
| LogVerdict.SupersededByLatest | internal/checks/checks.go:327-330 | Comparing the two latest stamps decides whether a success is later than every failure |
| LogVerdict.VerdictIgnoresOrder | internal/checks/checks.go:283-338 | Permuting the lines does not change the verdict |
| LogVerdict.FailingStaysFailing | internal/checks/checks.go:327-338 | A failing log stays failing after any line whose message matches no success pattern |
| LogVerdict.PassingStaysPassing | internal/checks/checks.go:283-338 | A passing log stays passing after any line that matches no failure pattern |
| Configuration.DedupeMonitors | internal/config/load.go:198-226 | Fails exactly on a blank id; otherwise every id once with its last definition, and the repeated ids |
| Configuration.DedupedIds | internal/config/load.go:198-226 | The ids come out trimmed, not blank, distinct and in the order of their first occurrence |
| Configuration.RepeatedExactly | internal/config/load.go:213-219 | Exactly the ids that occur twice or more are reported, each once |
| Configuration.LastDefinitionIs | internal/config/load.go:213-214 | What is kept of an id is one of its definitions with the id trimmed, and none comes after it |
| Configuration.DedupeTwice | internal/config/load.go:198-226 | Deduplicating again changes nothing and reports nothing |
| Configuration.NoDuplicateAfterDedupe | internal/config/load.go:74-76 | After dedupeMonitors, Normalize never reports a duplicate or a blank id |
| Configuration.Normalize | internal/config/load.go:66-146 | Rewrites the array in place: every field that was given stays, every one left out gets its default; its error is the first thing wrong with the result, in order |
| Configuration.NoProblemExactly | internal/config/load.go:66-146 | Normalize succeeds exactly when every canonical monitor is in order by itself and the ids differ |
| Configuration.CanonicalFills | internal/config/load.go:68-135 | The canonical form keeps everything that was given and fills in the literal defaults, in the monitor, its checks and its actions |
| Configuration.FilledIsCanonical | internal/config/load.go:68-135 | ... and nothing else does |
| Configuration.ProblemExactly | internal/config/load.go:90-143 | Nothing is wrong with a monitor exactly when its numbers are in range, its target, checks and actions are valid and there are some, and the ids of the checks differ |
| Configuration.FirstErrorExactly | internal/config/load.go:90-110 | Which error is reported: the first field out of range, in the order of the source |
| Configuration.TargetExactly | internal/config/validate.go:43-67 | A target is valid exactly when its trimmed transport is empty or local, or is ssh with a host, no blank fallback host and a port from 0 to 65535 |
| Configuration.NormalizeTwice | internal/config/load.go:66-146 | Normalize of what it left succeeds and changes nothing |
| Configuration.CanonicalTwice | internal/config/load.go:78-97 | Filling in the defaults twice is filling them in once |
| Configuration.NormalizeMonitor | internal/config/load.go:78-143 | One monitor with what it lacks filled in, or the first thing wrong with it |
| Configuration.NormalizeChecks | internal/config/load.go:111-128 | The checks of a monitor: default ids and names, distinct ids, valid types and settings |
| Configuration.NormalizeActions | internal/config/load.go:132-142 | The recovery actions of a monitor: default names, valid types and settings |
| Configuration.NormalMeansSupported | internal/config/validate.go:21-41 | The checks and actions of a normal monitor are of known types, its check ids differ, and what the engine reads of it is in range |
| Dispatch.TypesAreRegistered | internal/checks/checks.go:30-41 | The two registries have a handler for exactly the types the validator lets through |
| Dispatch.NothingIsRefused | internal/checks/checks.go:54-71 | No check and no action of a normal monitor ends in the unsupported-type branch of dispatch or in its handler's test for a missing setting |
| Dispatch.CheckIsValidExactly | internal/config/validate.go:69-135 | A check is valid exactly when it has a handler, the handler does not turn it away, what else the handler reads is in range, and every pattern compiles |
| Dispatch.ActionIsValidExactly | internal/config/validate.go:137-172 | An action is valid exactly when it has a handler that does not turn it away, and a time to sleep that parses |
| Dispatch.OwnCommands | internal/checks/checks.go:387-391 | A command check or action of a normal monitor runs the command as it is written; the types that need no command line start none |
| Dispatch.CheckArrives | internal/checks/checks.go:246-252 | From the configuration to the program that runs: a check of a normal monitor that goes through its target starts a command line that comes to exactly the intended words, on the machine itself or on the target's hosts in turn |
| Dispatch.ActionArrives | internal/actions/actions.go:64-114 | The same of the recovery actions, with sudo exactly on an ssh target |
| Configuration.ValidTargetHasHosts | internal/config/validate.go:43-67 | A valid target is local or an ssh target with a host to try |
| Configuration.NoFallback | internal/engine/manager.go:765-775 | On a normal monitor the engine never falls back on its own durations |

## Left out
- HTTP routing, authentication, JSON encoding and the browser interface: plumbing around the engine.
- Process execution, process groups, timeouts, HTTP, /proc, systemd and docker themselves: their outcomes are inputs.
- JSON of the two files: a saved snapshot is read back as it was; `SavedIsLoaded` takes that as a premise.
- Failure messages: reasons are kept as the parts they are joined from, not as one text.
- Fields copied from the configuration into the runtime record, event ids, monitor names, LastUpdatedAt and uptime: nothing depends on them.
- Time stamps that do not parse, in a loaded state or event file: a stored time is always a number of seconds.
- Negative durations and attempt limits: `Configuration.NormalMeansSupported` shows that a normalised configuration has none.
- Changing the configuration between two starts: the theorems across restarts are about one configuration.
- The read side of the mutex: readers exclude one another in `MutexOrder`, which only makes waiting longer. Go's memory model is not part of this model.
- Engine.Manager.WithMonitorLock: the number of looks at the slot is an argument; a caller that found it taken every time and is not cancelled is reported as still waiting.
- EventLog.EventsSnapshot: does not model the copying of events, which are values here.
- Health.Summarise: takes the statuses in configuration order; the other fields of the status report are copies.
- Environment overrides, defaults of the top-level settings and the rewriting of the configuration file after deduplication.
- Configuration.Normalize: does not say what a failed call leaves in the array; the caller drops it.
- Regular expressions, RFC 3339 and duration parsing: parameters of LogVerdict and Configuration. Whole lines and messages are matched separately, as in the code.
- LogVerdict.RunDockerLogPattern: takes the lines as the scanner delivers them, so not the cut at a line over its limit; the observations reported beside the verdict are left out but for the match count.
- LogVerdict.DistinctCaptures: does not model the sorting of the captures, which only the report uses.
- NUL characters: the quoting results hold of strings with a NUL too, which no operating system passes on.
- Strings are sequences of Unicode characters; bytes that are not valid UTF-8 are not modelled.
- Shell syntax the generated text does not use: command substitution, here-documents, pipelines, loops, globbing of unquoted words.
- Persistence.Save: does not model the durability of a directory that MkdirAll has just made, and takes the random temporary name to differ from the target's.
- Persistence.Load: does not model the clock in the backup name; the name is a parameter that differs from the target's.
- Cooldown.SavedStartsAreSpaced: a start whose save failed runs no action and a crash may forget it, so it is not listed across crashes; AutomaticStartsAreFew covers it within its process life.
- Spacing.FullCooldownExactly: speaks of monitors with at least one check and one recovery action, as the validator asks.
- The other checks and actions, apart from their types, settings and command lines.
- Installation scripts.
