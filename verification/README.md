# LocalFlow: a verified model

LocalFlow is an offline task scheduler: a controller that queues tasks in SQLite, starts them under
an executor, watches and stops them, keeps their output bounded, judges their logs, and shows them
in a web terminal. This project models its core in Dafny and proves what the code promises, or, where
the code promises less than it seems to, exactly when it does.

`dafny verify dfyconfig.toml` checks everything. Objects whose methods change fields are classes whose
methods are proved against a specification function; the laws about those functions are lemmas.

## How the modules follow the program

- **Task table and scheduler** — `TaskOrder` (keyset order), `TaskModel` (`Store`: compare-and-set
  transitions, stop snapshots, pages), `Scheduler` (one tick as a greedy walk), `QueueSweep` (a cursor
  moving over a queue from which tasks vanish), `QueueRuns` (the same over runs).
- **Task lifecycle** — `Lifecycle` is a state machine whose steps are the code between two awaits; the
  environment chooses the order, the exit codes, and when the controller crashes and restarts.
  `LifecycleSafety` holds the invariant, `LifecycleSteps` shows that each step keeps it,
  `LifecycleRuns` what follows for every run, `ForcedRestart` and `Abandonment` look at what can go wrong
  with a stop (`FirstSteps` holds runs to begin from), `TaskRows` says what each step makes of a row and
  `TaskEvents` what the event table tells of it, and `TaskService` (module `TaskServices`) is the
  object whose methods perform the steps. `StopWait` is the wait for one stop action, `StageText` the text
  in which a stop survives a restart, `Decimals` the numbers in it.
- **Streams** — `Text`, `UvmEvents`, `SummaryScan`, `VcsResults` (simulation verdicts from chunked
  logs), `Verdicts` (what such a verdict says about its log), `BoundedLog` (the size-limited log file),
  `LogSearch` (search in blocks), `Utf8`, `TerminalWindows` and `TerminalPaging` (row-bounded windows and
  the paging of the web terminal).
- **Graphs** — `Reachability`, `Variables` and `VariableResolver` (memoised references),
  `VariableMeaning` (what they resolve to), `Includes` (include closure), `ProcessFamily` (the processes
  below an owner), `OwnerLog` (the system calls of an owner and what it sends), `ProcessOwner` (the
  subreaper that owns a process family).
- **Shared** — `Wrappers` (optional values and results), `Collections` (facts about sequences and sets) and
  `Characters` (character classes).
- **Protocols** — `EventStream` and `EventChannel` (the resumable event stream), `Batches`,
  `BatchRuns` and `BatchStore` (seeds, all-or-nothing batches, idempotency), `BatchMeaning` (what a
  submission creates), `Commands` and `CommandRoundTrip` (the shell wrapper and its inverse),
  `CommandMeaning` (what is accepted and what a shell makes of it).

Inputs of the model that the program gets from outside: the executor's answers, exit codes, clock
readings, `waitpid` results, free disk space and failing writes, the order of coroutines, disconnects,
and path resolution. All of them are arbitrary unless a statement says otherwise.

## Where the code does not keep an unconditional promise

- Paging earlier in the terminal makes progress except from a stuck window: one that starts within the
  one to three continuation bytes that the file begins with, the next range ending behind them
  (`TerminalPaging.EarlierProgress` is the exact condition, `TerminalPaging.EarlierStuck` such a
  window). Paging later always makes progress.
- A log that starts with foreign content longer than the limit less the marker can pass the limit by
  up to the marker (`BoundedLog.ForeignFileOvershoots` gives the exact condition).
- A search finds every occurrence, in every file, exactly of the queries without a proper border
  (`LogSearch.FindsAllExactlyFor`, `LogSearch.BorderedQueryMisses`).
- `output_contains` is never missed exactly if a read and the needle together exceed the kept window
  by at most one byte (`StopWait.NeverMissedExactlyWhen`); reads of 65536 bytes can hide any needle
  of at most 512 characters.
- Over a stretch of a run the persisted stop stage climbs if and only if no step of it persists a stop
  action of a task that is already being forced (`LifecycleRuns.ClimbsExactlyWhen`, for one step
  `LifecycleRuns.StepFallsExactlyWhen`). That takes a crash in the middle of a forced stop
  (`LifecycleRuns.StageOnlyClimbs`), and from every forced stop of every run such a crash can lead to it
  (`ForcedRestart.ForcedStopCanStartOver`).
- While the controller serves, an active task has a coroutine that looks after it, except after an error
  of the executor's forced kill, which ends its stop sequence: `Abandonment.AbandonedExactlyWhen` says
  exactly when a task is left alone, `Abandonment.AbandonedStays` that only a restart or the forced kill
  of a shutdown comes back to it, and `Abandonment.AbandonmentHappens` is a run in which it happens.
- A replayed batch submission fails with a lookup error exactly when one of the first batch's tasks is
  gone; ageing alone never causes that, an eviction for size does (`BatchRuns.ReplayIsTheFirst`,
  `BatchRuns.AgeKeepsReplays`, `BatchRuns.EvictionBreaksReplay`).
- A frozen command line is shown as written exactly under the condition of
  `CommandRoundTrip.RoundTrip`.
- docs/stopping.md says that `max_timeout_seconds` counts from the start of an action. The code
  subtracts at most `timeout_seconds` for the time the action took to apply, so the hard deadline it
  computes can lie later; the promise still holds, because an action that outlasted its timeout is
  not waited for at all (`StopWait.NeverPastLimit`, `StopWait.SpentActionIsNotWaitedFor`).

## Model

| member | source | states |
|---|---|---|
| TaskOrder.AscendingUnique | src/localflow/storage.py:435-437 | There is only one ascending list of a set of (created_at, id) pairs, so the order of a page is determined |
| TaskOrder.RestIsAfter | src/localflow/storage.py:428-433 | What lies behind the n-th row in (created_at, id) order is exactly what the keyset condition with that row as cursor selects |
| TaskModel.Store.Transition | src/localflow/storage.py:440-512 | A transition changes the one row, and appends its event, exactly when the row exists in an expected state; otherwise nothing changes and it returns false |
| TaskModel.Store.SnapshotStop | src/localflow/storage.py:606-612 | The stop strategy is stored only when none has been stored |
| TaskModel.Store.ListTasks | src/localflow/storage.py:428-438 | A page is the first `limit` rows behind the cursor, in order, of the rows in the given states |
| TaskModel.TakeLeast | src/localflow/storage.py:435-437 | Ordering and limiting returns the first rows of the sorted set |
| Scheduler.ScanLimitIs | src/localflow/service.py:443-447 | A tick reads four times its capacity, but at least 500 rows and at most a page; without a limit a page |
| Scheduler.LaunchKeeps | src/localflow/service.py:472-488 | Starting a queued task whose keys are all free keeps mutual exclusion and adds exactly its keys to the held ones and the task to the active ones |
| Scheduler.WalkKeeps | src/localflow/service.py:461-488 | A walk over a page keeps mutual exclusion, starts no more tasks than the capacity, and stops early only when the capacity is used up |
| Scheduler.WalkSettles | src/localflow/service.py:461-488 | Every task that the walk scans is settled as a greedy walk in order would: started iff its keys are disjoint from all keys held at its turn, and a task left queued shares a key with an active task; no other row changes |
| QueueSweep.PageTakesLow | src/localflow/service.py:448-458 | A page of n rows contains the lowest rows, or reduces their number by n |
| QueueSweep.BehindPage | src/localflow/service.py:489-492 | Behind the last row of a full page lie exactly the rows behind the cursor that are not on the page |
| QueueSweep.SweepForward | src/localflow/service.py:448-492 | With capacity left, the rows behind the cursor are all examined, or gone, within ceil(rows/limit) ticks |
| QueueSweep.SweepWraps | src/localflow/service.py:454-458 | A sweep that starts in mid-queue finishes the rest, wraps and examines the rows before the cursor too |
| QueueSweep.SweepExaminesAll | src/localflow/service.py:443-492 | With capacity left and no arrivals, ceil(n/limit)+1 ticks examine every queued task or it has left the queue, whatever the cursor was and whatever leaves the queue meanwhile |
| QueueSweep.TickSweeps | src/localflow/service.py:426-492 | A scheduler tick that ends with capacity left is one step of such a sweep, with a page limit of at least 500 |
| QueueRuns.QueueShrinks | src/localflow/service.py:472-488 | Without a submission no step of a run adds to the queue |
| QueueRuns.TickLooks | src/localflow/service.py:461-488 | A tick that ends with capacity left has started every task it read, or left it queued sharing a key with an active task |
| QueueRuns.TickWaits | src/localflow/service.py:428-439 | A tick without capacity changes nothing, the cursor included |
| QueueRuns.TickMoves | src/localflow/service.py:443-492 | Of every tick with capacity, also one that uses it up: each queued row behind the cursor it read from and not behind the new cursor has left the queue or is blocked by an active task; every other row is as before; the new cursor is the last row examined, which is the last of a full page, or, with the capacity used up, the task started last; it starts over only when fewer than a page were left and all were examined |
| QueueRuns.BacklogIsSwept | src/localflow/service.py:443-492 | In every run, over a stretch without submissions and crashes in which every tick ends with capacity left, ceil(n/page size)+1 ticks come to each of the n queued tasks, whatever else happens in between: it leaves the queue or a tick finds it blocked by an active task |
| LifecycleSafety.MovedKeeps | src/localflow/storage.py:440-512 | A transition out of non-terminal states to a truthful row keeps rows truthful, terminal events unique, keys exclusive, and adds no active task |
| LifecycleSafety.TickKeeps | src/localflow/service.py:426-492 | A tick keeps these invariants, respects the limit, and changes only the rows it starts, which were queued |
| LifecycleSteps.StepKeeps | src/localflow/service.py:494-605 | Every step of every coroutine, its end by an uncaught error of the forced kill included, and every crash, restart and recovery step, keeps the whole invariant |
| LifecycleRuns.RunKeeps | src/localflow/service.py:426-605 | The invariant holds at every moment of every run from empty tables |
| LifecycleRuns.MutualExclusion | src/localflow/service.py:429-488 | In no run, restarts included, do two starting, running or stopping tasks share a mutex key |
| LifecycleRuns.ConcurrencyBounded | src/localflow/service.py:428-439 | In no run does the number of active tasks exceed the larger of the limit and the number active when the controller last started |
| LifecycleRuns.RowsAreTruthful | src/localflow/service.py:582-600 | In every run: an end time exactly in terminal states, succeeded only with exit code 0, failed only with another code, stopping or cancelled only with a recorded interrupt, and exactly one terminal event for an ended task, none for others |
| TaskRows.InterruptMeans | src/localflow/service.py:630-676 | An interrupt makes a queued task cancelled and ended with stage queued; a starting or running one without a stop sequence stopping with stage requested, its own actions or else SIGINT and SIGTERM stored, and a new sequence; nothing else changes |
| TaskRows.CancelledIsNeverStarted | src/localflow/service.py:634-643 | In every run a task cancelled while queued keeps exactly that row, and no later tick starts it nor does anything look after it |
| TaskRows.ReturnDecides | src/localflow/service.py:582-587 | When a process returns while its row is live, the decided state is cancelled if and only if an interrupt stage is recorded, else succeeded if and only if the code is 0 |
| TaskRows.CommitStores | src/localflow/service.py:589-604 | The commit stores the decided state, the code and an end in a row that is still active, and changes no other |
| TaskRows.DecisionStands | src/localflow/service.py:582-589 | Whatever happens between the return of a process and the commit but a crash, the decided state stays the decided one |
| TaskRows.OutcomeIsThatOfTheReturn | src/localflow/service.py:582-605 | In every run, over whatever happens between the return of a process and the commit but a crash, the task ends, if still active, in the state that the stage at the return and the code determine, with that code |
| TaskRows.RecoverMeans | src/localflow/service.py:294-352 | In every run recovery makes of a row: lost after a reboot; with a code and no running process, cancelled if and only if a stage is recorded, else by the code; running, unchanged with a waiter and, if a stage is recorded, a stop sequence; with nothing known, lost, or cancelled with 137 if it was being forced |
| TaskRows.StartMeans | src/localflow/service.py:494-529 | A successful start makes a starting task running and waited for, a failed one ends it as failed with 127; a row stopped meanwhile stays |
| TaskRows.NothingFoundMeans | src/localflow/service.py:561-577 | A task whose process neither runs nor is known to have ended is lost, if still active, and nothing else changes |
| TaskRows.SequenceBeginsMeans | src/localflow/service.py:692-702 | A stop sequence runs the stored actions from the index that the persisted stage names, else from the first |
| TaskRows.SequenceTurnMeans | src/localflow/service.py:703-741 | Each turn persists stop:k for the next action, behind the last one sigkill, and ends the sequence when the task is over |
| TaskRows.SequenceAppliesMeans | src/localflow/service.py:714-733 | An applied action is recorded and the turn passes to the next |
| TaskRows.ExitMeans | src/localflow/service.py:843-859 | A confirmed exit ends a live task as cancelled with the code found |
| TaskRows.ShutdownMeans | src/localflow/service.py:260-270 | A shutdown that has waited long enough records sigkill for a stopping task, in the place of its sequence |
| TaskRows.TickMeans | src/localflow/service.py:472-486 | The rows a tick changes were queued and are now starting with a start time and a starter |
| TaskRows.EndsExactlyWhen | src/localflow/service.py:494-605 | A live task ends in a step if and only if the step is an interrupt while queued, a failed start, a commit, a lost process, a confirmed exit, or its recovery when it no longer runs; no step removes a live row |
| TaskEvents.EventsTellStates | src/localflow/storage.py:440-512 | In every run the last event of every task tells its state, and tasks without a row have no events |
| LifecycleRuns.NoTaskIsAbandoned | src/localflow/service.py:494-529 | While the controller serves, every active task has a starter, a waiter or a stop sequence, unless it is being stopped and lost its stop sequence since the controller started |
| Abandonment.StepAbandonsExactlyWhen | src/localflow/service.py:734-746 | A step that leaves a task active takes the last coroutine away from it if and only if the task has no waiter and either, with no start under way, its stop sequence is lost (the forced kill raised, or a shutdown failed behind the cancellation), or its start fails when it is being stopped and has no sequence any more |
| Abandonment.AbandonedStays | src/localflow/service.py:644-676 | Nothing but a restart or the forced kill of a shutdown changes the row of an abandoned task or gives it a coroutine: another stop request does not |
| Abandonment.AbandonedExactlyWhen | src/localflow/service.py:685-746 | In every run, while the controller serves, an active task is without coroutine if and only if such a step came before and neither a restart nor the forced kill of a shutdown since |
| Abandonment.AbandonmentHappens | src/localflow/service.py:494-520 | Such a run exists for every task: it is stopped while it starts, every action is applied, the forced kill raises, and the start fails |
| LifecycleRuns.StepForward | src/localflow/storage.py:440-512 | No step moves a row back in the order queued, starting, running, stopping, terminal, changes a terminal row, the keys, or a stored stop strategy |
| LifecycleRuns.StepClimbs | src/localflow/service.py:702-746 | No step lowers the persisted stage in the order none, queued, requested, stop:0, stop:1, ..., sigkill, for a task whose forced stop, if it has come to one, is being confirmed or has lost its sequence; that stays so under every step but a crash in the middle of a forced stop |
| LifecycleRuns.StepFallsExactlyWhen | src/localflow/service.py:702-713 | From every state that the invariant allows, a step lowers the persisted stage of a task in that order if and only if it persists a stop action of a task that is active with stage sigkill |
| LifecycleRuns.ClimbsExactlyWhen | src/localflow/service.py:702-746 | Over any stretch of any run, crashes and restarts included, no later persisted stage is below an earlier one if and only if no step of the stretch persists a stop action of the task while it is being forced |
| LifecycleRuns.StageOnlyClimbs | src/localflow/service.py:702-746 | Such a fall needs a crash: over any stretch of any run that starts with a forced stop, if any, being confirmed or having lost its sequence, the persisted stage only climbs as long as no crash falls into the middle of a forced stop |
| LifecycleRuns.ForcedStopStartsOver | src/localflow/service.py:749-755 | A sequence that begins at sigkill persists stop:0 next, below sigkill |
| ForcedRestart.ForcedStopHappens | src/localflow/service.py:216-272 | Every task can come to be forced: it is started and stopped, and a shutdown loses patience |
| ForcedRestart.ForcedStopCanStartOver | src/localflow/service.py:274-352 | Every run that ends with a forced stop can go on, by a crash, a recovery over any number of pages that finds the task running, and a new sequence, to a step that lowers the stage of the task from sigkill to stop:0 |
| LifecycleRuns.GoneIsGone | src/localflow/service.py:98-111 | A purged task never reappears in a run |
| LifecycleRuns.LifeIsForward | src/localflow/storage.py:440-512 | Over any stretch of any run the rank of a task never decreases and a terminal row never changes |
| LifecycleRuns.KillIsLastResort | src/localflow/service.py:702-746 | In every run a stop sequence forces a live task only after every action of the stored list has been applied, in this life of the controller or an earlier one |
| LifecycleRuns.RestartResumes | src/localflow/service.py:692-702 | In every run a restart that finds stage stop:k resumes at action k of the same stored list, with every earlier action applied before |
| LifecycleRuns.RecoveryCoversEveryone | src/localflow/service.py:294-352 | In every run recovery ends having visited each task that was active at its start exactly once and in order, though it moves tasks out of the filter while paging; each is then over or has a waiter |
| LifecycleRuns.LiveOwnersAreKept | src/localflow/service.py:294-352 | In every run recovery leaves a task active if and only if the executor says that it runs, whatever exit code it also finds, and the host has not rebooted; the row is then unchanged, and the task gets a waiter and, if it was being stopped, a new stop sequence |
| TaskServices.TaskService.AllTasks | src/localflow/service.py:80-96 | Paging without a ceiling returns every task in the given states once, in order |
| TaskServices.TaskService.ScheduleTick | src/localflow/service.py:426-492 | The tick changes the tables, the cursor and the starters exactly as the state machine's step does |
| TaskServices.TaskService.WalkQueue | src/localflow/service.py:461-488 | The loop over a page is the greedy walk |
| TaskServices.TaskService.StartAnswered | src/localflow/service.py:494-529 | The end of `_start` is the step for its outcome |
| TaskServices.TaskService.WaitReturned | src/localflow/service.py:582-587 | What `_wait` decides before its last await is the step |
| TaskServices.TaskService.WaitCommitted | src/localflow/service.py:589-604 | What `_wait` commits after it is the step, with the outcome chosen before |
| TaskServices.TaskService.InterruptTask | src/localflow/service.py:630-671 | `interrupt` is the step: it cancels a queued task, starts a stop of a starting or running one with the default strategy stored first, and otherwise changes no table |
| TaskServices.TaskService.BeginSequence | src/localflow/service.py:692-702 | The start of a stop sequence picks the stored actions and the index of the persisted stage |
| TaskServices.TaskService.Escalate | src/localflow/service.py:703-745 | One turn of the sequence persists the next stage before its action, or sigkill after the last one, unless the task is over |
| TaskServices.TaskService.RecoverOne | src/localflow/service.py:294-352 | From the two answers of the executor and the reboot of the host, the branches of recovery make exactly the step of the state machine |
| StopWait.WaitStopAction | src/localflow/service.py:783-820 | The loop ends at the first pass that times out, finds the task over, is advanced by the user, or sees the needle, and says which; the deadline in force and the kept window are those of the specification |
| StopWait.NeverPastLimit | src/localflow/service.py:791-817 | Whatever is printed and however long the action took to apply, no pass goes on at or after max_timeout_seconds (timeout_seconds without it) from the start of the action, plus the pause between applying and waiting |
| StopWait.SpentActionIsNotWaitedFor | src/localflow/service.py:757-781 | An action that took its whole timeout to apply is not waited for |
| StopWait.TimesOutUnextended | src/localflow/service.py:791-802 | Until output extends the wait, a pass times out if and only if the remaining time has passed |
| StopWait.DecidesInOrder | src/localflow/service.py:802-820 | Before the timeout a pass ends because the task is over, else because the user advances, else only because the needle is in the output |
| StopWait.QuietWindow | src/localflow/service.py:808-814 | With extension, a pass times out exactly when the hard deadline has come or the output has been silent for a whole timeout |
| StopWait.PassesAreBounded | src/localflow/service.py:804-820 | With 50 ms between passes, the number of passes is bounded by the time up to the hard deadline |
| StopWait.WindowSees | src/localflow/service.py:815-818 | The kept window shows the needle exactly when it occurs within the last max(1024, twice its length) bytes |
| StopWait.SmallReadsMissNothing | src/localflow/service.py:815-818 | If each read and the needle together exceed the window by at most one byte, an output that goes unseen holds no needle |
| StopWait.NeverMissedExactlyWhen | src/localflow/service.py:806-818 | For every needle and every read size n: no wait goes on after the needle was printed, whatever the output and its split into reads of at most n bytes, if and only if n and the needle together exceed the kept window by at most one byte |
| StageText.StageRoundTrip | src/localflow/service.py:706-755 | The index read back from any stage text that the controller writes is where the sequence was |
| StageText.StagesDiffer | src/localflow/service.py:707 | Different stages have different texts |
| Decimals.DecimalParses | src/localflow/service.py:753 | `int()` of the decimal text of a number is the number |
| Decimals.SignParses | src/localflow/service.py:753 | So it does behind a sign |
| Decimals.UnderscoreParses | src/localflow/service.py:753 | An underscore between digits does not count |
| Text.CompactAbsorbs | src/localflow/results.py:27-29 | Compacting whitespace in a part first does not change the compacted whole |
| Text.CaseIsIgnored | src/localflow/results.py:12-17 | The patterns take capitals and small letters for the same |
| Text.FoldsAlike | src/localflow/results.py:12-17 | Only capitals are folded, to their small letters, and that makes no blank and no digit |
| Text.MatchStable | src/localflow/results.py:12-29 | A match that does not end in an open digit run stays as it is whatever text follows |
| Text.MismatchStable | src/localflow/results.py:12-29 | A mismatch against enough compacted text stays one whatever follows |
| Text.MatchCompact | src/localflow/results.py:12-29 | Compaction neither makes nor loses a match |
| UvmEvents.EventUnique | src/localflow/results.py:12-15 | At most one of the report patterns matches at a place, so their order does not matter |
| UvmEvents.EventStable | src/localflow/results.py:29-40 | An event that ends before the text does is not changed by later text |
| UvmEvents.EventGrows | src/localflow/results.py:29-40 | Later text can only lengthen an event |
| UvmEvents.AbsenceStable | src/localflow/results.py:29-43 | Where 18 characters show no event, no later text makes one start there |
| UvmEvents.EventsDoNotNest | src/localflow/results.py:29-40 | No event starts inside another |
| UvmEvents.RunCompact | src/localflow/results.py:26-29 | Scanning the compacted text gives the same report as scanning the text |
| SummaryScan.RegexIsGrammar | src/localflow/results.py:12-15 | On compacted text the two regular expressions find exactly the report grammar's events |
| SummaryScan.AcrossJoint | src/localflow/results.py:26-43 | Dropping settled text and keeping the last characters does not change the report of the whole text, whatever follows |
| SummaryScan.Scan.Feed | src/localflow/results.py:26-43 | One feed: for every continuation, scanning the kept text with it equals scanning the old kept text, the new text and it; it fails only with more than 4096 characters pending, and then a count field is longer than 4000 digits |
| VcsResults.PrefixDecides | src/localflow/results.py:59-64 | The kept prefix of a line decides whether it is a fatal or an error line |
| VcsResults.PrefixExtends | src/localflow/results.py:59-61 | The kept prefix can be extended segment by segment |
| VcsResults.BufferedFeeds | src/localflow/results.py:26-43 | Feeding keeps the buffered report equal to the report of all text so far, for every continuation |
| VcsResults.Consumed | src/localflow/results.py:53-65 | One segment updates the fatal and error counts to those of the whole text, reset at a new report header |
| VcsResults.Evaluation.Consume | src/localflow/results.py:53-65 | The closure's state after a segment is the evaluation of the text so far |
| VcsResults.ConsumeChunk | src/localflow/results.py:67-71 | So is the state after a chunk, wherever its line breaks lie |
| VcsResults.EvaluateChunks | src/localflow/results.py:46-80 | However a log is cut into chunks, status and count are those of the whole text; the only other outcome is the rejection of a text with a count field of more than 4000 digits |
| Verdicts.ReportMeans | src/localflow/results.py:26-43 | With an event for every position at which one starts: the headers are counted, and of each name the last count behind the last header is kept |
| Verdicts.DiagnosticsAreLines | src/localflow/results.py:56-65 | The diagnostic counts are the numbers of diagnostic lines that end behind the last header |
| Verdicts.VerdictMeans | src/localflow/results.py:74-80 | The verdict on every text is fatal with the sum of its last FATAL count and its fatal lines iff that is positive; else error with the sum for ERROR iff that is positive; else a failure iff the log has an event but lacks one of the two counts; else passed |
| Verdicts.DiagnosticMeans | src/localflow/results.py:16-17 | Which lines count as fatal and as errors |
| Verdicts.CountIsRead | src/localflow/results.py:39 | A count is the number that its digits write |
| VcsResults.WorstSnoc | src/localflow/results.py:83-117 | The worst status of logs with one more log |
| VcsResults.OneMore | src/localflow/results.py:83-117 | The fold keeps the worst status so far and the summed count of the logs that have it |
| VcsResults.EvaluateLogs | src/localflow/results.py:83-117 | The verdict over several logs is the worst status with the sum of the counts of the logs that have it; the first log that cannot be judged decides an error |
| Verdicts.WorstMeans | src/localflow/results.py:85-116 | The worst status is fatal iff a log is fatal, and passed iff all are |
| Utf8.BoundaryIff | src/localflow/terminal_windows.py:35-51 | In valid UTF-8 a position is a character boundary exactly when no continuation byte stands there |
| Utf8.ShortRuns | src/localflow/terminal_windows.py:35-51 | Valid UTF-8 has no four continuation bytes in a row |
| Utf8.EncodedIsRead | src/localflow/service.py:923 | Decoding reads every character back from its octets, whatever follows them |
| Utf8.ReadIsEncoded | src/localflow/service.py:923-931 | What decoding recognises as a character is the encoding of the character it reads, so offsets counted in encoded text are those of the file |
| TerminalWindows.TerminalWindow | src/localflow/terminal_windows.py:5-52 | The binary search and the alignment loops compute the window of the specification, for all arguments and a missing file |
| TerminalWindows.BinarySearchExact | src/localflow/terminal_windows.py:20-34 | Because the cost of a part is at most the cost of the whole, where the search stops is the largest part that fits |
| TerminalWindows.WindowFits | src/localflow/terminal_windows.py:5-52 | The window lies in the clipped request, costs at most the row limit, is not empty for a non-empty request, keeps the anchored edge, and four more bytes would not fit |
| TerminalWindows.CutEdgeIsBoundary | src/localflow/terminal_windows.py:35-51 | In valid UTF-8 a cut edge is a character boundary |
| TerminalWindows.ReachesExactly | src/localflow/terminal_windows.py:20-51 | A window reaches a character boundary of its request if and only if the text up to there, or from there on, fits the rows |
| TerminalWindows.HitIsShown | src/localflow/terminal_windows.py:20-34 | The window of a hit begins at most 1024 bytes before it, and with at least three columns shows the hit and at least 63 bytes behind it, as far as the request goes |
| TerminalPaging.RoomForFour | frontend/src/App.jsx:403-414 | Next to a quarter of a window that fits there is always room for four more bytes |
| TerminalPaging.OverlapFits | frontend/src/App.jsx:403-414 | An overlap with four bytes beyond it fits in the row limit |
| TerminalPaging.LaterProgress | frontend/src/App.jsx:410-421 | From any served window, paging later serves a window that starts no later than the old end and ends behind it |
| TerminalPaging.EarlierProgress | frontend/src/App.jsx:387-409 | From any served window that does not start the file, paging earlier serves a window that ends no earlier than the old start; it starts before it if and only if the old window does not start within the one to three continuation bytes that the file begins with, the next range ending behind them |
| TerminalPaging.CutAtStart | src/localflow/terminal_windows.py:44-51 | A window cut at the start of the file skips the continuation bytes that the file begins with exactly if there are at most three of them and something follows |
| TerminalPaging.EarlierStuck | frontend/src/App.jsx:387-409 | A concrete file that starts with a continuation byte, and a served window that paging earlier does not move |
| TerminalPaging.LaterReachesEnd | src/localflow/api.py:1366-1382 | Paging later again and again reaches the end of the file and leaves no gap |
| TerminalPaging.EarlierReachesStart | src/localflow/api.py:1366-1382 | From any served window of any file, paging earlier again and again comes to the start of the file, or to a stuck window within its first three bytes, and leaves no gap |
| TerminalPaging.ValidStartsClean | src/localflow/api.py:1366-1382 | A valid file has no stuck window, so it is paged back to its start |
| TerminalPaging.TerminalView.LoadAtEdge | frontend/src/App.jsx:376-421 | A scroll or wheel event at an edge requests the range of the paging arithmetic in the right direction, or changes nothing |
| TerminalPaging.TerminalView.StartEarlier | frontend/src/App.jsx:387-409 | The earlier branch, with the window re-anchored to the live end first when output has moved on, and undone when that fails |
| TerminalPaging.TerminalView.StartLater | frontend/src/App.jsx:410-421 | The later branch |
| TerminalPaging.TerminalView.Reopen | src/localflow/api.py:1366-1382 | The server's answer to the requested range becomes the rendered window |
| TerminalPaging.TerminalView.ScrollPast | frontend/src/App.jsx:376-421 | One scroll event with the server's answer, in a following or a frozen view: past the lower edge the window always moves on, past the upper edge it moves back exactly if the rows it starts from are neither the first nor stuck, and otherwise nothing changes |
| Variables.OkIsAcyclic | src/localflow/variables.py:97-108 | A name that resolves reaches no unknown name, no name being resolved and no cycle |
| Variables.SameVar | src/localflow/variables.py:97-108 | A name resolves to the same value below every stack that holds none of the names it leads to |
| Variables.StructureIsDenoted | src/localflow/variables.py:110-129 | A name resolves to a list or dictionary exactly when its chain of whole-value references ends at one |
| Variables.ResolvesExactlyWhen | src/localflow/variables.py:97-129 | A value resolves if and only if every name it leads to is known and on no reference cycle, and no structured value is embedded in text, in it or in the value of such a name |
| VariableMeaning.RefAtIs | src/localflow/variables.py:11 | A reference starts exactly where a name follows between a dollar sign with a brace and a closing brace |
| VariableMeaning.WholeRefIs | src/localflow/variables.py:117-119 | A text is a whole-value reference exactly if it is one from end to end |
| VariableMeaning.PiecesSpell | src/localflow/variables.py:121-129 | The pieces of a text spell it out, and each is a reference exactly where one starts |
| VariableMeaning.ValueIsFilledIn | src/localflow/variables.py:110-129 | A resolved value is the value with that of each variable in the place of its references: as it is where a text is nothing else, as text inside longer text, element by element in lists and dictionaries |
| VariableMeaning.VariableIsFilledIn | src/localflow/variables.py:97-108 | A variable resolves to its last value, filled in; a deferred one stays a reference |
| VariableMeaning.ValueErrorIsReal | src/localflow/variables.py:102-126 | Every reported cycle is a chain of references that comes back to itself, every reported unknown name is unknown and referred to, and every reported structure is one |
| VariableResolver.Flatten | src/localflow/variables.py:66-73 | Flattening makes the assignments of a document in order, each path with its last value |
| VariableResolver.LastValueIsLast | src/localflow/variables.py:66-73 | The value of a path is that of its last assignment |
| VariableResolver.NestedIsDotted | src/localflow/variables.py:66-73 | A value that stands below a chain of keys is assigned to the path that joins them with dots |
| VariableResolver.WinnerIsLast | src/localflow/variables.py:90-93 | The winner of a name is the last layer that mentions it |
| VariableResolver.OneMoreLayer | src/localflow/variables.py:90-93 | Adding a layer keeps that later layers win, in values and sources |
| VariableResolver.VariableResolver.constructor | src/localflow/variables.py:83-95 | Every name has the value and the source that the last layer mentioning it gives it |
| VariableResolver.LeadsIsClear | src/localflow/variables.py:98-99 | What the memo may answer early cannot hide a cycle: nothing on the stack lies below a resolvable name that the stack leads to |
| VariableResolver.VariableResolver.Variable | src/localflow/variables.py:97-108 | With the memo, a name resolves to the value, or fails with the error, that it does without |
| VariableResolver.VariableResolver.Resolve | src/localflow/variables.py:110-129 | So does any value; the memo stays sound |
| VariableResolver.VariableResolver.Substitute | src/localflow/variables.py:121-129 | Substitution in text renders the pieces in order and fails at the first bad one |
| Includes.DependencyScan.Visit | src/localflow/config_repository.py:115-130 | A visit records the targets of everything it newly visits, and only what is reachable |
| Includes.Dependencies | src/localflow/config_repository.py:106-133 | The dependencies of a file are exactly the files reachable from it by one or more includes, missing targets and cycles included |
| Includes.AffectedBy | src/localflow/config_repository.py:135-142 | The files affected by one are exactly it and the listed files that reach it |
| Reachability.ClosedHoldsReachable | src/localflow/config_repository.py:115-130 | A set that holds the successors of a node and of its own members holds everything reachable |
| ProcessFamily.Descendants | src/localflow/process_owner.py:20-33 | The worklist finds exactly the processes reachable by the child relation |
| ProcessFamily.EventKeeps | src/localflow/process_owner.py:72-100 | Forks, double forks, exits and adoption keep the family below the owner, and nothing changes a leader status once reaped |
| ProcessFamily.EventMeans | src/localflow/process_owner.py:72-100 | A fork adds one living child, an exit leaves a zombie and passes its children on to their heir, a reaping removes the zombie; no other process changes |
| ProcessFamily.FamilyHasOwnChild | src/localflow/process_owner.py:106-116 | While the family has a member, the owner has a child of its own, so `waitpid` cannot report that there is none |
| ProcessFamily.FamilyIsDescendants | src/localflow/process_owner.py:36-37 | The descendants of the owner are exactly its family |
| OwnerLog.RoundTakesRequest | src/localflow/process_owner.py:93-122 | A control round takes up the message it receives, else the last signal since the round before, else nothing |
| OwnerLog.RoundSends | src/localflow/process_owner.py:123-129 | A round sends its request to the whole family of that moment, and from the first SIGKILL on every round sends SIGKILL to the whole family of its moment |
| OwnerLog.OtherCallsSend | src/localflow/process_owner.py:130-141 | Nothing else is sent, except SIGKILL to the whole family at a failure and then whenever nothing is left to reap |
| OwnerLog.RoundsFollowReaping | src/localflow/process_owner.py:105-122 | A control round follows exactly a reaping that leaves children of which none has exited |
| ProcessOwner.Owner.WaitPid | src/localflow/process_owner.py:108-116 | One exited child of the owner is reaped with its status, or no child has exited, or there is none |
| ProcessOwner.Owner.Reap | src/localflow/process_owner.py:106-116 | Reaping goes on until no child is left, or none has exited |
| ProcessOwner.Owner.Forward | src/localflow/process_owner.py:123-129 | A requested signal goes to the whole family of that moment, then SIGKILL once forced |
| ProcessOwner.Owner.Round | src/localflow/process_owner.py:117-129 | A control round leaves no request pending, and its entry in the log of system calls is the one due |
| ProcessOwner.Owner.Drain | src/localflow/process_owner.py:130-141 | After a failure the owner goes on killing and reaping until the family is gone, discarding what the reaped processes report, the leader too; then the failure surfaces |
| ProcessOwner.Owner.Conclude | src/localflow/process_owner.py:143-148 | The exit code, or the signal the owner dies by, is the leader's |
| ProcessOwner.Owner.Own | src/localflow/process_owner.py:72-148 | Over every course of events the log of system calls is one that must be, one entry for each moment, everything sent is what that log demands, and `own` ends in any way only when no process of the family is left, with the leader's status |
| LogSearch.Disjoint | src/localflow/service.py:902-925 | Occurrences of a border-free query never overlap |
| LogSearch.MatchInPrefix | src/localflow/service.py:919-925 | What occurs in the bytes read occurs in the file, and what ends in them is seen |
| LogSearch.SearchBlock | src/localflow/service.py:919-953 | The loop over the matches of one block returns the specified hits, with the line computed from the lines before the block |
| LogSearch.SearchNext | src/localflow/service.py:915-956 | One block with its overlap keeps the line count and the overlap right for the block after it |
| LogSearch.SearchLog | src/localflow/service.py:889-957 | The search returns the specified result: for every query true occurrences with true byte offset and line; for a border-free query every occurrence of the file once and in order over any number of blocks, up to the cut, truncated saying exactly whether there are more |
| LogSearch.BlockScan | src/localflow/service.py:919-953 | What one block adds: true hits that do not overlap and, for a border-free query, all that newly end in it |
| LogSearch.SearchIs | src/localflow/service.py:889-957 | The same about the result as a function of file, query and limit |
| LogSearch.FindsAllExactlyFor | src/localflow/service.py:889-957 | For every query that some text spells: the search finds all its occurrences in every file, unless cut, if and only if the query has no border |
| LogSearch.BorderedQueryMisses | src/localflow/service.py:919-953 | For every query with a border there is a file of one block with two overlapping occurrences of which an uncut search reports at most one |
| BoundedLog.LogFile.WriteSome | src/localflow/log_files.py:108-121 | A write system call stores a beginning of the data, or fails and stores nothing |
| BoundedLog.Open | src/localflow/log_files.py:66-90 | A limit without room for the marker is rejected; otherwise opening keeps a sound log sound |
| BoundedLog.BoundedLogWriter.constructor | src/localflow/log_files.py:66-90 | What opening does to the integrity record, and whether the writer starts stopped |
| BoundedLog.BoundedLogWriter.MarkIncomplete | src/localflow/log_files.py:92-106 | The record says incomplete with the reason, and the writer has stopped |
| BoundedLog.BoundedLogWriter.Append | src/localflow/log_files.py:108-120 | All of the data is stored over any number of partial writes, or a beginning of it with a recorded error |
| BoundedLog.BoundedLogWriter.Write | src/localflow/log_files.py:122-151 | One write of any size: stored whole, cut with the marker, or refused, with the record to match; a stopped writer changes nothing |
| BoundedLog.SoundWrites | src/localflow/log_files.py:122-151 | A write keeps a log sound: without faults the file is the bounded input, it never passes the limit, and complete implies that file and input are equal |
| BoundedLog.OpenSound | src/localflow/log_files.py:66-90 | Reopening keeps a log sound |
| BoundedLog.RunSessions | src/localflow/log_files.py:63-151 | Over any split of the input into writes and reopened sessions with one limit, with any faults, the log stays sound |
| BoundedLog.ForeignFileOvershoots | src/localflow/log_files.py:141-149 | Some write makes a log of foreign content pass the limit if and only if the content leaves no room for the marker |
| EventStream.PageLinked | src/localflow/storage.py:525-538 | A page holds at most 500 rows and leaves out nothing between its rows but what was purged |
| EventStream.StepKeeps | src/localflow/api.py:801-830 | Insertions, retention, every await of the server loop, deliveries and disconnects keep the chain from the client over the connection to the table unbroken |
| EventStream.NothingLostOrRepeated | frontend/src/connections.js:17-48 | In every run, what the listeners got is increasing, stored, above the first ready and up to the cursor, and nothing in that range is missing unless retention purged it |
| EventStream.ExactlyTheStored | frontend/src/connections.js:17-48 | While nothing is purged, the dispatched ids are exactly the stored ids above the first ready up to the cursor, in order |
| EventStream.CaughtUp | src/localflow/api.py:810-824 | When a fetch finds nothing and nothing is on the way, the client has everything |
| EventStream.LatestIs | src/localflow/storage.py:540-542 | A client without a cursor starts at the newest event that is left, or at 0 if none is |
| EventChannel.EventChannel.OnMessage | frontend/src/connections.js:32-41 | The client's callback is the protocol's receive step |
| EventChannel.EventChannel.OnClose | frontend/src/connections.js:42-47 | It reconnects after the doubled delay unless closed or refused, and counts the attempt only then |
| EventChannel.BackoffGrows | frontend/src/connections.js:45 | Delays never shrink while failures go on and stay between 1 and 30 seconds |
| EventChannel.BackoffDoubles | frontend/src/connections.js:45 | The first delay is a second and each further one doubles, up to half a minute |
| EventChannel.EventSocket.constructor | src/localflow/api.py:801-802 | A connection accepted with the client's cursor is the protocol's connect step |
| EventChannel.EventSocket.Start | src/localflow/api.py:802-804 | Choosing the first cursor and sending ready is the protocol's step |
| EventChannel.EventSocket.Fetch | src/localflow/api.py:810 | Reading the next page is the protocol's step |
| EventChannel.EventSocket.SendNext | src/localflow/api.py:819-823 | Sending one event and moving the cursor is the protocol's step |
| EventChannel.EventSocket.Beat | src/localflow/api.py:824 | So is the heartbeat |
| EventChannel.EventSocket.Pass | src/localflow/api.py:810-824 | One pass is a fetch, one send for each event of the page and a heartbeat; it sends the page in order and the cursor follows |
| EventChannel.PassIs | src/localflow/api.py:810-824 | The steps of a pass are one fetch, then nothing but sends, then one heartbeat |
| EventChannel.StepsKeep | src/localflow/api.py:805-827 | Any sequence of such steps keeps the chain from the client to the table unbroken |
| EventChannel.SelectAfter | src/localflow/storage.py:525-538 | The query returns the first 500 rows above the id |
| BatchRuns.SeedsExtend | src/localflow/storage.py:122-137 | Allocating seeds for a draft keeps seeds increasing per namespace up to the counter, under any clock |
| BatchRuns.StepKeeps | src/localflow/storage.py:196-325 | Creation, ending, eviction and expiry keep seeds increasing, rows' seeds issued, and batch links pointing at rows |
| BatchRuns.SeedsIncrease | src/localflow/storage.py:122-137 | In every run and under any clock the seeds of committed tasks strictly increase per namespace in commit order |
| BatchRuns.LiveSeedsDiffer | src/localflow/storage.py:169-194 | No two tasks of the table hold the same seed of a namespace |
| BatchRuns.AllOrNothing | src/localflow/storage.py:234-325 | In every run a submission that does not create the batch changes nothing; one that does adds exactly one row per draft, resolved against its own seeds, leaves other rows alone, and reads back in order |
| BatchRuns.ReceiptLasts | src/localflow/storage.py:634-651 | A receipt stays as it is until an expiry with a later cutoff |
| BatchRuns.ReplayIsTheFirst | src/localflow/storage.py:244-258 | Until its receipt expires, a repeated submission under the same actor, route and key changes nothing and returns the first receipt, or a lookup error if and only if one of the first tasks is gone |
| BatchRuns.AgeKeepsReplays | src/localflow/service.py:370-378 | Without evictions for size and without a clock that turns back over a task's life, every replay finds its tasks |
| BatchRuns.EvictionBreaksReplay | src/localflow/storage.py:660-674 | A concrete run: create, end, evict for size; the same request then fails with a lookup error |
| BatchMeaning.CreatedExactlyWhen | src/localflow/storage.py:234-325 | A submission creates its batch if and only if its key has no receipt, the batch and its tasks are new and different, every draft can become a row, and no write fails; the batch and its receipt are then stored |
| BatchMeaning.MaterializedMeans | src/localflow/storage.py:169-194 | A draft becomes a row exactly if it validates and, with deferred values, refers only to them and hides no custom field; the payload is then filled in with the text of its own seeds |
| BatchMeaning.SeedStands | src/localflow/storage.py:176-184 | A deferred name stands for the decimal text of the seed of its last deferral, and no other name is known |
| BatchMeaning.SeedIs | src/localflow/storage.py:122-137 | Each seed is the clock at its turn, or one more than the last of its namespace if the clock is not beyond that |
| BatchMeaning.DeletedMeans | src/localflow/storage.py:653-658 | Deleting tasks removes exactly their rows, their links, and the batches without a link left |
| BatchMeaning.ExpiryMeans | src/localflow/storage.py:634-651 | Expiry removes exactly the tasks that ended, and the receipts that were made, before the cutoff |
| BatchMeaning.EvictionMeans | src/localflow/storage.py:660-674 | Eviction removes a task that has ended and leaves any other, and every receipt, alone |
| Batches.RenderingParses | src/localflow/storage.py:181-185 | The text of a seed reads back as the seed |
| BatchStore.BatchStore.constructor | src/localflow/storage.py:69-117 | A new store is empty |
| BatchStore.BatchStore.AllocateDeferred | src/localflow/storage.py:122-137 | The value is the larger of the clock and one more than the last, and becomes the counter |
| BatchStore.BatchStore.Materialize | src/localflow/storage.py:169-194 | The payload is resolved against exactly the allocated values; unknown names, embedded structures, collisions and rejected results fail |
| BatchStore.BatchStore.CreateTask | src/localflow/storage.py:196-232 | One task, or an error and every table as before |
| BatchStore.BatchStore.CreateBatch | src/localflow/storage.py:234-325 | The in-place transaction with rollback has the outcome and the tables of the specification, replays included |
| BatchStore.BatchStore.DeleteTasks | src/localflow/storage.py:653-658 | Deletion removes the rows, their links, and the batches that have no links left |
| BatchStore.BatchStore.PurgeTerminalTask | src/localflow/storage.py:660-674 | Eviction deletes one ended task, and nothing otherwise |
| BatchStore.BatchStore.PurgeRetention | src/localflow/storage.py:634-651 | Expiry deletes the tasks that ended, and the receipts that were made, before the cutoff |
| BatchStore.ResolverKnowsSeeds | src/localflow/storage.py:181 | A resolver over the allocated layer knows exactly the allocated values |
| Commands.GoodLinesJoin | src/localflow/models.py:140-160 | Lines that neither start with a hash nor hold a boundary stay free of boundaries when joined |
| Commands.SafeThenBoundary | src/localflow/models.py:201-213 | Behind text in which no boundary can start, splitting at the first boundary gives what follows it |
| Commands.QuoteIsSafe | src/localflow/models.py:99-102 | A quoted text in which no boundary occurs lets none start in it, whatever follows |
| Commands.QuoteKeepsBoundary | src/localflow/models.py:99-102 | Quoting does not hide a boundary |
| CommandRoundTrip.SourcedBody | src/localflow/models.py:125-190 | With sources, in all three shell families, the text behind the first boundary is the user's command exactly when no path holds the boundary |
| CommandRoundTrip.RoundTrip | src/localflow/models.py:51-213 | A command line that is normalised, frozen and shown again is what the user wrote if and only if, with sources, no resolved path and not the directory holds the boundary, and, without, the line holds neither boundary text |
| CommandRoundTrip.OneLinePathsComeBack | src/localflow/models.py:105-213 | Paths without line breaks meet that condition |
| CommandRoundTrip.SourcesInOrder | src/localflow/models.py:137-187 | The sources are loaded in order, each followed by its check |
| CommandRoundTrip.SourceIsChecked | src/localflow/models.py:99-102 | Each source is loaded by a command that names it quoted, and a failure ends the shell |
| CommandMeaning.QuoteIsRead | src/localflow/models.py:99-102 | A shell reads a quoted text as one word with that text as its value |
| CommandMeaning.NormalizeMeans | src/localflow/models.py:51-64 | Which command lines and argument lists are accepted, and what becomes of them |
| CommandMeaning.SourcesMean | src/localflow/models.py:67-83 | Which source lists are accepted: 1 to 64 paths with text and without NUL, stripped, in order |
| CommandMeaning.StripMeans | src/localflow/models.py:67-83 | Stripping takes the blanks off both ends and nothing else |
| CommandMeaning.BaseNameIs | src/localflow/models.py:116 | The name of a shell is the last part of its path |
| CommandMeaning.HeaderMeans | src/localflow/models.py:120-187 | `sh` and `dash`, and no other shell, are given the function that loads their sources; `csh` and `tcsh` begin with a prompt, and other shells with nothing |
| CommandMeaning.FreezeMeans | src/localflow/models.py:105-198 | A wrapped command changes to the directory, loads the sources, changes to the directory again and goes on with the command of the user; other commands and arguments stay |
| CommandRoundTrip.FreezeOnce | src/localflow/models.py:105-198 | Freezing a frozen command, with whatever directory and sources, changes nothing |
| CommandRoundTrip.ResolveSourceFiles | src/localflow/models.py:86-96 | The loop resolves each stripped path in order, or rejects the list |
| CommandRoundTrip.AllSourceLines | src/localflow/models.py:137-187 | The loops over the sources build the lines of the specification |
| CommandRoundTrip.FreezeWorkingDirectory | src/localflow/models.py:105-198 | The frozen command is that of the specification, unwrapped commands unchanged |

## Left out

- StopWait.NeverPastLimit: bounds the clock at the start of each pass; a pass itself takes the time of one log read and a 50 ms sleep on top.
- LifecycleRuns.NoTaskIsAbandoned: says that a coroutine looks after each active task, not that it ever finishes; the code does not guarantee that every stop ends. Errors of the database and the file system, which would end any coroutine, are not part of this model.
- EventStream.CaughtUp: is about a moment at which nothing is on the way; delivery itself depends on the network.
- BatchRuns.ReplayIsTheFirst: is about `create_batch`; the single-task route, which reads and stores its receipt in two separate statements, is not part of this model.
- Of the steps of the lifecycle, scheduling, both ends of a start, the two halves of a wait, interrupts, the begin and the turns of a stop sequence and recovery of one task are also methods of `TaskService`, and deletion is one of `BatchStore`; the others exist on values only.
- Bytes to text in the log evaluation: the incremental UTF-8 decoder, digits outside ASCII, case folding of non-ASCII letters, evaluation time limits, and the check that a log did not change while it was read.
- Search previews and the search time limit; `read_log` and its limits.
- Reading include lines out of a file, the checks against include cycles on saving, and the sorted output of `affected_by`.
- `resolve_config_tree`, which delegates to a library, and the list of sources that `resolution` reports.
- Python's `int()` beyond ASCII digits, and the `.` components of a shell path; path resolution is an arbitrary function.
- Columns that explain a blocked task, display status, result evaluation, lifecycle log lines, and events other than those of transitions.
- SQLite: tables are maps and sequences with atomic commit and rollback; migrations, page limits, and reads inside another thread's open transaction are not modelled.
- The executor, systemd, PTYs and sockets, PID reuse and failing `/proc` reads: the environment answers whether a task runs and with which code it ended.
- The SIGCONT that an owner sends behind each signal but SIGKILL, and systems without pidfds, on which only its own children are signalled.
- The recognition of legacy log markers in `output_integrity`, and an integrity record that cannot be rewritten.
- The search for log directories and sizes in `maintain`; only what it deletes from the tables is modelled.
- HTTP routes, authentication, settings, plugins, the case picker, and the rendering of the web pages.
