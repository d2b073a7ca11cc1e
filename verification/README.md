# A model of sftp-relay

sftp-relay is a small service that queues transfers from remote SFTP servers to a NAS, runs
lftp there, and streams progress to browsers. This project models its logic in Dafny and
proves properties of it. `dafny verify dfyconfig.toml` checks everything.

## What is modelled

**The job manager** (`internal/jobs/manager.go` over the jobs table of `internal/db/repo.go`).
`JobManager` is a step system: one action is one database call or one section under the
manager's mutex; scheduler, workers, API calls, Start, Stop and crashes interleave freely.
`ManagerInvariants`, `ManagerExclusion`, `ManagerSingle`, `ManagerRows`, `ManagerRest`,
`ManagerExits`, `ManagerPool`, `ManagerStop` and `ManagerOrder` prove what holds over every
run, `ManagerPass` says what a pass starts when nobody else acts, and `ManagerRuns` gives
short runs that show where the limits are. `ManagerCode` is the same code as an object whose
methods follow the source statement by statement and call the `JobStore`, which is the store
as a class. Before each of its sections the other goroutines perform any actions at all
(`ManagerSteps` and `ManagerFrames` say what they cannot touch), and its `Valid` says that the
object is exactly where an admissible run of the step system leads, so the run theorems are
theorems about the methods.

Three hypotheses recur. A run *never doubles* if no step registers a worker for a job that
has an entry in the map, which is what the registering section does not test; it is
equivalent to one worker per job. A run has *fresh* checks if the writes of `schedule` and of
`Cancel` find the status that their own check read; every run in which those
read-check-writes are single steps is of this kind. A run is *undisturbed* if, besides, no
worker records `interrupted` over a row that some Cancel has written since the worker's mark;
undisturbed runs never double.

**Hub, stream and client** (`internal/events/events.go`, `internal/api/jobs.go`,
`web/src/useEvents.ts`). `Hub` is the fan-out with bounded channels, proved against a
specification; `HubRuns` states delivery and coalescing over every sequence of calls; `Sse`
writes frames and reads them by sections 9.2.5 and 9.2.6 of the WHATWG HTML Living Standard;
`LiveList` puts database, publishers, hub, handler, wire and query cache together, with a
publish's row read and its send as steps of their own; `LiveListProofs` says exactly what an
up-to-date client shows and when that is the database, `LiveListRuns` gives a run in which it
is not.

**Destinations** (`internal/nas/path.go`, `internal/nas/nas.go`). `Paths` models Go's
`path.Clean`, `Dir`, `Base` and `Join` on strings and proves what they do to segments;
`CheckPath` is the validator with an arbitrary resolver; `Confinement`, `RelativePaths` and
`TransferPaths` follow a destination from the request to the argument lftp gets.

**Printers and lexers** (`internal/nas/lftp.go`, `internal/nas/nas.go`). `Quoting` proves
lftp's quoting against an lftp reader, `ShellReader` the shell's against the token
recognition of a POSIX shell. `ShellText` and `ShellCommands` read back every command that is
printed around quoted values: the runner and its launch, cancel, sweep, and the probe for
share prefixes. `Script`, `Workspace`, `Render` and `Pem` are `render` and its parts;
`LineScanner` is the output scanner.

**Progress and paging** (`internal/jobs/tracker.go`, `internal/jobs/view.go`,
`internal/api/jobs.go`). `Tracker`, `TrackerRuns` and `Paging`.

## What the proofs found

- Each job has at most one executing worker at every state of a run if and only if no step
  registers a worker for a job that has an entry (`ManagerSingle.OneWorkerExactly`). Atomic
  marking and atomic Cancel do not rule such a step out: after a transfer error `run` re-reads
  the row, then looks at its context, then writes, and a Cancel between the re-read and the
  look makes the worker record `interrupted` over `cancelled`. The job is restarted, two
  workers run it, and the first one's exit removes the second one's entry
  (`ManagerRuns.FreshMarksAloneAllowTwoWorkers`). Stop then does not find the second one, and
  waits for it without telling it to end (`ManagerRuns.WorkerEscapesStop`).
  Exactly the workers whose cancel functions were not in the map when Stop began, and that no
  Cancel has cancelled, are left untold (`ManagerStop.StopTellsExactly`).
- An up-to-date client shows of each job the view that was sent last, and that need not be the
  row: `publish` reads the row and then sends, so a flush that read before a Cancel can send
  after it, and a cancelled job whose cancellation was announced stays on screen as running
  (`LiveListRuns.OlderViewIsSentLast`). It shows the row if no write of the row has followed
  the read behind that view (`LiveListProofs.CleanRowsAreShown`).
- Between restarts a waiting job sees at most as many starts ahead of it as there are older
  jobs waiting, plus one for every start of a row that no longer waits and one for every older
  row that an interruption brings back (`ManagerOrder.WaitIsBounded`); a cancelled job that is
  started all the same is an example (`ManagerRuns.StaleStartIsExtra`).
- A finished row stays finished or goes if and only if no step wakes it, that is, no stale
  mark and no `interrupted` outcome is written over it (`ManagerRest.RestsExactly`). A delete
  that has found a job finished can remove one that waits to be resumed
  (`ManagerRuns.DeleteRemovesAWaitingJob`).
- `plan_to_implement.md:230-231` says that a worker cannot overwrite a Cancel. It can, on
  every exit but the transfer-error one: `finish` checks its own copy of the status.
  `ManagerRows.StatusesFollowTheTable` gives the exact condition.
- The comment on `Stop` says that running jobs are recorded as interrupted. A worker records
  that if and only if its transfer ended in an error, the re-read did not find the row
  cancelled, and the context was then found cancelled (`ManagerExits.InterruptedExactly`); one
  caught while its source is being measured is recorded as failed
  (`ManagerRuns.StopWhileMeasuringFailsTheJob`). And Stop waits for workers, not for their
  pollers, so a progress write can follow it (`ManagerRuns.HelpersOutliveStop`).
- A pass by itself fills the free slots with the oldest waiting jobs when no waiting row has
  an entry in the map (`ManagerPass.PassFillsSlots`), which undisturbed runs guarantee
  (`ManagerPass.UndisturbedPassFillsSlots`).
- A progress event is held back if and only if the last one of its job that was passed on came
  less than a second before, with no end of the job in between (`HubRuns.HeldBackExactly`).
- The line written for known_hosts names the server exactly when its host name has no blank
  and none of the characters that are special there, and its key is one line
  (`Render.KnownHostIsRead`); a password file is read as the password exactly when that has no
  line break (`Render.PasswordIsRead`).
- The path lftp writes is the shell path of the file `pollDest` measures, except when the
  destination is `/` and the share named like the item has a prefix
  (`Confinement.WrittenIsPolled`, `TransferPaths.RootDestinationIsWrittenElsewhere`).
- Normalising is not idempotent: `/a /` becomes `/a `, which becomes `/a`. `Validate` normalises
  twice, so the directory it returns need not be the one whose text it checked; it is inside a
  root all the same (`CheckPath.NormaliseAgain`, `Confinement.ValidatedIsConfined`).
- With a relative staging setting that leaves two levels, and a prefix for the share "..", the
  launched runner is not the uploaded one; in every other case it is
  (`TransferPaths.RunnerIsUploaded`, `TransferPaths.ClimbingSettingMovesTheRunner`).
- The percentage parsed from lftp's output and the one shown differ by the number of whole or
  started totals in what rounding to bytes cuts off, so by at most one from a hundred bytes
  on, and a file of one byte at 99 percent shows 0 (`TrackerRuns.PercentSurvives`).
- The connect program splits back into its arguments exactly when the sshpass path contains
  no blank (`Workspace.ConnectProgramSplits`).

## Model

| member | source | states |
|---|---|---|
| `JobTable.QueueIsOldestFirst` | internal/db/repo.go:326-330 | the queue query returns exactly the `limit` smallest runnable ids, ascending; whatever it leaves out is larger and the result is full |
| `JobTable.LargestFirstIsTop` | internal/db/repo.go:146-151 | a page leaves out an id only when the page is full and all its ids are larger |
| `JobTable.WritesCommute` | internal/db/repo.go:199-219 | a status write, a progress write and a total write can come in any order: none undoes another or touches another row, and only the first changes a status |
| `JobTable.ColumnsWritten` | internal/db/repo.go:199-219 | each of the three writes sets its own columns and leaves what the job is about and the other columns; a job has started once it has been running and has finished once its status has been terminal |
| `JobTable.RecoveryRequeues` | internal/db/repo.go:352-363 | after recovery no row is running, exactly the rows that were now wait with the others, all other rows are as they were, and a second recovery changes nothing |
| `JobStore.Store.CreateJob` | internal/db/repo.go:183-196 | the new row holds the given server, kind, paths, status and total, and nothing has happened to it; its id is larger than every id there has been |
| `JobStore.Store.SetJobStatus` | internal/db/repo.go:199-208 | status, error, exit code and the conditional stamps of one row change, found or not found; nothing else |
| `JobStore.Store.RunnableJobs` | internal/db/repo.go:326-347 | the loop returns the queue as specified |
| `JobStore.Store.ListPage` | internal/db/repo.go:146-168 | the loop returns the page as specified: filtered, below the cursor, newest first, at most `limit` |
| `JobStore.Store.DeleteJob` | internal/db/repo.go:366-372 | the row and its log go, other rows and logs stay |
| `JobStore.Store.PurgeJobs` | internal/db/repo.go:375-388 | exactly the terminal rows among the old ones go, with their number and their logs; the logs of the others stay |
| `JobStore.Store.AppendJobLog` | internal/db/repo.go:222-233 | the job's log becomes the newest `keep` of its lines and the new one, in order; other logs stay |
| `JobStore.LogIsRing` | internal/db/repo.go:222-233 | trimming after every append keeps what trimming once at the end would |
| `JobStore.NewestIs` | internal/db/repo.go:227-229 | what is kept is the end of the list, and all of it that fits |
| `ManagerInvariants.InvRun` | internal/jobs/manager.go:140-292 | every run, with no hypothesis, keeps: map entries belong to executing workers of that job, passes hold runnable copies within the limit, nobody's running row is abandoned, no paused rows, Stop's stages in order |
| `ManagerExclusion.ExclusiveRun` | internal/jobs/manager.go:140-292 | every undisturbed run keeps: each executing worker owns its job's entry, rows say running or cancelled until the outcome is recorded, waiting rows have no worker |
| `ManagerSingle.OneWorkerExactly` | internal/jobs/manager.go:172-193 | over every run, each job has at most one executing worker at every state if and only if no step registers a worker for a job that has an entry |
| `ManagerSingle.UndisturbedNeverDoubles` | internal/jobs/manager.go:140-292 | fresh checks, and no interruption over a cancelled row, rule such a step out |
| `ManagerRows.StatusesFollowTheTable` | internal/jobs/manager.go:271-332 | over runs with fresh checks, statuses move only along the transition table if and only if no outcome is recorded after a Cancel wrote the row |
| `ManagerRows.TerminalIsFinal` | internal/jobs/state.go:32-53 | over every legal run, done, failed and cancelled are never left while the row exists |
| `ManagerRows.GoneStaysGone` | internal/db/migrations/0001_init.sql:17-18 | a deleted row never comes back under its id |
| `ManagerRows.SizeIsKept` | internal/jobs/manager.go:226-237 | a measured size is the row's total from then on, over every run, until a worker of the job measures again |
| `ManagerRows.CancelStores` | internal/jobs/manager.go:386 | a Cancel's write makes the row cancelled with the message `cancelled`, no exit code and the finish stamp, whatever it said, and touches no other row |
| `ManagerRest.RestsExactly` | internal/jobs/manager.go:155-170 | over every run, a finished row stays finished or goes at every state if and only if no mark of a runnable copy and no interruption is written over it |
| `ManagerRest.DeleteIsSafe` | internal/api/jobs.go:151-161 | between a delete call's read and its deletion the row stays terminal or goes if and only if no step wakes it; then what is removed is finished |
| `ManagerRest.UndisturbedDeleteIsSafe` | internal/api/jobs.go:151-161 | over undisturbed runs, the row that a delete call removes is still terminal or already gone |
| `ManagerRest.ErrorExitHonoursCancel` | internal/jobs/manager.go:272-279 | after a re-read that found the row cancelled, the worker records no outcome in any continuation of the run |
| `ManagerRows.NoJobIsLost` | internal/jobs/manager.go:161-192 | in every reachable state a running row has a worker that will record an outcome, or is about to get one, or Stop has begun |
| `ManagerRows.RestartRecovers` | internal/jobs/manager.go:69-81 | after a crash at any reachable state, Start makes exactly the running rows interrupted, and then every non-terminal row is runnable |
| `ManagerRows.RecoveredQueueIsComplete` | internal/db/repo.go:324-330 | with a large enough limit the queue returns every runnable row |
| `ManagerPool.OneWorkerPerJob` | internal/jobs/manager.go:172-193 | over runs that never double, each job has at most one executing worker, its entry is that worker's, and the map is as large as the number of workers |
| `ManagerPool.PassRespectsLimit` | internal/jobs/manager.go:146-160 | a pass that read limit c leaves the map at most max(c, its size before), whatever happens meanwhile |
| `ManagerPool.PoolRespectsLimit` | internal/jobs/manager.go:146-193 | the same for the executing workers themselves, over runs that never double |
| `ManagerPool.NothingRegisteredAfterStop` | internal/jobs/manager.go:172-180 | once `stopping` is set it stays set, and neither entries nor workers are added |
| `ManagerPass.CountFreeDecides` | internal/jobs/manager.go:147-153 | the count ends the pass exactly when Stop has begun or the limit is reached; otherwise the pass goes on with exactly the limit less the number of entries |
| `ManagerPass.PassFillsSlots` | internal/jobs/manager.go:140-194 | work conservation: a pass in which nobody else acts, when no waiting row has an entry, starts exactly the oldest waiting jobs, as many as there are and as fit; each gets a row that says running and a worker with a live context, and nothing else changes; after Stop has begun it starts nobody |
| `ManagerPass.UndisturbedPassFillsSlots` | internal/jobs/manager.go:140-194 | the same after every undisturbed run, with no condition on the rows |
| `ManagerPool.StopDrains` | internal/jobs/manager.go:97-116 | over every run: when Stop waits for the workers the loop has ended, and when it has returned there are no workers and no entries |
| `ManagerPool.StopReachesEveryWorker` | internal/jobs/manager.go:100-116 | over runs that never double, every worker that Stop waits for has a cancelled context |
| `ManagerStop.StopTellsExactly` | internal/jobs/manager.go:97-116 | over every run from the beginning of Stop, with no hypothesis on what went before: a worker that Stop waits for was there at its beginning, and its context is cancelled if and only if its cancel function was in the map then, or it was cancelled already, or some Cancel has called its function since |
| `ManagerPool.StoppedRowsRest` | internal/jobs/manager.go:110-116 | after Stop has returned only API calls change a status |
| `ManagerOrder.NoOvertaking` | internal/jobs/manager.go:155-170 | no job newer than one that keeps waiting is started before it |
| `ManagerOrder.CreatedJobIsNotOvertaken` | internal/jobs/manager.go:155-170 | no job created later is started before one that keeps waiting, from its creation at any point of any run on |
| `ManagerOrder.WaitIsBounded` | internal/jobs/manager.go:148-170 | between restarts, for every interleaving, the starts ahead of a waiting job are at most the older jobs waiting when the count begins, plus the starts of rows that no longer wait and the older rows brought back by an interruption |
| `ManagerOrder.UndisturbedWaitIsBounded` | internal/jobs/manager.go:148-170 | over undisturbed runs there are none of those two kinds |
| `ManagerExits.OutcomeFollowsTrail` | internal/jobs/manager.go:182-292 | over every run, a worker about to record an outcome took one of four kinds of path through the source, and the outcome and exit code are those of its path |
| `ManagerExits.InterruptedExactly` | internal/jobs/manager.go:271-285 | over every run, the outcome is interrupted if and only if the transfer ended in an error, the re-read did not find the row cancelled, and the context was then found cancelled |
| `ManagerExits.RowFollowsTrail` | internal/jobs/manager.go:322-332 | what the row says once the outcome is recorded, for each path |
| `ManagerRuns.ExitCodeOverwritesCancel` | internal/jobs/manager.go:286-291 | a run in which an exit code turns a cancelled row into done |
| `ManagerRuns.StaleReReadRevivesCancelledJob` | internal/jobs/manager.go:272-284 | a run in which a cancelled row becomes interrupted and runnable again |
| `ManagerRuns.FreshMarksAloneAllowTwoWorkers` | internal/jobs/manager.go:182-192 | a run with fresh checks in which two workers execute one job and one removes the other's entry |
| `ManagerRuns.WorkerEscapesStop` | internal/jobs/manager.go:100-116 | a run in which Stop waits for a worker whose context nobody has cancelled |
| `ManagerRuns.StaleMarkOverwritesCancel` | internal/jobs/manager.go:156-170 | a run in which a Cancel between queue read and mark is overwritten |
| `ManagerRuns.StaleCancelOverwritesDone` | internal/jobs/manager.go:378-388 | a run in which a Cancel that has read running writes cancelled over done |
| `ManagerRuns.StaleStartIsExtra` | internal/jobs/manager.go:155-170 | a run in which nobody older waits and a cancelled row is started before a waiting one |
| `ManagerRuns.DeleteRemovesAWaitingJob` | internal/api/jobs.go:151-161 | a run in which a delete removes a job that waits to be resumed |
| `ManagerRuns.CancelBetweenMarkAndRegisterFindsNobody` | internal/jobs/manager.go:386-391 | a run in which a Cancel finds no cancel function and the worker starts with a live context |
| `ManagerRuns.HelpersOutliveStop` | internal/jobs/manager.go:296-320 | a run in which a progress write follows Stop's return |
| `ManagerRuns.StopWhileMeasuringFailsTheJob` | internal/jobs/manager.go:226-231 | a run in which Stop turns a running job into a failed one |
| `ManagerCode.OneMore` | internal/jobs/manager.go:140-292 | a history extended by an action that is possible where it leads, leads where that action leads |
| `ManagerFrames.UntouchedByOthers` | internal/jobs/manager.go:140-292 | no action of another goroutine moves this one: the scheduler's place, a worker's place and copy, a call's progress, Stop's stage; and none adds an entry while the scheduler is at work |
| `ManagerCode.Manager.Schedule` | internal/jobs/manager.go:140-194 | whatever the others do, a pass is carried out section by section; at a moment of the history it counts the slots, and ends there exactly when Stop has begun or the limit is reached; otherwise, at a later moment, it takes the oldest waiting rows, as many as the limit less the entries counted, and considers all of them unless Stop has begun; the map never exceeds the limit read or its size before |
| `ManagerCode.Manager.Loop` | internal/jobs/manager.go:118-138 | every turn of the select does exactly what its case asks for, a ready tick may go before a stop, and the first look that finds a reason to leave ends the loop |
| `ManagerCode.Manager.Run` | internal/jobs/manager.go:182-292 | the exact list of the worker's sections as a function of what its calls return, from the server's look-up to its leaving; a size that had to be measured is what the row then says; and the outcome written as a function of the same results |
| `ManagerCode.Manager.Cancel` | internal/jobs/manager.go:378-401 | refused exactly when the row as first read may not be cancelled, not found when it is missing; when accepted, the row was written, the entry looked up, and the worker whose cancel function was found has a cancelled context |
| `ManagerCode.Manager.Delete` | internal/api/jobs.go:144-166 | only a row that was terminal when read is deleted, and then it is gone |
| `ManagerCode.Manager.Retry` | internal/jobs/manager.go:405-423 | a terminal row is cloned under a new id, queued, with its server, kind, paths and total and nothing of what has happened to it |
| `ManagerCode.Manager.Start` | internal/jobs/manager.go:69-95 | exactly the running rows become interrupted before the scheduler starts |
| `ManagerCode.Manager.StopAll` | internal/jobs/manager.go:97-116 | the first Stop after Start, when it has returned, leaves no workers, no entries and no scheduler; any other returns at once and changes nothing |
| `ManagerCode.OneWorkerAtATime` | internal/jobs/manager.go:172-193 | wherever the code stands on a history that never doubles, two executing workers of a job are the same worker, and the entry is its |
| `ManagerCode.RunningRowsAreCarried` | internal/jobs/manager.go:161-192 | wherever the code stands, a running row has someone responsible for it |
| `Hub.Hub.Subscribe` | internal/events/events.go:64-73 | a new number and an empty open channel; nothing else changes |
| `Hub.Hub.Unsubscribe` | internal/events/events.go:75-80 | the subscriber is dropped if it is still there |
| `Hub.Hub.Drop` | internal/events/events.go:82-87 | a channel is closed once, with its map entry removed |
| `Hub.Hub.Publish` | internal/events/events.go:99-122 | the new state is the specified one: held back, in the cases `HubRuns.HeldBackExactly` gives, or the clock updated and every subscriber offered the event |
| `Hub.Hub.FanOut` | internal/events/events.go:114-121 | in any order of the map, every open subscriber gets the event or, when 64 are queued, is dropped; closed ones are left alone |
| `HubRuns.Delivery` | internal/events/events.go:64-122 | received plus queued is one contiguous run of the accepted events; it ends only at Unsubscribe or at the first event that found the buffer full |
| `HubRuns.DeliveryFromSubscribe` | internal/events/events.go:64-122 | the same from the subscriber's own Subscribe on, from an empty hub |
| `HubRuns.NoEarlierCut` | internal/events/events.go:75-122 | nothing before the end of that run was a cut |
| `HubRuns.CoalescingBound` | internal/events/events.go:103-113 | with a clock that does not go back, a job's accepted progress events in a window are at most one a second, plus one, plus one for each done or failed publish |
| `HubRuns.HeldBackExactly` | internal/events/events.go:103-113 | over every sequence of calls, an event is held back if and only if it is progress, the last progress event of its job that was passed on came less than one second before, and the job has not been published as done or failed in between |
| `HubRuns.WindowBound` | internal/events/events.go:103-113 | the same for any window of a hub's life, whatever was published before it |
| `HubRuns.NothingElseIsHeldBack` | internal/events/events.go:103-113 | without progress events, what is passed on is exactly what was published, each as often and in the same order |
| `LiveList.QueryCache.Frame` | web/src/useEvents.ts:19-33 | the cache after a frame is the fold's next value |
| `LiveListProofs.Convergence` | internal/api/jobs.go:247-274 | over every run, an up-to-date client shows each job once, and exactly the view that was sent last since Subscribe, or that the snapshot held if none was sent; so it shows a row as it is if and only if that view is the row's |
| `LiveListProofs.CleanRowsAreShown` | internal/jobs/manager.go:365-374 | it does, if no write of the row has followed the read behind that view |
| `LiveListProofs.AnnouncedRowsAreShown` | internal/jobs/manager.go:365-374 | if no publish is overtaken by a write between its read and its send, it is enough that an accepted publish has followed the row's last write since Subscribe |
| `LiveListRuns.OlderViewIsSentLast` | internal/jobs/manager.go:365-374 | a run in which the row's last write was announced and an up-to-date client shows a cancelled job as running |
| `LiveListProofs.FoldFind` | web/src/useEvents.ts:11-27 | what the fold shows of a job is the latest delta about it, or what was there before; rows stay unique |
| `LiveListProofs.FoldLogs` | web/src/useEvents.ts:28-32 | a job's log after any frames is the newest 500 of what was there and the lines about that job, in order |
| `LiveListProofs.UpsertPlaces` | web/src/useEvents.ts:10-17 | a new job goes in front, a known one changes in its place, and nobody else moves |
| `JobView.ViewShows` | internal/jobs/view.go:27-52 | a view carries each of the row's columns, and 100 percent for a job that is done |
| `Sse.Writer.WriteEvent` | internal/api/jobs.go:285-294 | the frame is appended with the next number; an unencodable event writes nothing and uses no number |
| `Sse.Writer.WritePing` | internal/api/jobs.go:275-279 | the comment is appended and no number used |
| `Sse.Writer.Events` | internal/api/jobs.go:231-282 | the snapshot and then every turn of the loop appear on the wire as the items they are; a browser reads from the wire one message for each turn that could be encoded, with its name and body and a last id that reads as 1, 2, 3 and so on; and there is one comment for each beat |
| `Sse.RoundTrip` | internal/api/jobs.go:276-294 | any mixture of frames and pings is read back as exactly the written events, in order, numbered from 1 |
| `Sse.TurnsAreRead` | internal/api/jobs.go:231-294 | for all turns, the standard's reader gives exactly the encodable ones in order, and the k-th message's last id, read as a number, is k |
| `Sse.BeatsAreWritten` | internal/api/jobs.go:275-279 | as many comment lines are read as there were beats |
| `Text.NumberOfDecimal` | internal/api/jobs.go:292 | a printed number, read digit by digit, is that number, and is spelled without superfluous zeros or signs |
| `Text.DecimalOfNumber` | internal/api/jobs.go:292 | every such spelling is the one that is printed for its number |
| `LineScanner.StepToken` | internal/nas/lftp.go:428-439 | a token of the split function is the next line of what is left |
| `LineScanner.Scanner.Scan` | internal/nas/lftp.go:387-391 | however the output is cut into reads, a scan gives the next line of the whole output, or fails exactly at a line too long for the buffer |
| `LineScanner.Stream` | internal/nas/lftp.go:385-396 | the lines passed on are those of the whole output, trimmed, without blanks, up to the first line that is too long |
| `LineScanner.SplitIsCutting` | internal/nas/lftp.go:426-439 | the lines, with one `\r` or `\n` behind each, are the output again; none has a break in it, and only an empty rest is not a line |
| `LineScanner.KeptAt` | internal/nas/lftp.go:392-396 | one line is kept for each that has more than blanks and tabs, in order, without those at its end |
| `LineScanner.TrimRightIs` | internal/nas/lftp.go:393 | the trimmed line is the one prefix that ends in neither blank nor tab and lacks only such characters |
| `LineScanner.CrlfReadsLikeLf` | internal/nas/lftp.go:391-439 | the lines passed on are the same when every `\r\n` is `\n` |
| `Paths.CleanIsCleanAbs` | internal/nas/path.go:109 | cleaning an absolute path gives a clean absolute path, its segments resolved |
| `Paths.CleanFollows` | internal/nas/path.go:109 | what a cleaned path means, move by move from the root: nothing and `.` stay, `..` goes up and stays at the root, and any other segment goes down |
| `Paths.DirDropsLast` | internal/nas/path.go:78 | `path.Dir` drops the last segment of a clean path; the parent of the root is the root |
| `Paths.BaseIsLast` | internal/nas/lftp.go:121 | `path.Base` is the last segment of a clean path below the root |
| `Paths.JoinAppendsOne` | internal/nas/lftp.go:121 | `path.Join` of a clean path and a proper name appends one segment |
| `CheckPath.NormaliseAgain` | internal/nas/path.go:98-110 | normalising again changes a clean path exactly when it ends in a space |
| `CheckPath.NormaliseExactly` | internal/nas/path.go:98-110 | refused exactly when trimmed and normalised it is empty, has a null byte or is not absolute; otherwise cleaned, and without a null byte |
| `CheckPath.TrimSpaceIs` | internal/nas/path.go:99 | only spaces are cut off around what is left, and it neither begins nor ends with one |
| `CheckPath.InsideTextIsInside` | internal/nas/path.go:114-120 | the string test is the same as the root's segments being a prefix, the root `/` included |
| `CheckPath.UsableRoots` | internal/nas/path.go:35-42 | the loop collects exactly the usable roots, in order |
| `CheckPath.CleanRootsAreConfigured` | internal/nas/path.go:35-42 | every usable root is a configured root, normalised |
| `CheckPath.AcceptResolved` | internal/nas/path.go:65-73 | a resolved path is accepted exactly when it is usable and inside a root |
| `CheckPath.ResolveAncestor` | internal/nas/path.go:77-94 | the walk upwards ends, and is decided by the first answer |
| `CheckPath.FallbackIff` | internal/nas/path.go:56-94 | the fallback succeeds exactly when the nearest ancestor that resolves, resolves inside a root |
| `CheckPath.Validator` | internal/nas/path.go:29-73 | for any resolver, exactly which path is returned: the path normalises to one inside a usable root, and either it resolves, and what it resolves to, normalised, is inside a usable root and is returned; or it does not, it is returned itself, and the first directory upwards that resolves does so inside a usable root |
| `CheckPath.AcceptedIsConfined` | internal/nas/path.go:25-73 | for any resolver, an accepted path is clean, absolute and inside a root |
| `Confinement.SplitRoots` | internal/nas/nas.go:276-284 | the loop returns the trimmed nonblank fields |
| `Confinement.RootsRoundTrip` | internal/nas/nas.go:275-284 | roots written with any mixture of commas and newlines read back as written |
| `Confinement.Validate` | internal/nas/nas.go:296-317 | a destination is accepted as `out` exactly when its text names a place in a usable root and the check that follows links returns `out` for that place |
| `Confinement.ValidatedIsConfined` | internal/nas/nas.go:296-317 | a validated destination is clean, absolute and inside an allowed root |
| `Confinement.CleanPath` | internal/sftpclient/sftpclient.go:272-280 | any remote path becomes a clean absolute one |
| `Confinement.TargetIsConfined` | internal/jobs/manager.go:247 | the target is a direct child of the validated destination, named like the remote item, inside an allowed root |
| `Confinement.CreateJobs` | internal/api/jobs.go:96-123 | one job for each item before the first that names the remote root; created whole exactly when there is none |
| `Confinement.BatchIsConfined` | internal/api/jobs.go:91-123 | every job of a batch, even of a rejected one, is confined |
| `Confinement.ShareCache.ShellPath` | internal/nas/nas.go:486-517 | the probe is printed and what a shell makes of it is trimmed and remembered: the first prefix that fits, never changed afterwards; the root and an unanswered question leave the path as it is |
| `Confinement.PrefixThenTarget` | internal/nas/lftp.go:121 | prefixing the destination and then appending the name is the prefixed target |
| `Confinement.WrittenIsPolled` | internal/jobs/manager.go:247 | the path lftp gets is the shell path of the polled file exactly when the destination is not `/` or the child's share has no prefix |
| `TransferPaths.LftpWritesTheConfinedChild` | internal/nas/lftp.go:121-132 | for every accepted request and batch, the last argument of lftp's transfer command is the shell path of a confined direct child, with that one exception |
| `TransferPaths.RootDestinationIsWrittenElsewhere` | internal/jobs/manager.go:247 | a validated destination `/` and a share on a volume for which the written and the polled path differ |
| `TransferPaths.RunnerIsUploaded` | internal/nas/lftp.go:254-303 | for every staging setting, the launched runner is the uploaded file, seen over SFTP and by the shell, exactly when its share has no prefix or the directory does not leave two levels |
| `TransferPaths.ClimbingSettingMovesTheRunner` | internal/nas/lftp.go:254-303 | the setting `../..`, for which the launched runner is not the uploaded file |
| `TransferPaths.JobsHaveTheirOwn` | internal/nas/lftp.go:254-267 | two jobs have different staging and different runtime directories, whatever the setting was for each |
| `Quoting.LftpQuote` | internal/nas/lftp.go:236-247 | the loop prints the quoted form |
| `Quoting.QuotedReadsBack` | internal/nas/lftp.go:234-247 | reading a quoted value adds exactly the value to the current word and closes the quotes, for every value |
| `ShellReader.ShQuoteReadsBack` | internal/nas/lftp.go:249-252 | reading a value in single quotes adds exactly the value to the current word and closes the quotes, for every value, inside a command substitution or not |
| `ShellReader.ShQuoteIsOneWord` | internal/nas/lftp.go:249-252 | in any text that stands unquoted between words before the value, a quoted value is exactly one word with nothing left to expand, by sections 2.2 and 2.3 of the Shell Command Language of POSIX.1-2017 |
| `ShellText.LineReads` | internal/nas/lftp.go:159-181 | a line put together from fixed words and quoted values is read as its words and operators, whatever the values |
| `ShellCommands.RunnerIsIntended` | internal/nas/lftp.go:166-180 | for all directories and every lftp path the runner's tokens are those of its fixed lines, with three words that hold the values; the word before -f is exactly the lftp path |
| `ShellCommands.LaunchIsTwoWords` | internal/nas/lftp.go:183-186 | the launch command is exactly `/bin/sh` and the runner's path |
| `ShellCommands.CancelIsIntended` | internal/nas/lftp.go:443-451 | the substitution in the cancel command runs cat on exactly the pid file, and what follows is fixed |
| `ShellCommands.SweepIsIntended` | internal/nas/lftp.go:455-468 | sweeping is one rm over the job directories of the staging area, whatever its name, and the runtime ones |
| `ShellCommands.ProbeAsksInOrder` | internal/nas/nas.go:493-503 | run by a shell, the probe prints the first prefix under which the share exists, whatever the share is called, or nothing |
| `Script.LinesAreCommands` | internal/nas/lftp.go:134-155 | lines written from arguments read back as those arguments, whatever the values |
| `Workspace.BlankedRoundTrip` | internal/nas/lftp.go:140-141 | words joined by blanks split back if and only if none is empty or contains a blank |
| `Workspace.OptionsAreRead` | internal/nas/lftp.go:92-107 | ssh's options read as the server's port, or 22 if it is 0, strict checking against the job's own known_hosts, no prompts, and with key authentication the job's own key alone |
| `Workspace.ConnectProgramSplits` | internal/nas/lftp.go:92-119 | the connect program splits into its argument list exactly when the sshpass path, if used, has no blank |
| `Render.ScriptIsIntended` | internal/nas/lftp.go:134-155 | the script reads back as exactly the ten intended commands |
| `Render.WriteCommands` | internal/nas/lftp.go:134-155 | the buffer, as printed, reads back as exactly the intended commands |
| `Render.WriteFiles` | internal/nas/lftp.go:86-181 | four files, credentials private, the known_hosts line read as the server's host, port and key, lftp's commands and the runner's tokens as intended, only the runner executable |
| `Render.Render` | internal/nas/lftp.go:67-187 | a workspace exactly when lftp, a host key, a credential and a known kind are there, or the first reason for refusing it; the second file holds the normalised key or the password's line |
| `Render.KnownHostIsRead` | internal/nas/lftp.go:189-197 | the line reads as the host, its port and its key exactly when the host has no blank and no special character and the key is one line |
| `Render.PasswordIsRead` | internal/nas/lftp.go:112-114 | the first line of the password file is the password exactly when that has no line break |
| `Render.CredentialIsUsed` | internal/nas/lftp.go:100-115 | the key that ssh is told to use, or the file that sshpass reads, is the credential that is written |
| `Render.TransferNumbersAreRead` | internal/nas/lftp.go:122-132 | the numbers in lftp's transfer command read as the segments and parallel files asked for, and at least 1 |
| `Pem.NormalisedKeepsLines` | internal/nas/lftp.go:228-232 | a stored key loses every `\r`, ends in exactly one newline, keeps its nonblank lines, and is not changed by a second pass |
| `Tracker.Tracker.Observe` | internal/jobs/tracker.go:42-67 | the fields after a line are the specified ones |
| `Tracker.Tracker.Complete` | internal/jobs/tracker.go:88-96 | at least the total, no speed, no ETA, to be flushed |
| `Tracker.Tracker.MaybeFlush` | internal/jobs/tracker.go:98-109 | captures exactly when dirty and forced or a second after the last capture |
| `TrackerRuns.BytesAreMaximum` | internal/jobs/tracker.go:42-96 | over every interleaving the bytes are the maximum of 0 and everything reported, each percentage with the total then in force |
| `TrackerRuns.OrderIsIrrelevant` | internal/jobs/tracker.go:42-96 | for a fixed total the order of the observations does not matter |
| `TrackerRuns.OrderMattersWhenTotalChanges` | internal/jobs/tracker.go:45-61 | with a changing total it does |
| `TrackerRuns.CapturesNeverDecrease` | internal/jobs/tracker.go:98-109 | captured bytes never decrease and never exceed the final count |
| `TrackerRuns.UnforcedAreSpaced` | internal/jobs/tracker.go:98-104 | an unforced capture comes at least a second after the one before |
| `TrackerRuns.UnforcedAreRare` | internal/jobs/tracker.go:98-104 | between two captures there is a second for every unforced one after the first |
| `TrackerRuns.DirtyUntilCaptured` | internal/jobs/tracker.go:64-104 | nothing is lost: fields that are not dirty are those of the last capture |
| `TrackerRuns.ShownIsLastReported` | internal/jobs/tracker.go:42-96 | over every run the speed and the ETA shown are the last positive ones reported since the end was last marked, or 0 |
| `TrackerRuns.StaleIsSilent` | internal/jobs/tracker.go:80-85 | with readings that do not go back, stale means exactly that no line was read in the last ten seconds |
| `TrackerRuns.NothingOverflows` | internal/jobs/tracker.go:57-61 | up to MaxInt64 / 100 the percentage arithmetic stays in int64 |
| `TrackerRuns.PercentSurvives` | internal/jobs/view.go:54-63 | for totals from 1 to MaxInt64 / 100: the bytes derived from p percent show as p if and only if nothing was rounded away, as p - 1 if and only if what was is at most the total, in hundredths of a byte, and in general as p less the totals started in it |
| `TrackerRuns.FullMeansNothingMissing` | internal/jobs/view.go:47-63 | a view shows 0 to 100 percent, and 100 exactly when the job is done or no byte of a known total is missing |
| `Paging.WalkDescends` | internal/api/jobs.go:41-61 | a cursor walk ends and returns strictly descending ids |
| `Paging.WalkFinds` | internal/api/jobs.go:41-61 | a row that is there and matches throughout is returned, whatever else changes |
| `Paging.WalkIsComplete` | internal/db/repo.go:146-168 | with only inserts meanwhile, the walk returns exactly the rows that matched at first, each once |
| `Paging.RequestedWalkIsComplete` | internal/api/jobs.go:27-45 | the same for the page size a request ends up with |
| `Paging.ServeList` | internal/api/jobs.go:27-66 | the rows of the status asked for, below the cursor if it is positive, from the newest down, each as its view; exactly as many as were asked for (50 if that was not 1 to 500), or fewer and no next cursor; and what is not shown is below the next cursor, which is the last id shown |
| `Paging.AnswerIsUnique` | internal/api/jobs.go:27-66 | a request on a table has one such answer |
| `Paging.WalkIsServed` | internal/api/jobs.go:27-66 | the n-th page of the walk is the answer to a request with the cursor of the page before |
| `Paging.FollowingShowsEach` | internal/api/jobs.go:27-66 | with only inserts meanwhile, a client that passes back each next cursor until there is none is shown exactly the jobs that matched at first, each once, newest first |

## Left out

- Database errors other than a missing row: every statement of the job manager succeeds or finds no row.
- Publishing, logging, killing the remote process and sweeping stale directories are not steps of the job manager's system: they change no row and no entry. Publishing is a step of LiveList's system.
- ManagerCode.Manager.Schedule: a crash in the middle of a method is a step of the system only; inside the object the process lives on.
- Timestamps of rows: started and finished are flags, and which rows are old enough to purge is arbitrary.
- The join with the servers table: a row carries its server's name, and deleting a server deletes its rows.
- ManagerCode.Manager.StopAll: whether the others ever let it return is a matter of scheduling; the method says so with its result.
- TrackerRuns.PercentSurvives: totals above MaxInt64 / 100, where the products wrap around.
- HubRuns.CoalescingBound: whether the clock's entries stay bounded to jobs in flight is not claimed; a late progress event can add one again.
- CheckPath.Validator: NFC is an arbitrary function on strings.
- CheckPath.AcceptedIsConfined: says what the resolver answered at the time; links changed afterwards are not modelled.
- Confinement.ShareCache.ShellPath: calls are taken one at a time; two first uses of a share at once would each ask and store.
- Confinement.Validate: the one retry of a broken SFTP session is an arbitrary resolver like any other.
- LineScanner.Stream: reads return at least one byte; a reader that returns nothing a hundred times in a row is not modelled.
- ShellReader.ShQuoteIsOneWord: the shell reader gives up on backquotes, parameters in braces, here-documents, and parentheses inside a command substitution; operators of several characters appear as several tokens. The printed commands contain none of the first four.
- ShellCommands.ProbeAsksInOrder: what test, printf and exit do is fixed by the evaluation of that one form of line; a shell's execution of other commands is not modelled.
- Quoting.QuotedReadsBack: the lftp reader knows blanks, newlines, double quotes and backslashes inside them, as the source states them; lftp itself is not part of this model.
- Render.KnownHostIsRead: sshd(8) also knows lists, wildcards, negation, hashed names and markers; a line with any of these is not read.
- Render.Render: parsing and decrypting the private key is a parameter; its absence stands for every error of the SSH library.
- Sse.RoundTrip: event bodies are strings without line breaks, which section 7 of RFC 8259 guarantees for JSON.
- Tracker.Tracker.Observe: parsed lines are arbitrary; the regular expressions and unit scaling that produce them are not modelled.
- TrackerRuns.CapturesNeverDecrease: about captures; the flush callbacks run outside the lock and may run in another order.
- SSH and SFTP sessions, host keys, keepalive and tool probes: network input and output.
- HTTP routing, authentication, configuration, server records and error-to-status mapping: no behaviour beyond one branch each.
- Reconnecting with a growing delay in the browser: only the fold of frames into the cache is modelled.
- The user interface, migrations and end-to-end tooling.
