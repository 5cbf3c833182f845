# Verification model of CoCalc's storage, job and messaging cores

This project models five parts of CoCalc in Dafny and states what they guarantee over all inputs and all runs.

* **Incremental backups of project images** (`src/scripts/zvol_storage.py`). A project lives in a ZFS volume with
  snapshots; a directory of stream files `start--end` lets it be destroyed here and restored elsewhere. The model has
  the greedy search for a chain of streams, the decision which snapshots to keep and which streams to apply, sending
  with the discard of old streams, closing, importing and `rsync`. `Interrupted` lets a receive die between two streams.
  `Cluster` puts these together over several machines, and `Reopen` says what closing and importing do to a volume.
* **Subprocess jobs and their live output** (`execute-code.ts`, `exec-stream.ts`). `ExecState` says what each event makes
  of a job and keeps its invariant, the class `ExecJob.Job` does it with a method per event, and `ExecRun` reads off any
  sequence of events when the job calls back, with what, what it streams and what each listener is sent.
* **The process monitor** (`process-stats.ts`): its table of requests and timers, driven by any sequence of events and
  compared with what the sequence says of each single request; and the sum over a process tree.
* **The analytics endpoint** (`analytics.ts`): the rate limiter and the payload sanitizer.
* **Subject matching** (`conat/util.ts`).

The imperative parts are classes and loops specified by functions or histories; what the source is for is stated as
lemmas about those. `dafny verify dfyconfig.toml` checks everything. Nothing here was executed.

## How the backup model is set up

Timestamps are integers, images are maps from block number to contents, and a stream file holds the blocks that
`zfs send` writes and frees. `zfs recv` accepts a full stream only on a volume without snapshots and an incremental one
only if the newest snapshot is its start. The clock, the size of a new stream, failures of `zfs snapshot` and of the
pipeline that writes a stream, and the moment at which a process dies inside the discard loop or between two streams of
a receive are inputs; a single `zfs recv` happens or does not. A run of `Cluster` keeps one discipline: the project is
opened on one machine at a time, on a machine that holds the newest stream, `rsync --delete` starts from such a machine,
and no snapshot disappears while it is being sent. It is assumed that no `.partial` file is left behind in a directory
without streams; `Receive.LeftoversMatterIff` says what such a file would change.

Six results say where the code does not do what one might expect:

* `recv_streams` is refused by ZFS although the files hold a whole chain when the newest of several snapshots is newer
  than the chain's end or older than its first stream (`Receive.RefusedExamples`). `Cluster.RestoreGivesLastSent` says
  that these are the only cases. One failed send is enough to get there (`Cluster.FailedSendBlocksReceive`), and
  `ClusterRuns` has a complete run for either kind.
* `recv_streams` means to do nothing when the only stream is applied already, but with several snapshots that case is never
  taken: the volume is destroyed and the stream applied again, so that older snapshots and everything written since are
  gone. `Reopen.ImportKeepsVolumeIff` says exactly when an import leaves a volume as it was, and
  `Reopen.ImportKeepsSnapshotIff` which snapshots it keeps.
* The comment in `execute-code.ts` says that a timeout takes precedence over every other outcome. That holds of the last
  call of `finish`, but not of a run: if the process died of a signal and its pipes are still open when the kill timer
  fires, the kill only asks for a forced completion, and when the pipes close first the job is recorded as completed with
  exit code 0 (`ExecRun.KilledJobCanComplete`). `ExecRun.KilledJobReportsTimeoutIff` says exactly when a killed job
  reports the timeout, and `ExecRun.CompletedIff` when a job is recorded as completed. A job that fails with an empty
  stderr is recorded as having no result.
* The comment in `exec-stream.ts` says that buffered output may be missing from the first snapshot; in fact the cache has
  it at once, so that the snapshot and the later events overlap by the unflushed buffer, for stdout and for stderr. They fit
  together exactly if it is empty (`ExecState.SnapshotOverlapsByLag`), which it need not be (`ExecRun.SnapshotCanOverlap`).
* The rate limiter's comment promises ten entries per second. A sliding second can hold twenty, and
  `Analytics.BoundIsReached` shows that the bound `10 * (n + 1)` for n seconds is met for every n.
  `Analytics.TenPerSecondIff` says of every second of every run exactly when it holds at most ten.
* The recursion of `sumChildren` never ends for a process that is its own ancestor, and ends for every other one,
  whatever cycles there are elsewhere in the table (`ProcessTree.SumEndsIff`). `ProcessTree.CycleExample` has both kinds.

## Model

| member | source | states |
|---|---|---|
| `Zvol.Diff` | src/scripts/zvol_storage.py:582-594 | applying the difference to the image it was taken from gives the target image, and it holds exactly the blocks that differ |
| `StreamChain.SortByEnd` | src/scripts/zvol_storage.py:254-270 | the sort yields the same streams, newest end first and earliest start first among equal ends |
| `StreamChain.FollowBack` | src/scripts/zvol_storage.py:274-285 | the two inner loops compute the greedy walk back from the first stream |
| `StreamChain.OptimalStreamSequence` | src/scripts/zvol_storage.py:249-292 | the outer loop ends on every listing and returns the walk of the first head that reaches a full stream |
| `StreamChain.BestIsChain` | src/scripts/zvol_storage.py:286-292 | the result is empty exactly if no stream is full; else it starts full and each stream starts where the one before ends |
| `StreamChain.GreedyIsComplete` | src/scripts/zvol_storage.py:270-292 | if every incremental stream starts at an end of another, no head is dropped and the chain ends at the newest end |
| `StreamChain.NothingNewerIsReachable` | src/scripts/zvol_storage.py:270-292 | on any listing in which no two streams have the same end, no chain of its streams ends later than the one that is found |
| `StreamChain.GreedyCanMiss` | src/scripts/zvol_storage.py:270-292 | with equal ends it can: four streams with a chain up to 3 of which only the part up to 2 is found |
| `StreamChain.ChainIgnoresOrder` | src/scripts/zvol_storage.py:455-467 | the order in which the directory is listed has no influence on the chain |
| `StreamChain.AnchoredChainReachesNewest` | src/scripts/zvol_storage.py:249-292 | the same completeness for a directory as a set |
| `Receive.SearchBack` | src/scripts/zvol_storage.py:506-531 | the loop over chain and snapshots ends and finds the specified plan, with Python's negative indices |
| `Receive.PlanReceive` | src/scripts/zvol_storage.py:484-531 | the special cases and the search decide as specified, including the IndexError without a chain |
| `Receive.PlanJoinsIff` | src/scripts/zvol_storage.py:484-531 | the decision joins a kept snapshot to the chain exactly in recoverable states, and then at the greatest common timestamp |
| `Receive.SuffixIsAccepted` | src/scripts/zvol_storage.py:545-547 | every stream of a suffix is acceptable when applied, and the snapshots it brings are the recorded ones |
| `Receive.JoinedPlanSucceeds` | src/scripts/zvol_storage.py:530-547 | a plan that joins up leaves the kept snapshots followed by those of the applied streams |
| `Receive.UnjoinedPlanIsRefused` | src/scripts/zvol_storage.py:530-547 | a plan that does not join up is refused at its first stream, and only the rollback has happened |
| `Receive.ReceiveRestoresIff` | src/scripts/zvol_storage.py:469-547 | receiving succeeds if and only if the state is recoverable; then the newest snapshot is the chain's end with its image, else a prefix of the old snapshots is left |
| `Receive.ReceiveIsIdempotent` | src/scripts/zvol_storage.py:469-547 | receiving again changes nothing, for no, one or many snapshots |
| `Receive.MountedIsUntouched` | src/scripts/zvol_storage.py:474-478 | with the pool imported nothing changes, and it is an error unless there is nothing to receive |
| `Receive.SurvivesIff` | src/scripts/zvol_storage.py:484-547 | a snapshot is still there with its image after a receive that succeeds if and only if it is at a chain boundary, or there are several snapshots and streams and a later one is |
| `Receive.ReceiveKeepsVolumeIff` | src/scripts/zvol_storage.py:484-547 | the volume stays as it was, live image included, if and only if its newest snapshot is the chain's end and it has one snapshot exactly if the chain has one stream; else the chain's last image is live |
| `Receive.LeftoversMatterIff` | src/scripts/zvol_storage.py:474-493 | a leftover file that is no stream makes a difference exactly if there is no stream and the pool is imported or there is one snapshot; then the receive fails instead of doing nothing |
| `Receive.RefusedExamples` | src/scripts/zvol_storage.py:509-531 | two concrete nodes on which the receive is refused |
| `Interrupted.UntilIsPrefix` | src/scripts/zvol_storage.py:545-547 | a process that dies after m streams has applied the first m, and does not report success |
| `Interrupted.LongLifeReceivesAll` | src/scripts/zvol_storage.py:469-547 | one that outlives the chain has received as if nothing could kill it |
| `Interrupted.CutIsPartOfTheEnd` | src/scripts/zvol_storage.py:533-547 | it leaves the kept snapshots followed by the first ones that the undisturbed receive would have brought, or only the rollback if that would have been refused |
| `Interrupted.CutIsRecoverable` | src/scripts/zvol_storage.py:484-547 | wherever a receive along a plan that joins up is cut, the snapshots left are true and ordered and the state is recoverable again |
| `Interrupted.CutIsLive` | src/scripts/zvol_storage.py:533-547 | a receive that dies leaves the volume as it was, or none, or one that is live at its newest snapshot |
| `Interrupted.CutThenReceive` | src/scripts/zvol_storage.py:469-547 | a second receive then succeeds and ends at the same snapshot with the same image |
| `Send.NewestIn` | src/scripts/zvol_storage.py:574-581 | the start is the newest snapshot at which a large enough stream ends |
| `Send.SentIff` | src/scripts/zvol_storage.py:549-619 | a send is done exactly if the stream was written and the discard was not cut short; a stream that ends now is there exactly if it was written; which old streams a completed send leaves; live image and snapshots stay whatever happens |
| `Send.AnyPartOfTheDiscardIsSafe` | src/scripts/zvol_storage.py:589-608 | whichever doomed streams are gone already, the files left hold a full chain that ends with the new stream |
| `Send.DiscardedIsTheSmallLast` | src/scripts/zvol_storage.py:570-608 | on a linear directory exactly a last stream that is too small is discarded, and the new one starts where the kept ones end |
| `Send.CompletedSendKeepsLinear` | src/scripts/zvol_storage.py:567-608 | a completed send appends to the chain or replaces its last stream, and all but the last are large enough |
| `Project.Project.Streams` | src/scripts/zvol_storage.py:455-467 | lists every stream of the directory once |
| `Project.Project.DestroyVolume` | src/scripts/zvol_storage.py:726-736 | exports and destroys, and touches no stream |
| `Project.Project.RecvStreams` | src/scripts/zvol_storage.py:469-547 | the node after it, and success or error, for every state of snapshots, pool and files, with or without a leftover file, and for a process that dies between streams |
| `Project.Project.RecvSequence` | src/scripts/zvol_storage.py:479-547 | plan, rollback and application of one chain, until the process dies |
| `Project.Project.ApplyStreams` | src/scripts/zvol_storage.py:545-547 | applies in order and stops at the first refusal, or when the process dies |
| `Project.Project.FindStart` | src/scripts/zvol_storage.py:573-581 | the search from the newest snapshot back finds the specified start |
| `Project.Project.SendStreams` | src/scripts/zvol_storage.py:549-619 | the node after it for each way a send can end; it is done if and only if snapshot and stream succeed and the process lives through the listing, and only a written stream ends now; live image and snapshots stay |
| `Project.Project.Discard` | src/scripts/zvol_storage.py:600-608 | unlinks only doomed streams, and all of them if it is not cut short |
| `Project.Project.Close` | src/scripts/zvol_storage.py:699-710 | with a send the volume of a machine is destroyed if and only if snapshot and stream succeeded and the discard was completed, and then a stream that ends now is there; else live image and snapshots stay; what is discarded is what the protocol allows |
| `Project.Project.ImportPool` | src/scripts/zvol_storage.py:396-416 | creates, receives or just mounts; a success leaves an imported pool, a refusal the node as `Reopen.ImportSucceedsIff` says |
| `Project.Project.Replicate` | src/scripts/zvol_storage.py:712-724 | the target's files are the source's, or both with the source's winning, file by file |
| `Project.ClosedIff` | src/scripts/zvol_storage.py:699-710 | closing is done exactly if the volume is gone, and with a send that is exactly if the send was done; else live image and snapshots stay |
| `Cluster.RunKeepsInv` | src/scripts/zvol_storage.py:396-724 | over every run of writes, sends that complete, fail or are killed, closes, imports that complete, are refused or are killed, crashes and replications, all files and snapshots stay true and linked to one history |
| `Cluster.StepKeepsInv` | src/scripts/zvol_storage.py:396-724 | each single step keeps that invariant |
| `Cluster.SendingKeepsNodeOk` | src/scripts/zvol_storage.py:549-619 | the active machine stays sound and up to date however its send ends |
| `Cluster.ReceivingKeepsNodeOk` | src/scripts/zvol_storage.py:469-547 | receiving keeps a machine sound even when it is refused |
| `Cluster.InterruptedKeepsNodeOk` | src/scripts/zvol_storage.py:469-547 | a receive that dies between two streams leaves a sound machine |
| `Cluster.RecoverableGuard` | src/scripts/zvol_storage.py:484-531 | in reachable states recoverability is a comparison of the newest snapshot with the ends of the chain |
| `Cluster.RestoreGivesLastSent` | src/scripts/zvol_storage.py:469-547 | in every reachable state a receive on an up-to-date machine succeeds exactly under that guard and then ends at the last sent snapshot |
| `Cluster.RefusedReceiveChangesNothing` | src/scripts/zvol_storage.py:469-547 | in every reachable state a receive that does not succeed leaves the machine exactly as it was |
| `Cluster.InterruptedReceiveResumes` | src/scripts/zvol_storage.py:469-547 | in every reachable state, if a receive would succeed, it may die after any number of streams: a second one succeeds and ends at the last sent snapshot with its image |
| `Cluster.RestoreGivesBackWhatWasSent` | src/scripts/zvol_storage.py:469-608 | the image it brings back is the one that was live when that stream was sent, whatever happened since |
| `Cluster.CloseThenImport` | src/scripts/zvol_storage.py:396-416 | closing and importing again, here or on another machine without a volume, gives back the live image |
| `Cluster.FailedSendBlocksReceive` | src/scripts/zvol_storage.py:557-619 | with at least two streams, one failed send makes the next receive on that machine refuse |
| `ClusterRuns.NewerSnapshotIsReachable` | src/scripts/zvol_storage.py:510-531 | a complete run with one failed send that ends where the receive is refused, the volume being newer than the chain |
| `ClusterRuns.OlderSnapshotsAreReachable` | src/scripts/zvol_storage.py:510-531 | a complete run over two machines that ends where it is refused, the snapshots being older than the chain |
| `Reopen.ClosedIsSent` | src/scripts/zvol_storage.py:549-710 | in every run, a close with a send destroys a volume only after its live image has become the last thing sent, with the stream in the directory |
| `Reopen.ClosedComesBack` | src/scripts/zvol_storage.py:396-710 | from then on, until something newer is sent, every machine without a volume that has the newest stream gives that image back |
| `Reopen.LiveStays` | src/scripts/zvol_storage.py:396-724 | in every run what is live on a machine stays, and no snapshot is lost, until that machine is written to, imported or closed for good: through sends however they end, failed closes, crashes and replications |
| `Reopen.ImportSucceedsIff` | src/scripts/zvol_storage.py:396-416 | in every reachable state an import of a machine with a volume succeeds exactly if there is nothing to receive or the newest of several snapshots is not outside the chain; if it fails nothing has changed |
| `Reopen.ImportKeepsVolumeIff` | src/scripts/zvol_storage.py:396-547 | in every reachable state a successful import leaves the volume and its live image as they were exactly if there was nothing to receive or the chain's end was there already |
| `Reopen.ImportKeepsSnapshotIff` | src/scripts/zvol_storage.py:396-547 | in every reachable state, which snapshots a successful import keeps |
| `Cluster.ActiveHoldsBoundaries` | src/scripts/zvol_storage.py:549-608 | in every reachable state with the project open, its chain ends with the last stream sent and every boundary is a snapshot |
| `Cluster.TidyRunKeepsLinear` | src/scripts/zvol_storage.py:567-608 | while no process is killed in a discard and every `rsync` runs with `--delete`, every stream directory is one chain at every step |
| `ExecJob.Accept` | src/packages/backend/execute-code.ts:524-544 | cutting output chunk by chunk gives the first characters of the whole, however it was split |
| `ExecState.SentIsFollowed` | src/packages/backend/execute-code.ts:465-485 | a batch adds exactly what was buffered to the streamed output, and every listener goes on following |
| `ExecState.FinishedSettles` | src/packages/backend/execute-code.ts:250-295 | the one `finished` event comes after the streamed output, and serves every listener that followed |
| `ExecState.ConcludedIsOk` | src/packages/backend/execute-code.ts:614-769 | whatever `finish` does, waiting, holding or calling back, the job is consistent afterwards, and over if nothing is missing |
| `ExecState.TimedOutIsOk` | src/packages/backend/execute-code.ts:772-800 | after a kill the job has called back or its forced completion is pending |
| `ExecState.NextIsOk` | src/packages/backend/execute-code.ts:524-800 | every event keeps the invariant: one call once the job is over, output streamed and buffered is the output, listeners follow or are served |
| `ExecState.FollowingContinues` | src/packages/backend/exec-stream.ts:76-84 | a running listener is sent each event that is emitted |
| `ExecState.FollowingEnds` | src/packages/backend/exec-stream.ts:91-97 | the `finished` event sends done and null, and detaches |
| `ExecState.ServedMeansProtocol` | src/packages/backend/exec-stream.ts:74-131 | one job message, output, one done with the final entry, one null; the snapshot without its last k characters, followed by the output sent, is all that was streamed, of stdout and, if no error had been reported at the join, of stderr |
| `ExecState.SnapshotOverlapsByLag` | src/packages/backend/exec-stream.ts:104-122 | snapshot and later output together exceed the streamed output by the k buffered characters, so they equal it exactly if k is 0; the same for stderr |
| `ExecJob.Job.constructor` | src/packages/backend/execute-code.ts:356-501 | a job starts with nothing received, its timers armed if it was spawned; otherwise it is over at once |
| `ExecJob.Job.SendBatched` | src/packages/backend/execute-code.ts:465-485 | the stdout buffer, then the stderr buffer, go out as one event each, in this order, and are empty |
| `ExecJob.Job.Flush` | src/packages/backend/execute-code.ts:488-494 | stops the batch timer and leaves nothing buffered |
| `ExecJob.Job.CallBack` | src/packages/backend/execute-code.ts:250-295 | one more call, and for a job its entry in the cache and one `finished` event with it |
| `ExecJob.Job.Finish` | src/packages/backend/execute-code.ts:614-641 | not ready, on hold or called back, as its guards prescribe |
| `ExecJob.Job.Complete` | src/packages/backend/execute-code.ts:641-769 | flushes, stops the timers, and then calls back once with what its branches prescribe; a result that is reported is what the job then holds |
| `ExecJob.Job.OnStdout` | src/packages/backend/execute-code.ts:524-544 | stdout is the first characters received, streamed or buffered, and in the cache at once |
| `ExecJob.Job.OnStderr` | src/packages/backend/execute-code.ts:546-566 | the same for stderr while no error event has come, and the cache has it at once in any case |
| `ExecJob.Job.OnStdoutEnd` | src/packages/backend/execute-code.ts:573-576 | the end of stdout finishes the job if nothing else is missing; else the exit code stays |
| `ExecJob.Job.OnStderrEnd` | src/packages/backend/execute-code.ts:568-571 | the end of stderr finishes the job if nothing else is missing; else the exit code stays |
| `ExecJob.Job.OnExit` | src/packages/backend/execute-code.ts:584-587 | a missing exit code counts as 0; the exit finishes the job if nothing else is missing, else the kill timer stays armed |
| `ExecJob.Job.OnError` | src/packages/backend/execute-code.ts:592-606 | the error goes to stderr after a flush that leaves nothing buffered and stops the batch timer, and counts as exit code 1 if there is none |
| `ExecJob.Job.OnKillTimer` | src/packages/backend/execute-code.ts:772-800 | after a kill the job has called back, or it keeps its exit code and one more forced completion with the timeout is pending |
| `ExecJob.Job.OnForceTimer` | src/packages/backend/execute-code.ts:632-639 | a forced completion ends the job with its own error, whether or not its pipes close |
| `ExecJob.Job.OnBatchTimer` | src/packages/backend/execute-code.ts:499-501 | a tick emits what is buffered |
| `ExecJob.Job.Join` | src/packages/backend/exec-stream.ts:74-131 | a listener gets the cached snapshot at once, and the end as well if the job is over |
| `ExecRun.CallbackFires` | src/packages/backend/execute-code.ts:568-800 | a job calls back exactly at the first event that is the last of both pipe ends and an exit code, or an effective kill, or a pending forced completion; with the outcome read off the events until then, and never again |
| `ExecRun.ResultIsTheOutput` | src/packages/backend/execute-code.ts:641-769 | in every run the call of a job that has ended has no error exactly if it was not timed out, reported no error and did not fail where failing matters; then stdout and stderr are the first characters written until the end, each with the note exactly if it reached the limit, and the code is the exit code; else the error is the one prescribed |
| `ExecRun.CacheIsTheResult` | src/packages/backend/execute-code.ts:250-295 | at its end a job's cached entry and its `finished` event carry the three parts of that result, or the error |
| `ExecRun.CodeIsOfLastExit` | src/packages/backend/execute-code.ts:584-587 | the exit code is the one the last exit gave, and 0 if it gave none |
| `ExecRun.KilledJobEndsIff` | src/packages/backend/execute-code.ts:614-641 | a kill ends the job at once unless it is an asynchronous job with an exit code; then the end is the regular one or a forced one |
| `ExecRun.KilledJobReportsTimeoutIff` | src/packages/backend/execute-code.ts:614-800 | for every run: a killed job reports the timeout if and only if it had no exit code, or is not asynchronous, or the forced completion of the kill is what ends it; otherwise it reports what it would without the kill |
| `ExecRun.KilledJobCanComplete` | src/packages/backend/execute-code.ts:578-639 | a run in which a killed job is recorded as completed with exit code 0 |
| `ExecRun.CompletedIff` | src/packages/backend/execute-code.ts:250-295 | in every run a job is recorded as completed if and only if its end was not the kill or the kill's forced completion, no error was reported, and it did not fail where failing matters; what a failed one shows |
| `ExecRun.StreamIsConserved` | src/packages/backend/execute-code.ts:462-647 | in every run the stdout events before the one `finished` event are the first characters written until the end; before that, events and buffer are the first characters written so far |
| `ExecRun.StderrIsConserved` | src/packages/backend/execute-code.ts:462-647 | in every run the stderr events before the `finished` event are exactly what was accepted of each chunk until the end; before that, together with the buffer |
| `ExecRun.StderrIsCompleteIff` | src/packages/backend/execute-code.ts:546-606 | what was accepted is the stderr that is kept, and then the first characters written, if and only if no error with a text was reported until the end |
| `ExecRun.CacheIsTheOutput` | src/packages/backend/execute-code.ts:506-566 | while a job runs its cached entry has the first characters of stdout and of stderr; of stderr only the texts of errors since its last chunk are missing |
| `ExecRun.ListenersAreServed` | src/packages/backend/exec-stream.ts:74-131 | in every run each listener that ever joined gets the snapshot of its moment and all events since; once the job is over, the whole protocol with the overlap that was buffered at that moment, in stdout and in stderr |
| `ExecRun.SnapshotCanOverlap` | src/packages/backend/exec-stream.ts:104-122 | a run in which a listener is sent the same output twice |
| `ExecRun.RunJob` | src/packages/backend/execute-code.ts:524-800 | the class, driven by any sequence of events, makes the calls, events and messages that the sequence prescribes, with the output in them |
| `ProcessStats.RequestTable.EnsureWorker` | src/packages/backend/process-stats.ts:103-141 | a worker is there unless its script is missing, and then never again |
| `ProcessStats.RequestTable.ScanProcesses` | src/packages/backend/process-stats.ts:212-260 | a request is pending with a timer, or rejected at once if posting throws |
| `ProcessStats.RequestTable.OnMessage` | src/packages/backend/process-stats.ts:143-169 | a start replaces the timer, a result or error settles exactly its own request, and late messages change nothing |
| `ProcessStats.RequestTable.OnTimer` | src/packages/backend/process-stats.ts:187-209 | a timer that fires finds its own request pending, and rejects only that |
| `ProcessStats.RequestTable.RejectAllPending` | src/packages/backend/process-stats.ts:171-177 | rejects exactly what is pending, with the reason given, and stops every timer |
| `ProcessStats.RequestTable.OnWorkerGone` | src/packages/backend/process-stats.ts:123-138 | after an error or exit nothing is pending and a new worker is due |
| `ProcessStats.HandedAreAsked` | src/packages/backend/process-stats.ts:212-249 | a request has a fate exactly if it found a worker, and its number was issued |
| `ProcessStats.SettledIff` | src/packages/backend/process-stats.ts:143-259 | for every run a request ends in a given way if and only if some event ended it so: a result or error for it while it waits, its own live timer, the end of a worker, or a failed post |
| `ProcessStats.SettledOnce` | src/packages/backend/process-stats.ts:143-259 | no request is settled by two events |
| `ProcessStats.RunTable` | src/packages/backend/process-stats.ts:143-260 | driven by any sequence of events, the table holds exactly what the sequence says of each request; timers and pending requests are in bijection; handed requests are pending or settled |
| `ProcessTree.ChildrenOf` | src/packages/backend/execute-code.ts:381-387 | the monitor's loop lists each process once under its parent |
| `ProcessTree.SumChildren` | src/packages/backend/process-stats.ts:286-309 | the sum of every known pid that is not its own ancestor exists, whatever cycles there are elsewhere, and is taken over exactly the processes whose parent chain reaches it |
| `ProcessTree.TotalIsASum` | src/packages/backend/process-stats.ts:296-306 | that sum adds memory, seconds and percentage of each process, once |
| `ProcessTree.SumEndsIff` | src/packages/backend/process-stats.ts:286-309 | the recursion ends within some depth if and only if pid is not its own ancestor |
| `ProcessTree.CycleExample` | src/packages/backend/process-stats.ts:286-309 | two processes that are each other's parents: their sums exceed every depth, while that of a third process in the same table is found at once |
| `ProcessTree.TreeIsRootAndKids` | src/packages/backend/process-stats.ts:300-306 | a process tree is its root and the trees of the root's children |
| `ProcessTree.SiblingsAreDisjoint` | src/packages/backend/process-stats.ts:300-306 | below a process that is not its own ancestor no process is counted under two children |
| `Analytics.RateLimiter.CheckRateLimit` | src/packages/hub/analytics.ts:53-69 | the new window and the answer for one call |
| `Analytics.AtMostPerInterval` | src/packages/hub/analytics.ts:29-69 | in every run any n seconds contain at most 10 (n + 1) allowed calls |
| `Analytics.BoundIsReached` | src/packages/hub/analytics.ts:29-69 | for every n some run meets that bound |
| `Analytics.OneResetPerSecond` | src/packages/hub/analytics.ts:56-60 | at most one call in a second starts a new window |
| `Analytics.CountAroundReset` | src/packages/hub/analytics.ts:53-69 | a second in which call r starts a new window holds what was allowed of it before r, and up to ten of the calls from r on |
| `Analytics.TenPerSecondIff` | src/packages/hub/analytics.ts:29-69 | in every run a second holds at most ten allowed calls if and only if no call in it starts a new window or that sum is at most ten |
| `Analytics.Sanitize` | src/packages/hub/analytics.ts:78-98 | the loop and its recursion compute the specified payload |
| `Analytics.SanitizedIsClean` | src/packages/hub/analytics.ts:78-98 | whatever comes in, nesting, number and length of keys and strings are bounded and nulls are gone |
| `Analytics.SanitizedHolds` | src/packages/hub/analytics.ts:82-96 | which pairs a sanitized payload holds: those among the first 20 that are not null and not overwritten, shortened, and no others |
| `Analytics.SanitizedSelects` | src/packages/hub/analytics.ts:78-98 | the same without the functions of the model: one pair for each of the first 20 that is not null and whose key differs from all later ones in the first 50 characters; keys cut after 50, strings after 2000 characters, objects likewise, the third level replaced by a note |
| `Analytics.CleanIsFixed` | src/packages/hub/analytics.ts:78-98 | a payload within the bounds passes unchanged |
| `Analytics.SanitizeIsIdempotent` | src/packages/hub/analytics.ts:78-98 | sanitizing a sanitized payload changes nothing |
| `Subjects.MatchesPattern` | src/packages/conat/util.ts:18-37 | the loop agrees with the token semantics of `*` and `>` for all strings |
| `Subjects.MatchesStep` | src/packages/conat/util.ts:18-37 | matching token by token: `>` takes one or more tokens, `*` one, any other token itself |
| `Subjects.IsValidSubject` | src/packages/conat/util.ts:41-65 | the loop accepts exactly the subjects without empty tokens, white space or an early `>` |
| `Subjects.ValidIff` | src/packages/conat/util.ts:41-65 | validity in terms of characters: no dot at the start, after every dot a character that is none, no white space, no `>` as a token before the last |
| `Subjects.SpacesAre` | src/packages/conat/util.ts:54-61 | the characters that count as white space |
| `Subjects.IsValidSubjectWithoutWildcards` | src/packages/conat/util.ts:67-71 | the same with no `*` anywhere and no final `>` |
| `Subjects.PlainIff` | src/packages/conat/util.ts:67-71 | in terms of tokens: none is empty, is `>`, or holds white space or a star, and the last does not end with `>` |
| `Subjects.JoinOfSplit` | src/packages/conat/util.ts:25-26 | joining the tokens with dots gives back the string |
| `Subjects.SplitOfJoin` | src/packages/conat/util.ts:25-26 | splitting joined tokens without dots gives back the tokens |
| `Subjects.PlainMatchesOnlyItself` | src/packages/conat/util.ts:18-71 | a valid subject without wildcards, as a pattern, matches itself and nothing else |
| `Subjects.LiteralIff` | src/packages/conat/util.ts:18-37 | a pattern matches only itself exactly if none of its tokens is a wildcard |

## Left out

- Project.Project.SendStreams: a failed send is a clean failure here, as when `lz4c` or `mv` fails in the source. If `zfs send` itself fails, the pipeline still exits with 0 and the broken stream has been moved into place; the source then looks for "does not exist" in the output, but its `os.unlink` of the `.partial` file that is gone (zvol_storage.py:597) raises an OSError, which the handler at zvol_storage.py:609 does not catch, so the broken stream stays. This takes a snapshot that disappears in between, which the discipline above excludes; other error texts of `zfs send` go unnoticed in the source and are not modelled either.
- Project.Project.RecvStreams: a send that is killed inside `zfs send` leaves its `.partial` file behind; the class takes this as an input, but the runs of `Cluster` assume that no such file lies in a directory without streams.
- Interrupted.CutThenReceive: a process is killed between streams, not inside one `zfs recv`, which ZFS undoes by itself.
- Receive.SuffixIsAccepted: the source passes `-F` to `zfs recv`, which first drops changes to the live volume since its newest snapshot; live changes are replaced by every receive here too, and snapshots are not affected.
- Project.Project.ImportPool: `create` is modelled for the case in which it is called, without a chain; users, mounts and quotas are left out.
- Cluster.RestoreGivesLastSent: it speaks of snapshots; writes to a live volume that were not snapshotted are lost by a rollback and not tracked. Clock regressions, snapshots pruned from outside and two machines writing at once are excluded by the discipline above.
- Cluster.TidyRunKeepsLinear: a killed discard or an `rsync` without `--delete` leaves stale streams behind; for such runs the weaker but sufficient `Send.Supported` is what is kept.
- ExecJob.Job.OnStderr: after an error event its clauses say only what is counted as received; what is streamed from then on is stated by `ExecRun.StderrIsConserved`.
- ExecJob.Job.OnStdout: output that arrives after the callback is outside the claims; the source still appends it.
- ExecRun.CompletedIff: messages are arbitrary non-empty texts; the interpolated command, limit and truncation are not spelled out.
- ExecJob.Job.Join: the cache entry is taken to stay in the cache; eviction, the `streamCB` channel, pids, times and the contents of statistics are left out.
- ExecRun.RunJob: an event that Node would not deliver (an unarmed timer, any event of a process that was not spawned) is skipped; forced completions may be due in any order.
- ExecState.ServedMeansProtocol: for a listener that joins after an error event the snapshot's stderr and the streamed stderr are not related, since the cache may have the error text and the stream never has.
- ProcessStats.RequestTable.ScanProcesses: the inline scan, the durations of timeouts and the sharing of one scan by several callers are left out.
- ProcessTree.SumChildren: usage numbers are reals, without rounding; the source fails for a pid that is its own ancestor, as `ProcessTree.SumEndsIff` says.
- ExecJob.Accept, Analytics.Sanitize: limits count characters, which are Unicode scalar values here and UTF-16 units in the source.
- Analytics.Sanitize: an array is its list of index-value pairs; the reordering of integer-like keys and the key `__proto__` are not modelled.
- Subjects.IsValidSubject: strings are sequences of Unicode scalar values, without lone surrogates.
- CORS checks, Express routes, database writes, worker creation, `/proc` scanning, spawning and temporary files are not part of this model.
