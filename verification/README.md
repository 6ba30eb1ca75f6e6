# A Dafny model of ploy

Ploy is a control plane for code migrations. A wave starts one run per repository; a run is a chain of jobs linked
by `next_id`; worker nodes claim jobs, report their completion and stream their logs; failed or cancelled runs can be
restarted in full or resumed from the failed job. This project models five parts of it and proves what they promise,
over every run of events and every interleaving rather than for single calls.

* **The store** (`StoreModel`, `StoreInvariant`, `StoreSteps`, `StoreInsert`, `StoreRestart`, `StoreRuns`,
  `StoreEvolution`, `StoreTheorems`, `StoreCancel`, `StoreFinished`, `StoreWaiting`, `StoreEffects`, `StoreLaunches`,
  `StoreHeld`, `StoreProgress`, `StoreRetry`, `StoreAhead`, `ResumeSuffix`, `JobChain`, `PgStore`, `RepoGuard`,
  `GuardProgress`). Each transaction is a function on the rows. `StoreRuns.At(run, n)` is the database after the first
  `n` events of an arbitrary event sequence; a refused event changes nothing; claims are never forgotten, so a
  completion may arrive late, repeatedly or never. For every event there is a statement of which rows it changes and to
  what, and of when it is accepted; from these it follows that workers can always finish a chain whose front is
  active (`StoreProgress.NeverStuck`). `PgStore.Store` is the store as a class that changes rows step by step and commits or
  rolls back, each method proved against its transaction function. `JobChain.Order` is the ordering of jobs along
  their links and `ResumeSuffix.FailedJobSuffix` the search for the suffix to resume. `RepoGuard` splits the
  transactions that create or restart runs into lock, check, insert and commit steps.
* **The stream hub** (`Events`, `Ring`, `HubModel`, `Hub`). The circular history buffer as a class over an array, a stream as a
  state machine that keeps every subscriber it ever had, and a stream as a class proved step by step against it.
* **The log streamer** (`LogFraming`, `LogCodec`, `LogStreamer`, `LogReading`, `LogReaders`). Byte writes on two
  streams become frames, frames become numbered chunks, and sends overlap with writes. Two readers are shown what the
  chunks decode to: the backfill in number order, the live stream in the order of arrival.
* **Spec composition** (`SpecTree`, `RepoPaths`, `Pointer`, `Includes`, `IncludeTheorems`, `IncludeInPlace`,
  `IncludeWitnesses`, `IncludeProgram`, `DeepMerge`, `DeepMergeProgram`, `SpecComposition`). Recursive `!include` with cycle detection against plain
  substitution; the resolver on objects that are replaced in place and shared through a cache, proved against a walk
  over a changing tree; JSON Pointer fragments; and the expansion of `<<` keys against a reading of documents as
  dictionaries.
* **Node slots** (`Slots`) and **event frames** (`Sse`), with `Text` for cutting and joining texts and `Wrappers` for
  optional values.

Results that differ from what the code or its comments suggest:

* The repository guard locks rows that exist when its lock query runs. `RepoGuard.GuardIsExact` shows that one active
  run per repository holds over all schedules exactly when every repository that may be named exists from the start;
  `RepoGuard.UnknownRepositoryRaces` gives the race for any repository that does not. `RepoGuard.OneActiveRun` is the
  result for a single schedule.
* Include ids are file names with the fragment behind a hash, so two different targets can share an id. Composition is
  substitution exactly when no chain of includes from the specification meets two such targets
  (`IncludeTheorems.ComposeIsSubstitution`); otherwise a cycle is reported where there is none
  (`IncludeTheorems.ClashesReportCycles`, with `IncludeTheorems.HashesCollide` for a directory whose name ends in a
  hash). File names without hashes never clash (`IncludeTheorems.HashFreeNeverClashes`).
* The specification's own tree is cached under its name while it changes, so a specification can include a fragment of
  itself that only appears when an earlier include is replaced (`IncludeWitnesses.OrderMatters`); with the entries
  swapped it is refused. A key that is an include can also be replaced before it is looked up: then a specification
  is refused that unchanging files would compose (`IncludeWitnesses.KeysMove`), or is composed to another tree without
  any error (`IncludeWitnesses.KeysShadow`). Where replacing keys changes no look-up on the ways to the fragments that
  a specification names of itself, what is composed in place is a substitution exactly when those fragments are in it
  as written (`IncludeInPlace.InPlaceIsSubstitution`). A specification that is not named by any include is composed as
  from unchanging files (`IncludeInPlace.UnnamedComposes`).
* A tilde that escapes nothing and array indices with signs or leading zeros are accepted in fragments, which sections
  3 and 4 of RFC 6901 do not. `Pointer.SelectsAsInRfc` states for pointer texts exactly where the two differ;
  `Pointer.TildeIsAccepted` and `Pointer.SignIsLoose` are such pointers.
* A chunk without frames can be sent, because any write flushes the compressor, and the decoder rejects such a chunk
  (`LogReading.EmptyChunk`). Every chunk is read back exactly when every flush that cut a chunk had a completed frame
  (`LogReading.ChunksAreReadBack`).
* The backfill skips such chunks and shows exactly the frames that were written if and only if none of them exceeds
  the scanner's line limit (`LogReaders.BackfillShowsTheLog`). The live stream shows every frame once and one decode
  error for each chunk without frames, but in the order in which chunks arrive (`LogReaders.LiveShowsEveryFrame`). It
  keeps the order of the lines, whatever the chunks hold, if and only if arrivals ascend (`LogReaders.TurnsAreExact`);
  `LogReaders.OvertakenLine` is a run in which two lines of stdout are shown the wrong way round.
* Event frames are read back exactly when types are single lines and data has no carriage return
  (`Sse.FramesReadBack`).
* Cancelling a wave that is already finished leaves its status, so its runs can be restarted afterwards
  (`StoreFinished.FinishedWaveComesBack`). A cancelled wave stays quiet whatever happens later exactly when it was not
  finished or has no run (`StoreFinished.CancelWaveIsExact`).

* A success of a job with a successor is refused unless the job's input is a canonical commit, and nothing replaces
  the input of the first unfinished job of a chain. Such a chain can go on exactly when that job is the last one or has
  a canonical input (`StoreProgress.FinishesExactly`); a run whose own commit is not canonical stops at its first job
  for good unless that is its only one.

Assumptions about code outside the model: surrounding code settles runs only to terminal statuses and never revives a
cancelled wave (`StoreRuns.OutsideTx`); a claim carries the resume count of its run at that moment; marshalling of a
frame can be read back and is one line (`LogCodec.Faithful`).

## Model

| member | source | states |
|---|---|---|
| StoreRuns.ReachableWith | internal/store/store.go:259-588 | every state that any sequence of transactions, late or repeated messages and outside steps reaches satisfies the store invariant |
| StoreTheorems.ExecutionFence | internal/store/resume_run.go:115-146 | a completion is applied only in the execution (attempt, resume count) in which its job was claimed; no restart of the run lies between |
| StoreTheorems.ExecutionsMoveOn | internal/store/store.go:482-494 | the pair (attempt, resume count) of a run never decreases lexicographically over any run of events |
| StoreTheorems.RestartMovesOn | internal/store/resume_run.go:57-66 | every accepted restart or resume raises that pair strictly |
| StoreTheorems.ChainShape | internal/store/store.go:496-545 | each attempt is one complete next_id chain: successes, one job in any status, then jobs that never started; older attempts hold only final jobs |
| StoreTheorems.OneLiveJob | internal/store/jobs.sql.go:66-99 | at most one job of a run is queued or running in any reachable state |
| StoreTheorems.OneActiveRun | internal/store/run_repo_guard.go:41-58 | no repository has two active runs in any reachable state |
| StoreTheorems.CommitThreading | internal/store/jobs.sql.go:707-736 | along the chain of all jobs of an attempt the head's input is the run's commit, each output is the successor's input, and the short columns are prefixes, in every reachable state |
| StoreTheorems.OwnersAgree | internal/store/jobs.sql.go:66-99 | jobs of one attempt that have a node have the same node |
| StoreTheorems.SuccessAnchors | internal/store/jobs.sql.go:66-99 | a successful job of the current attempt anchors the attempt at its node |
| StoreTheorems.ResumeAnchors | internal/store/resume_run.go:37-43 | a resume anchors the run at the node of its failed job |
| StoreTheorems.OwnerIsPermanent | internal/store/jobs.sql.go:677-693 | once anchored, the owner stays the same until the next attempt, through every unclaim, claim, cancellation and resume |
| StoreCancel.CancelRunIsPermanent | internal/store/store.go:355-394 | after a cancel of a run the run is not active and none of its jobs is created, queued or running, in any later state before the run is restarted |
| StoreCancel.CancelledWaveIsFinal | internal/store/store.go:428-434 | a cancelled wave stays cancelled, no restart in it is accepted and none of its jobs is claimed again |
| StoreCancel.CancelWaveIsPermanent | internal/store/store.go:548-588 | cancelling an unfinished wave leaves no active run in it and no active job in any of its runs, in every later state |
| StoreFinished.CancelWaveIsExact | internal/store/store.go:548-588 | after a cancel of a wave none of its jobs is active in any later state, over all continuations, if and only if the wave was not finished or has no run |
| StoreFinished.FinishedWaveComesBack | internal/store/store.go:397-480 | after a cancel of any finished wave with a run there are later events, settling rivals and restarting a run, that make one of its jobs active again |
| StoreInvariant.CancelInv | internal/store/jobs.sql.go:15-60 | cancelling any set of active jobs keeps the job invariant |
| StoreSteps.ClaimInv | internal/store/jobs.sql.go:66-99 | a claim keeps the store invariant |
| StoreSteps.UnclaimInv | internal/store/jobs.sql.go:677-693 | an unclaim keeps the store invariant |
| StoreSteps.CompleteInv | internal/server/handlers/jobs_complete_service.go:50-178 | an accepted completion with its promotion or cancellation keeps the store invariant |
| StoreInsert.CreateWaveInv | internal/store/store.go:259-308 | creating a wave with its runs and chains keeps the store invariant, also when it is refused half way |
| StoreRestart.FullRestartInv | internal/store/store.go:449-473 | a full restart keeps the store invariant and adds the chain of the next attempt |
| StoreRestart.ResumeInv | internal/store/resume_run.go:11-66 | a resume of the failed suffix keeps the store invariant |
| StoreWaiting.AlwaysWaiting | internal/store/jobs.sql.go:605-624 | in every reachable state the successor of an active job is created, an active job has no output, and a job that waits has not started |
| StoreWaiting.WalkBehind | internal/server/handlers/jobs_complete_cancel_chain.go:16-75 | the walk along next ids from a job of a chain visits exactly the jobs behind it |
| StoreEffects.GrantedExactly | internal/store/jobs.sql.go:66-99 | a node is granted a job if and only if the job is queued in a running run of a started wave, the node is known, undrained and named, and no other node has a job of the attempt |
| StoreEffects.ClaimTakes | internal/store/jobs.sql.go:66-99 | a granted job runs on the node and the node holds the claim of the current execution; no other row changes |
| StoreEffects.DrainedClaimsNothing | internal/store/jobs.sql.go:66-99 | from the step that drains a node to the one that undrains it the node is granted nothing |
| StoreEffects.UnclaimReturns | internal/store/jobs.sql.go:677-693 | an accepted unclaim queues the job again, changes no other row, and leaves it claimable by the node while node and run are fit |
| StoreEffects.UnclaimUndoesClaim | internal/store/jobs.sql.go:677-693 | a claim that is returned at once leaves every row as it was, except that a resumed run keeps its node |
| StoreEffects.SuccessMovesOn | internal/server/handlers/jobs_complete_service_post_actions.go:93-111 | an applied success writes the reported status and commit, queues the successor with that commit as its input unless its row is locked, and changes nothing else |
| StoreEffects.FailureStops | internal/server/handlers/jobs_complete_cancel_chain.go:16-75 | after an applied completion that is no success every job behind it in the attempt's chain is cancelled, the job has the reported status, and no other row changes |
| StoreHeld.AlwaysHeld | internal/store/jobs.sql.go:66-99 | in every reachable state the node of each running job holds a claim of the current execution |
| StoreHeld.RunningCanReport | internal/server/handlers/jobs_complete_service.go:50-178 | the node of a running job can end it at any time: its report is applied if and only if the result is final and a success with a successor has a canonical input and an output |
| StoreHeld.AppliedExactly | internal/store/resume_run.go:115-146 | a report is applied if and only if it carries its claim's resume count, the run is in the claim's execution, the job still runs on the reporting node, and the result can be applied |
| StoreHeld.RefusedReport | internal/store/resume_run.go:115-146 | a report that is not applied changes nothing |
| StoreLaunches.InsertRunsExactly | internal/store/store.go:278-305 | the runs of a wave are inserted if and only if all plans fit together: new runs, free and distinct repositories, new and distinct jobs; then exactly the planned rows are added |
| StoreLaunches.CreateStarts | internal/store/store.go:259-308 | a wave that is new and whose plans fit is started with its planned runs and chains, row i of a chain having plan i, and no other row changes; otherwise no row does |
| StoreLaunches.FullRestartStarts | internal/store/store.go:449-480 | a full restart makes wave and run go on, cancels what was active in the run, adds the planned chain under the next attempt, changes no other row, and every able node can claim the head |
| StoreLaunches.ResumeContinues | internal/store/resume_run.go:11-66 | a resume makes wave and run go on, queues the first job that did not succeed with its input and node, resets the jobs behind it, changes no other row, and the node can claim the job if it is able |
| StoreLaunches.RefusedRestart | internal/store/store.go:397-480 | a restart that is not accepted changes nothing |
| StoreLaunches.CancelRunStops | internal/store/store.go:355-394 | cancelling a run cancels its row if it was active and its active jobs, and changes nothing else |
| StoreLaunches.CancelWaveStops | internal/store/store.go:548-588 | cancelling a wave cancels its row if it was started, its active runs and their active jobs, and changes nothing else |
| StoreLaunches.RecoveryStops | internal/server/recovery/stale_job_recovery_task.go:119-123 | recovery of a stale attempt cancels its active jobs and changes nothing else |
| StoreRetry.RestartedExactly | internal/store/store.go:410-448 | a new attempt is accepted if and only if the request names the current attempt of a known run, its wave is not cancelled, no run of the repository is active, and new jobs are planned |
| StoreRetry.ResumedExactly | internal/store/resume_run.go:11-110 | a resume is accepted if and only if in addition the run failed or was cancelled, the resume count is the expected one, a job of the attempt failed on a canonical input, none is active, and the request plans every job that is left |
| StoreRetry.LastPlanCounts | internal/store/resume_run.go:22-36 | of several steps with one name in a request the last one counts |
| StoreRetry.RestartedRunFinishes | internal/store/store.go:397-480 | after a full restart any able node can bring every job of the new chain to success |
| StoreRetry.ResumedRunFinishes | internal/store/resume_run.go:11-66 | after a resume the node of the failed job, if able, can bring every job of the attempt to success |
| StoreProgress.NeverStuck | internal/server/handlers/jobs_complete_service.go:50-178 | from every reachable state in which the front of a running chain is active and its success can be applied, events of one able node bring the whole chain to success and touch nothing but the chain |
| StoreProgress.FinishesExactly | internal/server/handlers/jobs_complete_service.go:50-178 | some continuation brings the front job to success if and only if it is the last one or has a canonical input |
| StoreProgress.NeverSucceeds | internal/server/handlers/jobs_complete_service.go:50-178 | a first unfinished job with a successor and an input that is not canonical succeeds in no later state |
| StoreAhead.ActiveFront | internal/server/handlers/jobs_complete_cancel_chain.go:16-75 | no active job is stranded: in every reachable state everything before the first unfinished job of its chain succeeded and that job is active |
| JobChain.Order | internal/workflow/jobchain/order.go:11-98 | the result holds every job once, is the chain itself whenever the jobs form one chain, and is an order that the set of jobs determines |
| JobChain.OrderIsDeterministic | internal/workflow/jobchain/order.go:9-10 | two listings of the same jobs get the same order, also when their links are broken, branching or cyclic |
| JobChain.WalkChain | internal/workflow/jobchain/order.go:55-80 | walking from a job appends exactly the unvisited path along next ids and marks it visited |
| ResumeSuffix.CompleteChainCovers | internal/store/resume_run.go:68-84 | the length and link checks alone force a repetition-free permutation of the attempt's jobs |
| ResumeSuffix.ScanChain | internal/store/resume_run.go:85-110 | finds the failed job exactly when all before it succeeded, it is retryable, nothing after it ran, and one node owns the chain |
| ResumeSuffix.FailedJobSuffix | internal/store/resume_run.go:68-110 | succeeds if and only if the attempt is one complete chain with a resumable suffix, whatever order the jobs are listed in, and returns that chain and the failed position |
| PgStore.Store.ClaimJob | internal/store/jobs.sql.go:66-99 | claims the least eligible job in (run, attempt, id) order among unlocked rows, or none if there is none |
| PgStore.Store.UnclaimJob | internal/store/jobs.sql.go:677-693 | returns a claimed job to the queue; a resumed run keeps the node |
| PgStore.Store.CreatePlannedJobs | internal/store/store.go:496-545 | inserts the chain tail first with every link already present; fails exactly on an empty plan or an id in use |
| PgStore.Store.CreateWaveWithRuns | internal/store/store.go:259-308 | creates the wave, its runs and chains, or restores every row when one of them is refused |
| PgStore.Store.CancelRun | internal/store/store.go:355-394 | cancels the run and its active jobs; an unknown run changes nothing |
| PgStore.Store.CancelWave | internal/store/store.go:548-588 | cancels the wave unless finished, its active runs and all their active jobs |
| PgStore.Store.CancelRemaining | internal/server/handlers/jobs_complete_cancel_chain.go:16-75 | cancels exactly the active jobs reachable along next ids within the attempt |
| PgStore.Store.CompleteJob | internal/server/handlers/jobs_complete_service.go:50-178 | applies a completion exactly when fence and checks accept it; the job then has the reported status, a successor that waits for nothing else is queued with the reported commit, or the rest is cancelled; a refusal changes nothing |
| PgStore.Store.ResumeFailedJobs | internal/store/resume_run.go:11-66 | resets the failed suffix and raises the resume count exactly when the run can be resumed |
| PgStore.Store.RestartRun | internal/store/store.go:397-480 | starts a new attempt or resumes in place exactly when allowed; run and wave then go on; any refusal leaves all rows as they were |
| RepoGuard.NoDeadlock | internal/store/run_repo_guard.go:23-39 | with locks taken one at a time in id order the wait-for graph has no cycle of any length in any reachable state |
| RepoGuard.OneActiveRun | internal/store/run_repo_guard.go:41-58 | over every interleaving of lock, check, insert, commit and abort steps no repository gets two active runs, if named repositories exist |
| RepoGuard.UnknownRepositoryRaces | internal/store/run_repo_guard.go:23-39 | for any repository whose row appears after the lock queries, two transactions can both activate a run on it |
| RepoGuard.GuardIsExact | internal/store/store.go:278-305 | the guard holds over all schedules if and only if every repository that may be named exists from the start |
| GuardProgress.CreateCompletes | internal/store/store.go:278-305 | in every reachable state a request for new runs on known, free and unlocked repositories can be carried out by its own steps: its runs become active and nothing else changes |
| GuardProgress.RestartCompletes | internal/store/store.go:397-448 | likewise a restart of a run on a free and unlocked repository |
| GuardProgress.RestartsTakeTurns | internal/store/store.go:397-409 | two restarts of one run never both hold a lock |
| GuardProgress.RunsKeepTheirRepository | internal/store/run_repo_guard.go:41-58 | over every interleaving a run never loses its row and the row never moves to another repository |
| GuardProgress.AbortLeavesNothing | internal/store/store.go:259-308 | an abort gives up the transaction and its locks and leaves no other trace |
| GuardProgress.SettleFrees | internal/store/run_repo_guard.go:41-58 | a run that settles frees its repository and changes nothing else |
| Ring.Buffer.Push | internal/stream/hub.go:376-382 | the contents become the last `cap` of the old contents and the new event, in order |
| Ring.Buffer.Slice | internal/stream/hub.go:390-404 | returns the contents in insertion order from at most two pieces |
| Ring.Buffer.AfterId | internal/stream/hub.go:407-428 | returns exactly the events above the id, in order; everything for an id that is not positive |
| Ring.Buffer.constructor | internal/stream/hub.go:366-374 | an empty buffer of the given capacity, of one for a capacity that is not positive |
| Ring.RetainsTheLast | internal/stream/hub.go:376-404 | after any pushes the buffer holds the last min(n, cap) of them |
| Ring.PushAll | internal/stream/hub.go:366-404 | a new buffer into which events are pushed one by one holds the last `cap` of them |
| Ring.AfterIsSuffix | internal/stream/hub.go:407-428 | on consecutive ids the filter is an unbroken tail |
| HubModel.Normalize | internal/stream/hub.go:33-43 | sizes are positive, history is at least the buffer, valid options are unchanged |
| HubModel.GapFreeDelivery | internal/stream/hub.go:460-508 | in every reachable state each subscriber was sent an unbroken stretch of the published events, all through the newest while registered; the retained events are the newest ones with consecutive ids |
| HubModel.ClosedForGood | internal/stream/hub.go:556-570 | a closed subscriber stays closed and is sent nothing more; published events keep their ids, also across resumes |
| HubModel.MissCloses | internal/stream/hub.go:474-491 | a published event is sent to a registered subscriber or closes it, depending on free space only |
| HubModel.JoinsWhereAsked | internal/stream/hub.go:495-508 | a subscription starts right after the given id, at the oldest retained event, or at the next event |
| HubModel.GenerationIsMax | internal/stream/hub.go:574-598 | the generation is the lexicographic maximum of all resume notices with a positive count |
| HubModel.NoticesCommute | internal/stream/hub.go:588-598 | streams that received the same set of notices, in any order and number, are in the same generation |
| HubModel.HistorySinceRise | internal/stream/hub.go:588-598 | the history is always the last events published since the generation last rose, so it is cleared exactly then |
| HubModel.PublishedExactly | internal/stream/hub.go:460-493 | the published events are exactly those of the publish steps that found the stream open, numbered from one, whatever the subscribers do |
| HubModel.ClosedExactly | internal/stream/hub.go:525-598 | a stream is closed if and only if a finish came after the last resume notice that was greater than all before it |
| HubModel.OpenExactly | internal/stream/hub.go:460-541 | a subscription stays open until its cancel, a finish or an event that finds its channel full, and no longer |
| HubModel.JoinsExactly | internal/stream/hub.go:314-338 | a subscribe step with a valid id adds one subscription, which was sent the retained events from its start on as far as its channel holds them and is open if and only if all fitted and the stream is open; no other step adds any |
| HubModel.ReceivesExactly | internal/stream/hub.go:543-570 | a consumer takes one event at a time while there is one, and nothing else takes any |
| Hub.Stream.Publish | internal/stream/hub.go:460-493 | performs the publish step: an open stream publishes exactly the event with the next id, a closed one changes nothing; no event is sent on a closed channel |
| Hub.Stream.Subscribe | internal/stream/hub.go:314-338 | performs the subscribe step, replay and drop on a full channel included; a negative id is refused |
| Hub.Stream.Cancel | internal/stream/hub.go:510-523 | performs the cancel step through the id, closing at most once |
| Hub.Stream.Finish | internal/stream/hub.go:525-541 | performs the finish step: closes the stream and every registered channel |
| Hub.Stream.Resume | internal/stream/hub.go:588-598 | performs the resume step with a fresh buffer |
| LogFraming.FeedIsSplit | internal/nodeagent/logstreamer.go:163-189 | framing byte by byte gives the trimmed non-empty lines and the tail of the text's only split at newlines |
| LogFraming.BlankExactly | internal/nodeagent/logstreamer.go:191-205 | trimming white space leaves nothing if and only if the bytes are a concatenation of UTF-8 encodings of white-space characters |
| LogFraming.TailFrameOf | internal/nodeagent/logstreamer.go:191-205 | an unterminated tail gives no frame if and only if it is white space, and else one record of its stream whose line is the tail without trailing carriage returns |
| LogFraming.FramesOnce | internal/nodeagent/logstreamer.go:163-205 | the lines and the tail of a text decide its frames |
| LogStreamer.TickSendsAll | internal/nodeagent/logstreamer.go:208-228 | after a tick before the close every frame so far is in a chunk |
| LogStreamer.CutLines | internal/nodeagent/logstreamer.go:173-187 | the line loop appends exactly the frames of the complete lines and returns the rest |
| LogStreamer.Streamer.AppendProcessed | internal/nodeagent/logstreamer.go:163-189 | frames new bytes behind the stream's own pending text |
| LogStreamer.Streamer.FlushPending | internal/nodeagent/logstreamer.go:191-205 | appends one record for each unterminated tail that is not white space, its line being the tail without trailing carriage returns, and clears both tails |
| LogStreamer.Streamer.Flush | internal/nodeagent/logstreamer.go:230-289 | numbers the buffered frames as the next chunk and hands it to a send; after a close it is dropped |
| LogStreamer.Streamer.WriteStream | internal/nodeagent/logstreamer.go:122-161 | performs the write step and consumes all bytes |
| LogStreamer.Streamer.CloseStreamer | internal/nodeagent/logstreamer.go:343-376 | performs the close step once |
| LogStreamer.AlwaysConserved | internal/nodeagent/logstreamer.go:208-289 | in every state of every interleaving the chunks carry the numbers below the counter once, and with the buffer hold every frame once in write order |
| LogStreamer.ChunksHoldEveryFrame | internal/nodeagent/logstreamer.go:343-376 | after a close and the last arrival the server holds chunks 0, 1, 2, ... whose frames in number order are exactly the log |
| LogStreamer.FramesAreTheLines | internal/nodeagent/logstreamer.go:163-205 | per stream the frames are one record for each non-empty line of all bytes, without its trailing carriage returns, in order, and one for the unterminated tail unless that is white space |
| LogStreamer.SplitsDoNotMatter | internal/nodeagent/logstreamer.go:163-189 | runs that write the same bytes to a stream frame the same lines, however the bytes are split and flushed |
| LogReading.ChunksAreReadBack | internal/logchunk/codec.go:56-90 | every chunk on the server is decoded to its own frames if and only if every flush that cut a chunk had a frame completed since the previous cut |
| LogReading.EmptyChunk | internal/nodeagent/logstreamer.go:122-161 | a write that completes no line and a flush send a chunk that the decoder rejects |
| LogReaders.BackfillLogs | internal/server/handlers/events.go:196-225 | the loop over the stored chunks writes the records of those that can be decoded, in number order |
| LogReaders.BackfillShowsTheLog | internal/server/handlers/events.go:196-237 | for any run whose sends have arrived the backfill shows exactly the frames that were written, in their order, if and only if no frame exceeds the line limit; chunks without frames do not matter |
| LogReaders.BackfillIsExact | internal/server/handlers/events.go:196-237 | each stream is then shown as its non-empty trimmed lines and its tail |
| LogReaders.PublishChunk | internal/server/events/service.go:173-205 | an arrived chunk publishes its records, or one error line if it cannot be decoded |
| LogReaders.LiveAlong | internal/server/events/service.go:173-205 | in every state the live stream has shown the chunks on the server in the order of their arrival, each once |
| LogReaders.LiveShowsEveryFrame | internal/server/events/service.go:173-205 | whatever the order of arrival, the live stream shows every frame once and one error for each chunk without frames, of which there is none if and only if every cut had a completed frame |
| LogReaders.LiveInTurn | internal/server/events/service.go:173-205 | when arrivals ascend, the live stream shows exactly the lines of stdout, and exactly those of stderr if and only if every cut had a completed frame |
| LogReaders.TurnsAreExact | internal/nodeagent/logstreamer.go:278-281 | an order of arrival keeps the order of the lines of a stream, for all contents of the chunks, if and only if it ascends |
| LogReaders.OvertakenLine | internal/nodeagent/logstreamer.go:278-281 | a run in which the second chunk arrives first: the live stream shows its line first, the backfill shows both in their order |
| LogCodec.EncodeRecordLine | internal/logchunk/codec.go:37-53 | appends one frame so that the text stays the encoding of all frames |
| LogCodec.DecodeChunk | internal/logchunk/codec.go:56-90 | the scan loop computes the line-by-line decoding with its errors |
| LogCodec.DecodeEncoded | internal/logchunk/codec.go:56-90 | an encoded chunk is read back if and only if it holds a frame and no frame exceeds the line limit |
| Pointer.DecodeEscape | internal/speccompiler/includes.go:163-166 | decoding undoes the escaping of any token |
| Pointer.SplitRender | internal/speccompiler/includes.go:145-161 | splitting and decoding the pointer of a non-empty token list gives back the tokens |
| Pointer.SelectFollowsTokens | internal/speccompiler/includes.go:145-161 | the pointer of any token list selects what following exactly those tokens reaches |
| Pointer.StepsAsInRfc | internal/speccompiler/includes.go:168-190 | a single step agrees with section 4 of RFC 6901 except exactly for in-range array indices with signs or leading zeros |
| Pointer.FollowsAsInRfc | internal/speccompiler/includes.go:145-190 | a list of tokens leads to what section 4 of RFC 6901 says, and to nothing where it has nothing, unless it reaches a node through such a step; what the RFC reaches is always reached |
| Pointer.DecodesAsInRfc | internal/speccompiler/includes.go:163-166 | on every token with proper escapes the two replacements are the decoding of section 4 of RFC 6901 |
| Pointer.SelectsAsInRfc | internal/speccompiler/includes.go:145-190 | a pointer text selects what sections 3 and 4 of RFC 6901 say, and nothing where they have nothing, if and only if it does not select a node with an improper escape, through such a step, or without a leading slash, which include references never lack |
| Pointer.TildeIsAccepted | internal/speccompiler/includes.go:163-166 | the pointer `/~2` selects the entry of that name, where the RFC has no such pointer |
| Pointer.SignIsLoose | internal/speccompiler/includes.go:168-190 | the pointer `/+1` selects the second item of any sequence, where the RFC has no such index |
| Includes.ReadsReference | internal/speccompiler/includes.go:118-143 | a path, with or without a fragment behind a hash and with any white space around the pieces, denotes that file and fragment; an empty fragment is none; an empty or unresolvable path and a fragment without a leading slash are refused |
| Includes.EveryReference | internal/speccompiler/includes.go:118-143 | every text has the form that ReadsReference reads |
| RepoPaths.StaysInRepository | internal/speccompiler/repository_source.go:71-93 | whatever a reference is, the file it resolves to lies in the repository |
| RepoPaths.ResolvesExactly | internal/speccompiler/repository_source.go:71-93 | a reference resolves to the file that climbing and then descending from the including file's directory reaches, and to none if and only if its form is refused or the repository is left |
| RepoPaths.RefusedExactly | internal/speccompiler/repository_source.go:71-84 | the refused forms are exactly the empty, absolute, home-relative and dollar-carrying ones |
| RepoPaths.NamesTheFile | internal/speccompiler/repository_source.go:90 | k leading double dots remove the last k directories, then the names follow; single dots and empty pieces anywhere change nothing |
| RepoPaths.DownAndUp | internal/speccompiler/repository_source.go:90 | a name followed by a double dot leads back |
| Includes.IncludeCycle | internal/speccompiler/includes.go:192-206 | returns the chain from the first occurrence of the id back to it, empty if the id is not on the stack |
| IncludeProgram.LoadFromCache | internal/speccompiler/includes.go:102-116 | returns a tree with the contents of the file, or the tree of the specification as it is, and keeps every other cached document what reading its file gives |
| IncludeProgram.SelectNode | internal/speccompiler/includes.go:145-161 | finds the object that the pointer selects, inside the document |
| IncludeProgram.CloneNode | internal/speccompiler/includes.go:439-454 | a copy with the same contents that shares no object with anything that existed |
| IncludeProgram.ReplaceNode | internal/speccompiler/includes.go:426-437 | the replaced object takes over head and content |
| IncludeProgram.ResolveIncludes | internal/speccompiler/includes.go:52-100 | resolving a tree of objects in place terminates, gives what the walk or the resolution on values gives, and leaves cached documents and all other objects as they were |
| IncludeProgram.ComposeSpec | internal/speccompiler/includes.go:18-29 | composing in place with the own tree in the cache gives the result of the walk, and every other cached document is unchanged |
| IncludeInPlace.InPlaceIsSubstitution | internal/speccompiler/includes.go:18-100 | where replacing keys changes no look-up on the ways to the fragments a specification names of itself: what can be composed from unchanging files is composed to the same tree in place, and what is composed in place is a substitution of the includes if and only if those fragments are in it as written |
| IncludeInPlace.UnnamedComposes | internal/speccompiler/includes.go:18-100 | for a specification that no include names, composing in place and composing from unchanging files agree, failures included |
| IncludeWitnesses.OrderMatters | internal/speccompiler/includes.go:70-90 | a specification with two entries that is composed in one order of them and refused in the other |
| IncludeWitnesses.KeysMove | internal/speccompiler/includes.go:168-178 | a specification with an include as a key that is composed from unchanging files and refused in place, because the key is gone when it is looked up |
| IncludeWitnesses.KeysShadow | internal/speccompiler/includes.go:168-178 | a specification with an include as a key that is composed both ways, to different trees |
| IncludeTheorems.ComposeIsSubstitution | internal/speccompiler/includes.go:18-100 | composition succeeds if and only if the includes can be substituted away and no chain of includes meets two targets with one id; it then equals that substitution and leaves no include |
| IncludeTheorems.ClashesReportCycles | internal/speccompiler/includes.go:66-72 | a specification that can be substituted is refused, and then with a cycle, if and only if two targets on a chain of includes share an id |
| IncludeTheorems.CycleIsGenuine | internal/speccompiler/includes.go:192-206 | a reported cycle is a chain of actual includes from the specification whose ends have one id; it closes on itself where no ids clash |
| IncludeTheorems.FailureIsGenuine | internal/speccompiler/includes.go:52-143 | any other failure belongs to an include that a chain of includes from the specification leads to: its reference cannot be read, its file does not exist, or its pointer selects nothing |
| IncludeTheorems.FailureNeverExpands | internal/speccompiler/includes.go:52-100 | where no ids clash, whatever resolution refuses cannot be substituted at any depth |
| IncludeTheorems.ClosedNeverExpands | internal/speccompiler/includes.go:192-206 | a closed chain of includes has no substitution of any depth |
| IncludeTheorems.HashFreeNeverClashes | internal/speccompiler/includes.go:66-72 | without hashes in file names no ids clash |
| IncludeTheorems.HashFreeComposition | internal/speccompiler/includes.go:18-100 | composition of such specifications succeeds if and only if the includes can be substituted away |
| IncludeTheorems.HashesCollide | internal/speccompiler/includes.go:66-72 | a repository with a directory whose name ends in a hash, in which composition reports a cycle although substitution succeeds |
| DeepMerge.MergeIntoReads | internal/speccompiler/includes.go:272-309 | merging clean entry lists one entry at a time merges the dictionaries they denote |
| DeepMerge.ExpansionIsDeepMerge | internal/speccompiler/includes.go:208-250 | expansion succeeds if and only if the left-to-right deep merge is defined, denotes it, has no merge or repeated key at any depth, and is idempotent |
| DeepMergeProgram.SetOrDeepMergeKey | internal/speccompiler/includes.go:285-309 | appends a new key, merges mappings in place, replaces anything else |
| DeepMergeProgram.CollectMergeSources | internal/speccompiler/includes.go:252-270 | the mappings a merge key names, or a failure exactly when something else is named |
| DeepMergeProgram.ExpandDeepMergeKeys | internal/speccompiler/includes.go:208-250 | expanding children first and folding afterwards computes the expansion |
| SpecComposition.ComposedIsClean | internal/speccompiler/includes.go:18-39 | a specification composed in place and expanded has no include, no merge key and no repeated key at any depth |
| SpecComposition.ComposedMeansSubstituted | internal/speccompiler/includes.go:18-39 | a specification whose includes can be substituted is composed if and only if the deep merge of the substituted document is defined, and then denotes it |
| Sse.WriteEventFrame | internal/stream/http.go:127-152 | appends the lines of the event's frame |
| Sse.FramesReadBack | internal/stream/http.go:127-152 | parsing any concatenation of frames by the WHATWG rules returns the events if and only if types are single lines and data has no carriage return |
| Sse.DecimalReadsBack | internal/stream/http.go:127-152 | an id reads back as the number it was |
| Slots.Capacity | internal/nodeagent/controller.go:36-49 | the capacity is the configured concurrency clamped to 1 to 64 |
| Slots.PermitsAreSlots | internal/nodeagent/controller.go:58-84 | over every interleaving the tokens are exactly the slots not yet returned, at most the capacity |
| Slots.ReturnedExactlyOnce | internal/nodeagent/controller.go:58-113 | a permit is taken at most once, and returned at most once and exactly when its slot is released |
| Slots.PhasesMoveForward | internal/nodeagent/controller.go:58-113 | over any interleaving a slot only moves forward through its phases |
| Slots.OwnerCanMove | internal/nodeagent/controller.go:58-113 | a slot that is not released always has a step of its owner that can be taken |
| Slots.FourMovesRelease | internal/nodeagent/controller.go:58-113 | the owner of a slot takes at most four steps before it is released, whatever else happens in between |
| Slots.EveryPermitComesBack | internal/nodeagent/controller.go:58-113 | from every reachable state every permit is returned by at most four steps of its owner alone |
| Slots.ReleaseNeverBlocks | internal/nodeagent/controller.go:76-84 | a release always finds its token |
| Slots.SweepNeverOverlaps | internal/nodeagent/job_runtime_cleanup.go:24-76 | while a sweep removes directories no job runs and none has just finished, under any interleaving |
| Slots.TableExactly | internal/nodeagent/controller.go:87-113 | the job table holds exactly the jobs that were started and neither stopped nor finished since |
| Slots.IdleExactly | internal/nodeagent/job_runtime_cleanup.go:24-76 | the controller is idle if and only if every permit is back; then no job is in the table either |
| Slots.IdleSweeps | internal/nodeagent/job_runtime_cleanup.go:24-76 | when every permit is back a sweep goes through and leaves everything as it was |
| Slots.Controller.AcquireSlot | internal/nodeagent/controller.go:58-74 | takes a permit and the maintenance lock, gives the permit back when the lock fails, and changes nothing when the context ends while waiting for a permit |
| Slots.Controller.ReleaseSlot | internal/nodeagent/controller.go:76-84 | returns the slot's permit |
| Slots.Controller.StartRun | internal/nodeagent/controller.go:87-113 | hands the slot to the job, or leaves it with the claimer when the job is in the table already |
| Slots.Controller.ClaimAndExecute | internal/nodeagent/claimer_loop.go:81-214 | on every path the slot either belongs to the started job or its permit is returned |

## Left out

- Interleaving of statements of different transactions outside the repository guard: each transaction is one step.
- StoreRuns.ReachableWith: run status reconciliation, stale-node recovery and node heartbeats are outside steps with any effect they may have, not modelled code.
- PgStore.Store.CompleteJob: job metrics, metadata, events and the normalisation of the reported commit are not modelled; the commit is the normalised one.
- PgStore.Store.CreateWaveWithRuns: JSON validation of statistics and foreign keys to specs and users are not modelled; of the statistics only the resume count is kept.
- PgStore.Store.RestartRun: the deletion of logs, software bills of materials and metrics of resumed jobs is not modelled.
- JobChain.Order: zero job ids and the empty next id, which it skips, are not modelled; a missing next id is an option value.
- RepoGuard.NoDeadlock: waits on unique indexes for equal run ids and the row locks of cancellations are not part of the wait-for graph.
- Deleting nodes, jobs or runs and the unguarded status update, which are administrative writes outside the protocol.
- Hub.Stream.Publish: sends happen in the same step as the rest of the method; finer interleavings of publish and subscribe are not claimed, and channels are handles into a table rather than objects.
- Hub key normalisation, context cancellation, payload marshalling and event type validation.
- LogStreamer.Streamer.WriteStream: the log hook is applied before; bytes are the processed ones. Compression is a round trip, and its size enters only as a flag.
- LogStreamer.ChunksHoldEveryFrame: chunks dropped for their size and sends that fail are excluded; they lose data by design.
- LogReaders.LiveAlong: the records of a chunk are published in one step, so records of two chunks that are handled at the same time are not interleaved.
- LogReaders.BackfillLogs: the chunks of one job; the filter on jobs, chunks without a stored object and failed reads of the object store are not modelled.
- LogCodec.DecodeChunk: JSON and the normalisation of stream names are parameters.
- IncludeProgram.ResolveIncludes: aliases, anchors, comments and styles are not modelled, so documents are trees; relative paths inside included content are not rebased.
- IncludeInPlace.InPlaceIsSubstitution: the condition on keys is sufficient and not necessary; whether a key that changes its match matters depends on which includes have been replaced by the time of each look-up, and no condition on the specification as written is given for that.
- IncludeProgram.ComposeSpec: the final encoding as text is not modelled, and a document that cannot be parsed counts as unreadable.
- DeepMergeProgram.ExpandDeepMergeKeys: works on values; the sharing of nodes by aliases is not captured.
- Composition of `ref` steps, local file records and bundles; of file paths only the lexical part of the repository source is modelled.
- Slots.SweepNeverOverlaps: which directories are candidates, and containers recovered after a crash of the agent, are not modelled.
- HTTP clients, commands, authentication, object storage and user interfaces.
