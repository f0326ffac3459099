# Verified model of the download engine

This project models the download engine of YT-DL Studio in Dafny and proves what its protocols keep:
the Go packages under `internal/` that queue, run, cancel, clean, remember and announce download jobs,
and the reducer behind the browser's configuration form.

How the parts are modelled:

- What an object changes under its lock is a class, one method for each critical section, proved
  against a function of the old state. Where goroutines interleave, that function is a step of a state
  machine, together with the channel operations and context changes between critical sections. The
  theorems are about every run or every reachable state of such a machine.
- `Queue`, `QueueProtocol` and `Pool`: the bounded FIFO, its wake token and its replaced space channels,
  the single dispatcher and the semaphore.
- `Record` and `JobProtocol`: every writer of a job's status, and the life of one job among workers,
  cancel requests, cleanups, history removals and file responses, with `FilesMu` and the job's context.
- `Batch` and `Admission`: the polling loop and the admission goroutine of a batch; the idempotency
  cache and the cap of 1000 records.
- `Retention`, `History` and `Persistence`: trimming and expiry beside other goroutines; listing, the methods
  that trim, and restoration; the background writer.
- `Bus`, `Delivery`, `Gateway` and `Pipeline`: from an update of a record to the frames of a client.
- `Lines`, `JobLog`, `ShellWords` and `Streams`: the line splitter, the bounded log, the printing and
  splitting of command lines, and the progress of streams, groups and the whole download.
- `Removal`, `Cleanup` and `Sorting`: the removal of a finished job's files, step by step beside other
  processes, and the methods that do it.
- `Config`: the configuration form and the server's conflict checks.

Cleanup, trimming and admission run beside goroutines and processes that the code does not control. They
are methods with a call of `Interfere` wherever others may act. What others do there is a constant of the
object, `others`, about which nothing is assumed; `clock` counts their opportunities. The contracts tie
the new state to exactly those interventions: the method has made a run of `Removal` or `Retention` in
which the others' steps are these (`Leads`), or records have vanished only in these (`Steady`). `Quiet` says
that nobody interferes, and `reliable` that no file operation fails of its own accord.

Where the code and its documentation, or an expectation one may have of it, differ, the model follows the code:

- The comment on `Publish` (`internal/bus/bus.go:62-64`) says that an event is dropped for a subscriber
  with a full buffer. The code discards the buffer instead and sends a resync and the event.
- `Next` of the queue can lose a wakeup exactly when two or more consumers wait
  (`QueueProtocol.StuckIffTwoConsumers`); the pool has one.
- A terminal status stays for ordinary jobs and batch children, but not for the parent of a batch. A
  cancelled parent survives every step except the report of a turn that looked at the context before the
  cancellation; the last report always rewrites the completion time (`Batch.TerminalParentSurvivesIff`).
  Such a report makes it downloading again (`Batch.CancelledParentGoesBackToDownloading`) or completed
  (`Batch.CancelledParentCompletes`).
- A child that is removed from the history before its batch has counted it counts as cancelled, even if it
  was completed (`Batch.RemovedChildCountsAsCancelled`).
- A failed flush of the history is not tried again before the next change or the shutdown
  (`Persistence.FailedFlushIsNotRetried`). `Persistence.SavedIff` and `Persistence.StaleIff` say exactly
  when the file is up to date and when it stays behind.
- After an overflow, what the last `Flush` of the line splitter hands over depends on how the output was
  cut (`Lines.FlushAfterOverflowDependsOnChunks`); `Lines.PartitionsAgreeIff` says for which outputs.
- A cleanup can remove a file that nobody confirmed, if another process puts it in the place of something
  between the moment it is looked at and its removal (`Removal.FileInPlaceOfDirectory`);
  `Removal.RemovesConfirmedIff` says exactly when.
- Trimming and expiry decide on snapshots and delete later. A batch that is revived in between is deleted
  with its children (`Retention.RevivedBatchIsTrimmed`); `Retention.UnfinishedIsDeletedIff` and
  `Retention.ProtectedIsDeletedIff` say exactly when.
- `shellSplit` does not undo the escapes of `FormatCommand`; `ShellWords.RoundTripIff` says exactly when
  the round trip holds.
- The comparison in `SnapshotAll` is not always an order. Records the store makes have a queueing time, but
  restored ones may lack it (`History.RestoreMayBeDisorderly`); `History.OrdersIffOrderly` says exactly when
  it is one, and `TrimHistory` promises to keep the newest records only then.
- The bytes of a group and of the whole download are `int64` sums and wrap around. Two accepted events can
  make a group's progress -102400 (`Streams.OverflowingGroup`); `Streams.GroupExactIff` and
  `Streams.AggregateExactIff` say exactly when the sums are the true ones, and `Streams.GroupProgressIff`
  when a group's progress stays between 0 and 100.

## Model

| member | source | states |
|---|---|---|
| `Queue.Queue.constructor` | internal/queue/queue.go:23-28 | an empty queue without a token; a negative capacity counts as zero |
| `Queue.Queue.TryPush` | internal/queue/queue.go:34-46 | the critical section of both enqueues: the item is appended exactly when there is room, and nothing else changes |
| `Queue.Queue.Enqueue` | internal/queue/queue.go:59-73 | refuses exactly when full; otherwise appends at the end and leaves a token |
| `Queue.Queue.TryNext` | internal/queue/queue.go:81-92 | takes the oldest item, closes the present space channel and makes the next one; changes nothing when empty |
| `Queue.Queue.Remove` | internal/queue/queue.go:106-122 | removes the first matching item and only that one, and releases space exactly then |
| `QueueProtocol.CapacityAndGenerations` | internal/queue/queue.go:32-122 | in every reachable state the length is within capacity and each earlier space channel has been closed exactly once, the present one never |
| `QueueProtocol.NoLostSpace` | internal/queue/queue.go:49-55 | a producer parked in EnqueueWait can go on, or the queue is full; parked on an unclosed channel means full |
| `QueueProtocol.SingleConsumerIsWoken` | internal/queue/queue.go:41-44 | with one consumer no wakeup is lost: items queued and the consumer waiting means that it can receive the token at once or after an enqueuer's next step |
| `QueueProtocol.StuckIffTwoConsumers` | internal/queue/queue.go:96-100 | the queue can lose a wakeup exactly with two or more consumers: for every set of consumers, a state with items, no token, nobody about to leave one or to look, and a parked consumer is reachable if and only if there are at least two |
| `QueueProtocol.TwoConsumersLoseAWakeup` | internal/queue/queue.go:96-100 | such a state for any two or more consumers, with one item left in the queue |
| `QueueProtocol.NothingIsLost` | internal/queue/queue.go:32-122 | over every run of any producers, consumers and removals each item handed over is exactly one of taken, removed or queued, and without removals items are taken in the order in which they were handed over |
| `QueueProtocol.RefusedForCause` | internal/queue/queue.go:32-73 | an item is refused only to a waiting producer that was cancelled, or to one that does not wait when the queue is full, and only a waiting producer parks, when it is full |
| `QueueProtocol.ReturnsForCause` | internal/queue/queue.go:41-55 | a parked producer gives up only when cancelled and tries again only when its channel was closed; one that has handed its item over leaves a token and succeeds |
| `QueueProtocol.ProducersGoOn` | internal/queue/queue.go:34-73 | a producer that is cancelled, does not wait, or has handed its item over returns after its next step, and one whose channel was closed tries again |
| `QueueProtocol.ConsumersEnd` | internal/queue/queue.go:76-103 | once the pool has stopped every consumer ends after at most three steps of its own |
| `QueueProtocol.SpaceStep` | internal/queue/queue.go:82-91 | no step frees a slot without replacing the space channel |
| `QueueProtocol.InvStep` | internal/queue/queue.go:32-122 | every atomic step of producers, consumers and Remove keeps capacity, channel generations and the reason for being parked |
| `QueueProtocol.WakeupStep` | internal/queue/queue.go:65-102 | every step keeps the wakeup invariant for a single consumer |
| `Pool.ExactlyOnePlace` | internal/worker/pool.go:46-111 | conservation over all runs: an accepted job is in exactly one of queued, removed, in the dispatcher's hand, running, finished, abandoned; any other job in none |
| `Pool.StepFollowsEdges` | internal/worker/pool.go:84-111 | a step moves a job only along the lifecycle's edges |
| `Pool.DispatchedAtMostOnce` | internal/worker/pool.go:84-111 | in any run a job is handed to a worker at most once |
| `Pool.ConcurrencyBound` | internal/worker/pool.go:92-105 | at most max workers run, each holding a semaphore slot |
| `Pool.ClaimedAndQueued` | internal/worker/pool.go:46-111 | in every position of every run what was claimed followed by what is queued is what was accepted and not removed, in acceptance order |
| `Pool.LeavesInAcceptanceOrder` | internal/worker/pool.go:84-90 | of two claimed jobs the one claimed first was accepted first |
| `Pool.JobGoesThrough` | internal/worker/pool.go:46-111 | a fresh job that the idle pool is offered is queued, claimed, run and finished, and the slot it takes is free again |
| `Pool.StoppedDispatcherEnds` | internal/worker/pool.go:84-103 | once the pool has stopped the dispatcher can end at once, and abandons a job in its hand |
| `Pool.InvStep` | internal/worker/pool.go:46-111 | every step keeps order, places and the semaphore count |
| `Record.DownloadProgress.constructor` | internal/store/progress.go:110-138 | a fresh record is consistent and unpublished |
| `Record.DownloadProgress.Publish` | internal/store/progress.go:260-269 | the version grows by one and the snapshot is handed over before the next update, so snapshots go out in version order |
| `Record.DownloadProgress.MarkAdmitted` | internal/handlers/handler_batch.go:132-137 | only a waiting child becomes queued |
| `Record.DownloadProgress.MarkStarting` | internal/worker/worker.go:59-65 | a terminal record is left alone |
| `Record.DownloadProgress.MarkPreparing` | internal/worker/worker.go:78-92 | a terminal record is left alone |
| `Record.DownloadProgress.HandleProgress` | internal/worker/progress.go:80-83 | a line of the downloader changes the status only while it is not terminal; an error line ends the job |
| `Record.DownloadProgress.MarkFailed` | internal/worker/worker.go:256-269 | fails a job that is not terminal, with its completion time |
| `Record.DownloadProgress.MarkCancelled` | internal/handlers/handler_status.go:99-108 | cancels a job that is not terminal, with its completion time; the same callback as in cancelRecord and failCancelled |
| `Record.DownloadProgress.Finish` | internal/worker/worker.go:108-176 | the worker's conclusion: failure and cancellation stay; else a time-out fails the job, an interruption cancels it, an exit error fails it, and it is completed otherwise; the first completion time stays |
| `Record.AfterIsConsistent` | internal/worker/worker.go:98-177 | after any series of updates by any writers the completion time is set exactly for terminal statuses, every update has published one version, and only a worker's conclusion has completed the job |
| `Record.FirstTerminalWins` | internal/worker/worker.go:108-176 | one update leaves a terminal status alone, except exactly when a conclusion with a time-out, interruption or exit error meets a completed record |
| `Record.FirstTerminalIsFinal` | internal/worker/worker.go:108-176 | over any series of updates with at most one conclusion the first terminal status and its completion time stay |
| `JobProtocol.NoWriteAfterCleanup` | internal/handlers/handler_files.go:218-230 | once a cleanup holds FilesMu the worker of the job never again writes to its directory, in any interleaving of cancels, dispatch, worker, cleanups and removals |
| `JobProtocol.TerminalIsAbsorbing` | internal/worker/worker.go:39-178 | for an ordinary job a terminal status and its completion time never change |
| `JobProtocol.CompletedAtIffTerminal` | internal/worker/worker.go:98-177 | in every reachable state the completion time is set exactly when the status is terminal |
| `JobProtocol.WriterExcludesRemovers` | internal/worker/worker.go:44-53 | whenever the worker may write it holds FilesMu for reading, nobody holds it for writing, and the job is not completed |
| `JobProtocol.ReturnedWorkerIsTerminal` | internal/worker/worker.go:39-178 | a worker that has returned leaves a terminal status for good |
| `JobProtocol.WorkerAdvances` | internal/worker/worker.go:39-178 | each step of the worker brings it nearer to its end, but for reading lines and writing files while the process runs, and each write is counted |
| `JobProtocol.CleanRunCompletes` | internal/worker/worker.go:39-178 | a worker that nobody disturbs and whose process ends without failure writes to the directory, gives the lock back and completes its job with both times |
| `JobProtocol.OutcomeIs` | internal/worker/worker.go:98-177 | in every run, the step by which a job ends decides how: completed exactly by an undisturbed conclusion in time after an exit without failure; failed exactly by an error line, an early failure, a time-out or an undisturbed exit error; cancelled exactly by a cancel request, a worker that saw the cancellation, or a disturbed conclusion in time |
| `JobProtocol.ConclusionEnds` | internal/worker/worker.go:108-176 | the worker's conclusion always leaves a terminal status with a completion time |
| `JobProtocol.CancelledHasCause` | internal/worker/worker.go:141-149 | a job is cancelled only if somebody cancelled it or the pool was stopped |
| `JobProtocol.CompletedHasCause` | internal/worker/worker.go:156-160 | a completed job's process ended without failure, and at its conclusion there was no time-out, stop or cancellation |
| `JobProtocol.CancelledInTimeNeverWrites` | internal/worker/worker.go:44-58 | a job whose context is cancelled before its worker looks at it never gets anything written to its directory |
| `JobProtocol.RemovedNeverRuns` | internal/handlers/handler_status.go:96-98 | a cancel request takes a queued job out of the queue, and it is never handed to a worker |
| `JobProtocol.CancelRequestWorks` | internal/handlers/handler_status.go:93-108 | a cancel request that is carried through leaves a cancelled context, a job that is not queued, and a terminal status |
| `JobProtocol.RemoverWorks` | internal/handlers/handler_files.go:198-218 | a cleanup of a finished job whose files nobody uses gets the lock and gives it back, and a removal takes the record away |
| `JobProtocol.InvStep` | internal/handlers/handler_status.go:80-155 | every step of the worker, a canceller, a remover or another goroutine keeps lock exclusion, the status rules and the order of places |
| `JobProtocol.CleanedStopsWrites` | internal/handlers/handler_files.go:179-233 | the number of the worker's writes is constant from the first cleanup on |
| `JobProtocol.PoolMovesAreSteps` | internal/worker/pool.go:84-111 | seen from one job a run of the pool is a run of this protocol's place: whenever the pool moves the job, the protocol at the same place has the step that moves it there |
| `JobProtocol.EveryJobIsTracked` | internal/worker/pool.go:84-111 | for every run of the pool and every job there is a run of this protocol that passes through the job's places as the pool moves it |
| `JobProtocol.TrackedJobIsDispatchedOnce` | internal/worker/pool.go:84-111 | in any such run the worker begins exactly when the pool hands the job over, and at most once |
| `JobProtocol.WriterHoldsASlot` | internal/worker/pool.go:92-105 | in any such run a worker that may write belongs to a job that the pool has running, one of at most max |
| `Batch.FinishedNeverDecreases` | internal/handlers/handler_batch.go:144-185 | the finished count of a batch never decreases, even while other goroutines change or remove children |
| `Batch.CountsStayInRange` | internal/handlers/handler_batch.go:122-195 | neither the finished nor the admitted count exceeds the total |
| `Batch.ReturnedBatchIsComplete` | internal/handlers/handler_batch.go:186-195 | when runBatch returns every child is terminal, the counts add up to the total, and a retained child is counted under its own status |
| `Batch.ReportedOutcome` | internal/handlers/handler_batch.go:166-185 | in every run a report makes the parent cancelled exactly if its turn saw the cancellation, and otherwise downloading exactly if a child is uncounted, failed exactly if all are counted and one as failed, completed exactly if all are counted and none as failed |
| `Batch.ReturnedOutcome` | internal/handlers/handler_batch.go:166-189 | a returned batch that was not cancelled has failed exactly if a child was counted as failed, as every retained failed child is, and is completed otherwise |
| `Batch.TurnSawContext` | internal/handlers/handler_batch.go:145-145 | what a turn takes for the cancellation is the parent's context at the turn's beginning |
| `Batch.VerdictIs` | internal/handlers/handler_batch.go:147-165 | a child that has left the store counts as cancelled, any other under its terminal status or not at all |
| `Batch.RemovedChildCountsAsCancelled` | internal/handlers/handler_batch.go:148-152 | a run in which a completed child counts as cancelled, because it was removed from the history in between |
| `Batch.AdmittedIsQueued` | internal/handlers/handler_batch.go:132-138 | a child that has been admitted and noted no longer waits for capacity |
| `Batch.AdmissionStopsForCause` | internal/handlers/handler_batch.go:127-131 | admission ends before every child is admitted only if the batch was cancelled or the pool stopped |
| `Batch.OwnStepsProgress` | internal/handlers/handler_batch.go:122-195 | admission and each turn of the loop end after at most three steps a child and one more, and others' steps do not hold them up |
| `Batch.ConclusionIsFinal` | internal/handlers/handler_batch.go:186-195 | from the last report on the parent stays terminal and unchanged, and after the return no child is admitted |
| `Batch.TerminalParentSurvivesIff` | internal/handlers/handler_batch.go:166-185 | in every reachable state and for every step: a terminal parent keeps its status exactly if the step is no report or one of a turn that saw the cancellation, and its completion time exactly if the step is no last report, or one at that very time; before the last report the status is cancelled |
| `Batch.CancelledParentGoesBackToDownloading` | internal/handlers/handler_batch.go:183-185 | a run in which a report sets a cancelled parent to downloading |
| `Batch.CancelledParentCompletes` | internal/handlers/handler_batch.go:170-181 | a run in which the last report turns a cancelled parent into a completed one with a later completion time |
| `Batch.InvStep` | internal/handlers/handler_batch.go:122-212 | every step of the loop, the admission goroutine and the other writers keeps the counters honest |
| `Admission.App.RecordAdmission` | internal/handlers/handler_download.go:71-83 | the key is recorded, keys of retained jobs stay, keys map injectively to jobs and at most 1000 are cached, whatever records vanish meanwhile |
| `Admission.App.EvictForgotten` | internal/handlers/handler_download.go:72-78 | the eviction drops keys of vanished jobs only, and those that stay belong to jobs that were retained when it began |
| `Admission.App.Lookup` | internal/handlers/handler_download.go:34-45 | a known key answers with its job while that is retained, with a conflict for other options, and otherwise lets the request through |
| `Admission.App.NewRecords` | internal/handlers/handler_batch.go:103-113 | each new record gets a fresh identifier and is stored unless others remove it, and the store stays within 1000 |
| `Admission.App.StartDownload` | internal/handlers/handler_download.go:22-67 | a request is refused at capacity, for invalid options or a full queue without leaving a record; else exactly one new job is stored, and no record goes but those that others remove; a known key answers for its job while that is retained, or with a conflict |
| `Admission.App.StartBatch` | internal/handlers/handler_batch.go:27-120 | a batch of 1 to 500 entries needs room for all its children and the parent, and stores exactly those, and no record goes but those that others remove; the same for its key |
| `Admission.App.HandleAll` | internal/handlers/handler_download.go:22-67 | any series of single and batch requests, with removals by others in between, keeps the limits and every key of a retained job, and admits nothing once closing has begun |
| `Admission.App.RepeatedRequest` | internal/handlers/handler_download.go:34-45 | repeating a single or batch request under its key, after any other requests, answers with the same job while that is retained and admits nothing |
| `Admission.InjectiveIsSmall` | internal/handlers/handler_download.go:71-83 | an injective cache whose jobs are all retained has no more keys than the store has records |
| `History.ProgressStore.SnapshotAll` | internal/store/progress.go:494-509 | every record once, and, if the comparison is an order, newest first, equal times and missing ones by identifier |
| `History.NewerMeans` | internal/store/progress.go:502-505 | of two records that both tell when they were queued, the one that comes first was not queued before the other |
| `History.OrdersIffOrderly` | internal/store/progress.go:500-507 | exactly when the comparison is a strict weak order on a listing: no record without a queueing time stands by identifier between two others that were queued in the opposite order |
| `History.RestoreMayBeDisorderly` | internal/store/history.go:76 | a history file of three records whose restoration, at any time, leaves the store without such an order |
| `History.ProgressStore.ActiveBatchContains` | internal/store/history.go:223-234 | true exactly for the children of active batches |
| `History.ProgressStore.TrimHistory` | internal/store/history.go:202-221 | a run of Retention beside what other goroutines do, which deletes as many of the finished unprotected records as exceed the limit; if the comparison is an order, each is older than every one that stays; undisturbed, nothing else changes |
| `History.ProgressStore.CleanupOldDownloads` | internal/store/progress.go:449-491 | a run of Retention beside what other goroutines do; undisturbed, exactly the finished unprotected records go that were completed, or without that time started, longer ago than the age limit |
| `Retention.UnfinishedIsDeletedIff` | internal/store/history.go:202-221 | over every run of trimming, expiry and other goroutines: a record that is deleted was finished when its status was looked at, and is unfinished when it goes if and only if it is a batch parent that another goroutine has revived since |
| `Retention.ProtectedIsDeletedIff` | internal/store/history.go:204-218 | a record that is deleted was not protected in the snapshots, and is protected when it goes if and only if a batch with it among the children has become active since |
| `Retention.ExpiredWasOld` | internal/store/progress.go:464-474 | over every run, what expiry deletes had been completed, or without that time started, for longer than the age limit when it was collected |
| `Retention.ActiveBatchesStayWhole` | internal/store/history.go:202-221 | a batch that stays active from a moment without a pass under way loses neither its record nor a child to any pass of trimming or expiry |
| `Retention.RevivedBatchIsTrimmed` | internal/store/history.go:202-221 | for any cancelled batch with a finished child, a run in which both are deleted while the batch is active |
| `History.ProtectionStays` | internal/store/history.go:204-211 | removing finished unprotected records does not change who is protected |
| `History.ProgressStore.Restore` | internal/store/history.go:63-107 | reads a history of at most 1000 records and refuses a larger one without touching the store |
| `History.Recovered` | internal/store/history.go:94-103 | a restored record is terminal: finished ones unchanged, active ones failed under a new version |
| `History.RestartFailsWhatWasActive` | internal/store/history.go:44-107 | a restart from a listing of the store gives the same records, the active ones failed and none protected |
| `History.SecondRestartChangesNothing` | internal/store/history.go:44-107 | restarting twice is restarting once |
| `Persistence.InvStep` | internal/store/history.go:114-142 | every step keeps a change that is not on disk in the token, about to be announced, noted, being written or failed |
| `Persistence.QuietMeansSaved` | internal/store/history.go:123-142 | at rest, after any run, the file holds the present contents unless the last write failed |
| `Persistence.DiskNeverGoesBack` | internal/store/history.go:151-200 | at any time the file holds the contents of some earlier moment, and never an older one than before |
| `Persistence.FlushSavesWhatCameBefore` | internal/store/history.go:152-200 | after a successful flush the file holds exactly the contents at its snapshot |
| `Persistence.SavedIff` | internal/store/history.go:114-200 | in any run the file is up to date if and only if nothing was ever changed or a flush whose snapshot followed the last change has succeeded |
| `Persistence.StaleIff` | internal/store/history.go:123-142 | at rest the file is behind exactly if the last flush failed and none has succeeded since the last change, and a tick then does nothing |
| `Persistence.MemoryIsChanges` | internal/store/history.go:114-121 | the version in memory is the number of changes |
| `Persistence.EndsWhenStopped` | internal/store/history.go:123-149 | the loop ends only after it has been told to stop |
| `Persistence.ShutdownFlushes` | internal/store/history.go:136-148 | told to stop, the loop can flush once more and end, and if the write succeeds the file is up to date |
| `Persistence.FailedFlushIsNotRetried` | internal/store/history.go:133-135 | a run that comes to rest with an outdated file, because a failed flush clears the dirty flag |
| `Bus.Bus.Subscribe` | internal/bus/bus.go:41-49 | a new subscriber with an empty buffer; the others are unchanged |
| `Bus.Bus.Unsubscribe` | internal/bus/bus.go:52-60 | that subscriber goes and its channel is closed, the first time only; the others and their channels are unchanged |
| `Bus.Bus.Publish` | internal/bus/bus.go:65-88 | each subscriber gets the event at the end of its buffer, or, if that is full, a resync and the event alone |
| `Delivery.DeliveryGuarantee` | internal/bus/bus.go:41-88 | in every reachable state received and buffered events are in publication order and end with the latest, each missing event has a resync behind all events up to it, and at most 100 are buffered |
| `Delivery.PublishIsDelivered` | internal/bus/bus.go:69-87 | however the steps of one Publish run while the subscriber takes nothing, they amount to Bus.Publish on its channel |
| `Delivery.PublishNeverBlocks` | internal/bus/bus.go:84-85 | each of the two blocking sends, whenever one is pending in a reachable state, finds room, whatever the subscriber took in between |
| `Delivery.PublishEnds` | internal/bus/bus.go:69-87 | a Publish always has a step of its own and takes at most 103, and receives do not hold it up |
| `Gateway.Gateway.HandleProgressEvent` | internal/sse/gateway.go:120-153 | the version filter, the reset of the version map above 2000 entries and the throttle, as one function of the old state |
| `Gateway.StaleIff` | internal/sse/gateway.go:120-134 | for up to 2000 jobs a snapshot is dropped as stale exactly if one of its job with at least its version came before |
| `Gateway.VersionsAreBounded` | internal/sse/gateway.go:128-131 | the version map never holds more than 2001 jobs |
| `Gateway.Gateway.Broadcast` | internal/sse/gateway.go:170-186 | every client with room gets the message; exactly the full ones are unregistered and returned for closing; the hub makes the broadcast step |
| `Gateway.Gateway.Register` | internal/sse/gateway.go:210-218 | a new client is registered unless the gateway is closed, as the hub's step; registered channels stay open |
| `Gateway.Gateway.Disconnect` | internal/sse/gateway.go:220-225 | the client is out of the map before its channel may be closed, as the hub's step |
| `Gateway.Gateway.Close` | internal/sse/gateway.go:79-92 | no client stays registered, and each that was may now be closed, as the hub's step |
| `Gateway.Gateway.CloseChannel` | internal/sse/gateway.go:40-45 | a channel is closed only by one who has taken its client out of the map |
| `Gateway.HubKeeps` | internal/sse/gateway.go:34-45 | every step keeps: registered clients have open channels and nobody about to close them, channels hold at most 100 messages and are closed at most once, and receptions have no gap |
| `Pipeline.ClientsSeeAPrefix` | internal/sse/gateway.go:170-225 | over all interleavings of broadcasts, evictions, disconnects, Close and the later closes of channels, a registered client's channel is open, closes happen at most once, and a client has a gap-free stretch of the broadcasts since its registration |
| `Pipeline.NeverStale` | internal/sse/gateway.go:122-126 | snapshots reach the filter in version order, so that it never drops one and clearing its map is harmless |
| `Pipeline.SwallowedIff` | internal/sse/gateway.go:135-152 | in every reachable state: a snapshot the listener took was swallowed exactly if it did not end its job and the last shown one of the job did not either, was less than half a percent away and less than half a second old; so the first snapshot of a job is shown |
| `Pipeline.ShownIsSent` | internal/sse/gateway.go:154-168 | the frames of snapshots that clients are sent are exactly the shown ones |
| `Pipeline.EverySnapshotIsHeard` | internal/sse/gateway.go:95-117 | the listener passes over no snapshot that it takes from the bus |
| `Pipeline.TerminalUpdateArrives` | internal/sse/gateway.go:95-168 | in every reachable state in which the gateway listens: a terminal update published after the registration of a client that is still registered has reached it, or is on its way, as its own frame or as a later resync |
| `Pipeline.UpdateReachesClient` | internal/store/progress.go:252-270 | with nothing else under way the end of a job takes the next version and goes all the way onto the channel of a client with room |
| `Pipeline.RemovalReachesClient` | internal/store/progress.go:430-438 | the removal of a record is announced in the same way, as a resync |
| `Pipeline.VersionsIncrease` | internal/store/progress.go:252-270 | the progress frames a client sees for one job, new or restored, have strictly increasing versions |
| `Pipeline.InvStep` | internal/sse/gateway.go:95-168 | every step of records, bus, gateway and clients keeps the joint invariant |
| `Lines.LineWriter.Write` | internal/process/process.go:90-112 | the chunk is split segment by segment; an overlong line is refused with a cancellation and no byte count |
| `Lines.LineWriter.Flush` | internal/process/process.go:114-119 | the trimmed buffer is handed over unless empty, and cleared |
| `Lines.WriteAgrees` | internal/process/process.go:90-112 | one Write hands over the same lines and overflows on the same input as a machine that reads single bytes |
| `Lines.SessionAgrees` | internal/process/process.go:90-119 | so does any series of Write calls |
| `Lines.ChunkingInvariant` | internal/process/process.go:84-119 | for every partition into chunks the handler gets exactly the trimmed non-empty lines of the whole output |
| `Lines.OverflowIffLongLine` | internal/process/process.go:98-103 | overflow happens exactly if some line is longer than 1 MiB, and the buffer never is |
| `Lines.OverflowAfterSameLines` | internal/process/process.go:98-103 | before an overflow exactly the lines in front of the first overlong one were handed over |
| `Lines.FlushAfterOverflow` | internal/process/process.go:114-119 | after an overflow the final Flush hands over, behind the lines in front of the first overlong one, the part of that line held by the chunks before the refused one |
| `Lines.EveryReachHappens` | internal/process/process.go:114-119 | every part of that line up to the limit is handed over by some partition |
| `Lines.PartitionsAgreeIff` | internal/process/process.go:90-119 | what the handler gets is the same for all partitions of an output if and only if no line exceeds the limit or the first that does begins with 1 MiB of ASCII white space |
| `Lines.FlushAfterOverflowDependsOnChunks` | internal/process/process.go:114-119 | an output with two partitions after which the handler has different lines |
| `Lines.LinesAreTrimmed` | internal/process/process.go:115-117 | no handed-over line is empty or has white space at either end |
| `Lines.SegmentsAre` | internal/process/process.go:90-112 | the segments glued with newlines are the text, and hold none themselves |
| `Lines.EmitCuts` | internal/process/process.go:114-119 | what is handed over is the line without the Unicode white space around it, all of it and nothing else, and nothing if that is all |
| `JobLog.Log.AddLogLocked` | internal/store/progress.go:157-172 | the log after a message is the old log with the redacted, truncated line, less the oldest lines until it fits |
| `JobLog.Stored` | internal/store/progress.go:159-161 | a stored line has at most 4096 bytes and the mark |
| `JobLog.ToValidUtf8Is` | internal/store/progress.go:159-161 | the truncated text keeps its characters in the encoding of section 3 of RFC 3629, and loses exactly the bytes at which none begins |
| `JobLog.ResultIsWellFormed` | internal/store/progress.go:159-161 | what is left is well-formed UTF-8 |
| `JobLog.WellFormedStays` | internal/store/progress.go:159-161 | well-formed text comes back unchanged |
| `JobLog.StoredIs` | internal/store/progress.go:159-161 | a message of up to 4096 bytes is stored as it is, and a longer one as its first 4096 bytes, if these are well-formed, and the mark |
| `JobLog.EvictTwice` | internal/store/progress.go:162-171 | evicting early makes no difference later |
| `JobLog.LogIsLongestSuffix` | internal/store/progress.go:157-172 | the log is the longest suffix of everything logged that has at most 200 lines and 64 KiB |
| `JobLog.NewestLineSurvives` | internal/store/progress.go:157-172 | the newest line is always in the log |
| `ShellWords.FormatCommand` | internal/worker/command.go:711-727 | the loop computes the joined parts |
| `ShellWords.PartIs` | internal/worker/command.go:711-731 | an argument is printed as it is exactly if it consists of letters, digits and the marks of the pattern; otherwise quoted, with a backslash before each backslash and double quote |
| `ShellWords.ShellSplit` | internal/worker/command.go:864-897 | the loop computes the words, or fails on an open quote |
| `ShellWords.SplitOfRendered` | internal/worker/command.go:864-897 | a text of the grammar in section 2.2 of POSIX.1-2017 Shell Command Language, with literal backslashes, splits into its words |
| `ShellWords.SplitAcceptsGrammar` | internal/worker/command.go:864-897 | exactly the texts of that grammar are accepted |
| `ShellWords.SplitKeepsBackslashes` | internal/worker/command.go:864-897 | splitting neither drops nor adds a backslash |
| `ShellWords.RoundTripIff` | internal/worker/command.go:711-727 | shellSplit undoes FormatCommand exactly when no quoted argument has a double quote or a backslash |
| `ShellWords.FormatIsInjective` | internal/worker/command.go:711-727 | different argument vectors have different texts |
| `Streams.Amount` | internal/worker/progress.go:283-288 | a JSON number is cut to between zero and the largest amount; absent, negative, infinite and NaN count as zero |
| `Streams.Advanced` | internal/worker/progress.go:264-325 | a stream's progress stays between 0 and 100; a finished stream is completed at 100 with no speed and no remaining time |
| `Streams.AdvancedReports` | internal/worker/progress.go:263-325 | the event's stream is in the audio group unless it is video alone, and in the video group unless it is audio alone or unknown while only audio is expected; its numbers are those of the event, the total before the estimate and bytes before fragments, and what is not told stays |
| `Streams.Accumulate` | internal/worker/progress.go:263-326 | only the event's own stream changes |
| `Streams.TallyOf` | internal/worker/progress.go:337-354 | the loop over a group in any order gives its sums, wrapped to int64, and says what holds of all its members |
| `Streams.Regrouped` | internal/worker/progress.go:330-371 | a group is what its members add up to in int64 arithmetic, with its status and its progress |
| `Streams.GroupExactIff` | internal/worker/progress.go:337-371 | a group's bytes are the true sums if and only if these are below 2^63 |
| `Streams.GroupProgressIff` | internal/worker/progress.go:355-371 | a group's progress lies between 0 and 100 unless, and only unless, it is downloading with all totals known while its total bytes are positive and its downloaded bytes at least 2^63, both modulo 2^64 |
| `Streams.OverflowingGroup` | internal/worker/progress.go:337-371 | two accepted events after which the video group has total 2, downloaded -2048 and progress -102400 |
| `Streams.GroupIsOrderIndependent` | internal/worker/progress.go:337-354 | all of a group but combined and the remaining time is independent of the map's order |
| `Streams.GroupsCountCombinedTwice` | internal/worker/progress.go:330-371 | below that bound video and audio bytes together are the bytes of all streams plus those of combined streams once more |
| `Streams.GroupsCountCombinedTwiceModulo` | internal/worker/progress.go:330-371 | without the bound the same holds modulo 2^64 |
| `Streams.Aggregate` | internal/store/progress.go:274-309 | total and downloaded are the int64 sums over all streams; progress is by bytes when every expected size is known and the total is positive, else the mean, and lies between 0 and 100 |
| `Streams.AggregateExactIff` | internal/store/progress.go:274-309 | the aggregate bytes are the true sums if and only if these are below 2^63 |
| `Streams.Progress.HandleIdentifiedStream` | internal/worker/progress.go:259-374 | after any identified event its stream belongs to the groups its codecs say and reports the event's numbers, no other stream is touched, and both groups and the aggregate are those of the streams |
| `Sorting.Slice` | internal/handlers/handler_files.go:172 | always a rearrangement, and without inversions if the comparison is a strict weak order on the elements |
| `Sorting.LessIs` | internal/handlers/handler_files.go:172 | strings are compared at their first difference, and a proper continuation comes later |
| `Cleanup.Job.PreviewRetainedFiles` | internal/handlers/handler_files.go:131-177 | succeeds exactly on trees without links and special files and within the limits, when nothing fails; it lists the regular files by name with their total size and token |
| `Cleanup.TokenIdentifiesFiles` | internal/handlers/handler_files.go:171-177 | two previews of one directory have the same token exactly when names, sizes and times agree |
| `Cleanup.AscendingIsCanonical` | internal/handlers/handler_files.go:172 | the listing does not depend on the order of the walk |
| `Cleanup.LongestFirstIsRemovalOrder` | internal/handlers/handler_files.go:286-292 | in any order by decreasing path length each directory is empty when its turn comes |
| `Removal.RemovesConfirmedIff` | internal/handlers/handler_files.go:252-304 | over every run beside other processes: whatever the cleanup removes was looked at before, and is a confirmed file, a listed directory or the opened job directory if and only if nobody has replaced it since |
| `Removal.FileInPlaceOfDirectory` | internal/handlers/handler_files.go:287-292 | a run in which the cleanup removes a file that was put in the place of an empty directory, although no file was confirmed |
| `Removal.NothingElseGoes` | internal/handlers/handler_files.go:252-304 | a step of the cleanup takes nothing out of the directory but the one path it aims at, or at last the empty directory itself |
| `Removal.SuccessIsComplete` | internal/handlers/handler_files.go:252-307 | in every run only confirmed names count as removed, and success means that all of them do and that nothing is left |
| `Cleanup.Job.Remove` | internal/handlers/handler_files.go:258-292 | only files and empty directories can be removed |
| `Cleanup.Job.RemoveFiles` | internal/handlers/handler_files.go:252-263 | the file steps of a run of Removal; undisturbed, exactly the files counted as removed go, and all of them if nothing fails |
| `Cleanup.Job.ListDirectories` | internal/handlers/handler_files.go:266-285 | lists the directories if nothing else is left |
| `Cleanup.Job.RemoveDirectories` | internal/handlers/handler_files.go:287-292 | the directory steps of a run of Removal; undisturbed, a prefix of the order is removed, and all of it if nothing fails |
| `Cleanup.Job.RemoveFolder` | internal/handlers/handler_files.go:264-304 | the rest of a run of Removal; after success nothing is left; undisturbed, a failure has removed directories only |
| `Cleanup.Job.CleanupFiles` | internal/handlers/handler_files.go:218-307 | the directory is touched only on the current token, and then as in a run of Removal on the confirmed listing beside what other processes do; undisturbed, it empties the job directory exactly on the current token of a previewable tree, and a partial failure leaves every other file |
| `Cleanup.Job.RecordCleanedFiles` | internal/handlers/handler_files.go:311-339 | the record loses the removed paths in place, and their result entries, or everything after a complete cleanup; nothing when nothing was removed |
| `Cleanup.IndexesStayStable` | internal/handlers/handler_files.go:309-339 | after a partial cleanup exactly the entries of paths that were not removed remain, with their index and path |
| `Cleanup.SurvivingInOrder` | internal/handlers/handler_files.go:332-337 | the entries that survive a cleanup keep their order |
| `Cleanup.CleanupKeepsBacked` | internal/handlers/handler_files.go:309-339 | if every result entry pointed at an existing file before an undisturbed cleanup, so it does afterwards |
| `Config.ConstrainConfiguration` | web/src/features/config/model.js:76-97 | the corrections establish the invariant and leave a valid configuration alone |
| `Config.ConstrainIs` | web/src/features/config/model.js:76-97 | each correction: extraction of audio means audio mode and only that, recoding wins over remuxing, a conversion has a format, keyframes are forced for splitting only, enabled subtitles have a language |
| `Config.ConstrainedIffFixed` | web/src/features/config/model.js:76-97 | the invariant holds exactly where the constraint step changes nothing |
| `Config.ConstrainIsIdempotent` | web/src/features/config/model.js:76-97 | constraining twice is constraining once |
| `Config.AssignField` | web/src/features/config/model.js:110-117 | an edit changes its field, the fields that go with it, and nothing else |
| `Config.ConfigurationReducer` | web/src/features/config/model.js:99-119 | every action keeps the invariant |
| `Config.PresetIs` | web/src/features/config/model.js:101-108 | what each preset leaves: nothing of the earlier choices but the file name and the directory |
| `Config.ReachableIsConstrained` | web/src/features/config/model.js:52-119 | in every reachable configuration audio mode and audio extraction go together, remux and recode exclude each other, and video mode or several videos select video-only formats |
| `Config.BuiltOptionsAreAccepted` | internal/worker/command.go:153-161 | the options built from a reachable configuration never meet the server's mode and conversion conflicts |
| `Config.FormatCodeIs` | web/src/features/config/model.js:52-61 | the exact format code of every reachable configuration in each mode |
| `Config.BuiltOptionsAre` | web/src/features/config/model.js:56-69 | the other options that are sent, over every reachable configuration |
| `Config.NoAudioWhereNoneBelongs` | web/src/features/config/model.js:52-64 | the format selector asks for no audio in video mode and never merges audio with a format that holds some |
| `Config.SubtitlesHaveALanguage` | web/src/features/config/model.js:85-87 | enabled subtitles are written unless the user typed none, if the source names a usable language |
| `Config.EditStandsIffAllowed` | web/src/features/config/model.js:110-118 | an edit shows in the next configuration exactly when it respects the invariant |

## Left out

- HTTP routing, JSON, headers, host checks, and the validation of URLs, addresses and file names: plumbing and policy over library calls.
- Subprocesses, signals and process groups: the downloader is a process that writes files, emits lines and exits at will.
- The redaction of secrets: a function parameter of the job log; absent elsewhere.
- `BuildCommand` and `BuildMetadataArgs` beyond the mode and conversion conflicts: long appends of flags.
- Text fields of a record (title, file name, error message, thumbnail) and its per-stream fields in `Record`; the latter are in `Streams`.
- `HandleProgress` for events without a media and format identifier, and `RecalculateAggregate` without identified streams: the older two-stream display.
- `limitedOutput`, `MarkIncompleteStreams` and `estimateSize`: one-branch accumulations.
- Wall-clock time: tickers, time-outs and the throttle interval are steps that may happen at any time or times given as parameters.
- Fairness of the scheduler: that a step can happen is stated, not that it will.
- Queue.Queue.TryNext: the critical section of `Next` only; the retry loops of `Next` and `EnqueueWait`, the dispatcher's loop, `Run` and `runBatch` are state machines over their steps, because other goroutines act between these.
- Streams.Advanced: `float64` is modelled by real numbers; the `int64` byte counts wrap around as in the code.
- Streams.GroupIsOrderIndependent: says nothing about `combined` and the remaining time of a group, which depend on the order of a Go map; they are only known to come from some member.
- Pipeline.TerminalUpdateArrives: covers the bus subscription of the gateway; the snapshot frame that a new client gets first is not modelled.
- Cleanup.Job.PreviewRetainedFiles: the walk sees the tree as it is at one moment; changes during the walk are not modelled, changes after it are.
- Cleanup.TokenIdentifiesFiles: holds for file names that are valid UTF-8, because the listing is encoded as JSON before it is hashed and every invalid byte becomes U+FFFD there, so that names that differ only in such bytes get the same token. The digest is taken as injective, and resolving symbolic links and the checks of `openOwnedDirectory` before the preview are not modelled.
- Cleanup.Relative: for clean absolute output paths, as the worker records them.
- History.ProgressStore.TrimHistory: the snapshots of one pass are taken at one moment; the exact remaining records are stated for an otherwise idle store, and which records stay is not stated when the comparison is no order.
- History.ProgressStore.CleanupOldDownloads: the same goes for its snapshots.
- History.RestartFailsWhatWasActive: a restored log keeps its last 16 lines in the code; logs are not part of these records.
- Admission.App.BeginClosing: the cancelling of active batches is a step of `Batch`; waiting for goroutines to end is not modelled.
- Persistence.QuietMeansSaved: encoding errors and files over 64 MiB are failed writes; the replacement of the file is atomic.
- Config.ReachableIsConstrained: for one inspected source and values of the declared types; fields without influence on constraints, conflicts and selectors are left out, and `presetValues` appears only through the fields it never replaces.
- Batch.ReturnedBatchIsComplete: the batch's progress percentage and messages are not modelled.
