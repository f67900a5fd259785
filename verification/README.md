# Memoratum in Dafny

A model of the parts of Memoratum that can go wrong quietly: the job queue with its leases, the webhook
outbox, the fact graph and the versioned memories, the text and stream algorithms, and the indexes that
have to agree with the tables behind them. `dafny verify dfyconfig.toml` checks the whole project.

Tables are maps from ids to rows. Every statement that changes a table is a function on it, and a class
carries out the same statements in place, with `ensures` that tie its new state to that function of the old
one. What such a function amounts to is stated a second time, by a predicate on rows or positions that does
not use it (`Webhooks.AttemptedIs`, `Worker.RanOnceIs`, `Retention.SweptRows` and their like). What the
statements guarantee together is proved over whole runs: a run is a sequence of events, each enabled where it
happens, from the empty tables. Ids come from counters, so a larger id is a later insertion; time is a real
number that never runs backwards and is read once per call; answers of the network, the language model, the
embedder and the vector store are parameters, so that every statement holds whatever they answer.

The modules:

- `Jobs`, `Leases`: the job table, and N workers that share it through claim, heartbeat, reap, complete,
  fail, requeue and cancel.
- `Webhooks`, `OutboxRuns`, `OutboxGuarantees`: the delivery table, its runs cut at every commit, and what they
  guarantee.
- `Worker`, `Draining`: one `run_once`, and why repeated `run_once` ends.
- `Purge`: deleting a project, with its flag, its one purge job and the ways it can wedge.
- `Facts`, `Memories`, `Database`: supersession, versioned history, and both with the cascade delete.
- `IndexSync`: the vector index against the memory rows, with reindex jobs; runs are cut at every commit and
  every vector call.
- `Retention`: the timed sweep.
- `SplitText`, `SplitParts`, `SplitMarkdown`, `MarkdownForm`, `Packing`: the chunkers and the dream bundles. `Text`
  holds strip() and join.
- `Json`, `StreamReader`, `ReaderSteps`, `Streaming`: JSON texts, the buffered array reader, what it makes of any
  file, and when it agrees with parsing the whole file.
- `VectorStores`, `Fusion`: two stores with one behaviour, and rank fusion.

Some things one would expect are not so, and are stated as what is:

- `complete`, `fail`, `requeue` and `update_result` do not ask who calls them. With workers that keep to their
  own deadline no job has two holders (`Leases.LeaseExclusivity`). A worker that outlives its lease can put two
  workers on one job: by `requeue`, after which a third worker may claim it
  (`Leases.LateWorkerBreaksExclusivity`), or by `update_result`, as the loop of a bulk job calls it, which gives
  the late worker a new deadline (`Leases.LateProgressBreaksExclusivity`). A late `complete` or `fail` closes
  the row under the other worker but makes no second holder. `Leases.LateCallHarmlessIff` says exactly which
  late calls do no harm, and `Leases.TwoHoldersAtOnceIff` which make two holders at once.
- A worker that dies between marking a delivery and inserting its retry can leave the delivery queued with
  no job (`OutboxGuarantees.CrashBetweenCommitsStrands`); a job that comes before its delivery is due is the only
  way an uninterrupted attempt can do so (`OutboxGuarantees.StrandedIffDeferred`).
- A purge job that fails for good wedges its project for good, and so does a crash between the two commits of
  the cancel route (`Purge.FailedPurgeSticks`, `Purge.CrashedCancelSticks`, `Purge.StuckForever`). Every other
  flagged project can still be freed (`Purge.FreedIffNotStuck`). The advice of
  `scripts/recover_stuck_jobs.py:138-144` to cancel the purge job of a project that is wedged after a reap is
  refused by the cancel route, because that job is already over (`Purge.AdviceIsRefused`).
- Asserting an old fact again brings it back beside the live one; `Facts.SoleLiveIff` says when the asserted
  fact ends up alone.
- `delete_all_memories` commits its rows before it calls the vector store. If that call fails, the retry
  finds nothing to delete and the points stay (`IndexSync.FailedDeleteAllLeavesPoint`); the point of a
  deleted memory can still go away, short of a purge of its project or tag, exactly when a reindex job waits for
  it or work on it that is under way may yet remove it (`IndexSync.RemovedIffAwaited`).
- A reindex job reads the row, waits for the embedder and only then writes. If the memory is deleted in between,
  the write brings its point back, and nothing removes it again (`IndexSync.DeletedComesBack`). A point that is
  gone can come back exactly when such a write is under way (`IndexSync.PointReturnsIff`).
- `iter_records` stops early exactly when one of its reads of 1048576 characters ends in the gap in front of a
  record that it should still read (`Streaming.FileAgreesIffAligned`, `Streaming.SecondRecordMissed`).
- A chunk of `split_text` can end where the chunk before it ends, and then only repeats its tail
  (`SplitText.EndRepeated`); that happens exactly when nothing but blanks was added (`SplitText.Split`).
- The separators of a dream bundle are not in its budget; `Packing.SeenWholeIff` says when the model sees a
  whole bundle.
- A dry run of the sweep can count fewer domain events than the sweep deletes (`Retention.DryRunUndercounts`);
  `Retention.DryRunCountsEvents` says when they agree.
- Records without a time of their own are dated by the query in one vector store and by the upsert in the
  other; `VectorStores.UntimedDiffers` says when the answers of the two differ.
- `heartbeat` never shortens a lease, as it says; `update_result`, which serves as the heartbeat of long jobs,
  sets it. With one lease length, or with workers that keep to their own deadline, that never makes it shorter
  either (`Leases.PunctualNeverShortens`); a late worker with a shorter setting than another's can cut the
  other's lease (`Leases.ShortensIffSettingsDiffer`).

## Model

| member | source | states |
|---|---|---|
| `Jobs.LeaseSeconds` | src/memoratum/jobs.py:28-37 | the lease length is always within 30 seconds and a day, and the setting is taken as it is when it lies there |
| `Jobs.NextClaimExists` | src/memoratum/jobs.py:77-112 | claim comes back with a job exactly when some queued job is due |
| `Jobs.JobTable.Enqueue` | src/memoratum/jobs.py:47-74 | a fresh id, one queued row without lease or attempts, due at the given time, everything else as it was |
| `Jobs.JobTable.Claim` | src/memoratum/jobs.py:77-112 | hands out an oldest due queued row, now running under the caller with one attempt more; nothing exactly when none is due |
| `Jobs.JobTable.Heartbeat` | src/memoratum/jobs.py:115-132 | accepted exactly for running rows whose lease holds; the lease then reaches at least as far as before |
| `Jobs.JobTable.ReapStale` | src/memoratum/jobs.py:135-162 | takes back exactly the stale rows, leaves none, and keeps every attempt count |
| `Jobs.JobTable.Complete` | src/memoratum/jobs.py:165-174 | the row is done and holds no lease, whoever calls |
| `Jobs.JobTable.Fail` | src/memoratum/jobs.py:205-212 | the row is failed and holds no lease, whoever calls |
| `Jobs.JobTable.UpdateResult` | src/memoratum/jobs.py:177-202 | a running row's lease is set to the new deadline, and so shortened exactly when that is the earlier one |
| `Jobs.JobTable.Requeue` | src/memoratum/jobs.py:215-222 | the row is queued again without worker or lease, attempts kept |
| `Jobs.JobTable.Cancel` | src/memoratum/jobs.py:225-241 | cancels queued and stale rows only; a running row under a valid lease is left alone |
| `Leases.StepKeepsInv` | src/memoratum/jobs.py:77-241 | every event of the lease protocol keeps exclusivity and the backing of every holder's deadline by its row |
| `Leases.LeaseExclusivity` | src/memoratum/jobs.py:77-241 | in every interleaving of workers that keep to their own deadline no two hold one job, a holder's row runs under its name with a lease at least as long, and rows that do not run have lease zero |
| `Leases.HolderIsSafe` | src/memoratum/jobs.py:115-162 | a holder in time is not reaped, not cancelled, not claimed over, and its heartbeat is accepted |
| `Leases.LateWorkerBreaksExclusivity` | src/memoratum/jobs.py:215-222 | without that assumption a requeue leads to two holders of one job |
| `Leases.LateProgressBreaksExclusivity` | src/memoratum/worker.py:298-311 | and so does a progress report, without any requeue |
| `Leases.LateCallHarmlessIff` | src/memoratum/jobs.py:115-222 | one more call keeps exclusivity and the backing of deadlines if and only if its caller is in time, or, to settle the job or report on it, nobody else in time holds it, or, to renew the lease, the row still runs under the caller's claim |
| `Leases.HarmlessRunsAreExclusive` | src/memoratum/jobs.py:77-241 | runs with late but harmless calls are as exclusive as punctual ones |
| `Leases.TwoHoldersAtOnceIff` | src/memoratum/jobs.py:115-222 | a call makes two holders at once if and only if it is a late heartbeat or progress report on a job that another worker holds |
| `Leases.LeasesAreCapped` | src/memoratum/jobs.py:115-202 | no running row is leased further than its worker's setting reaches from now |
| `Leases.PunctualNeverShortens` | src/memoratum/jobs.py:177-202 | a worker in time never shortens the lease by reporting progress |
| `Leases.ShortensIffSettingsDiffer` | src/memoratum/jobs.py:177-202 | with late workers, some progress report can shorten a lease if and only if two workers have different lease settings |
| `Leases.ClaimAccounting` | src/memoratum/worker.py:55-80 | in every such run attempts is the number of claims, and a job is claimed at most three times plus once per reap |
| `Webhooks.Backoff` | src/memoratum/webhooks.py:799-827 | the wait after a failed attempt is at least one second and at most an hour |
| `Webhooks.BackoffDoubles` | src/memoratum/webhooks.py:799-827 | the wait is one second at first and doubles with every attempt until it is an hour |
| `Webhooks.Outbox.EnqueueDeliveryJob` | src/memoratum/webhooks.py:612-633 | one fresh job for the delivery, due at the given time |
| `Webhooks.Outbox.RecordEvent` | src/memoratum/webhooks.py:648-708 | one queued delivery and one job per subscribed active webhook; unsupported events are refused, and without a known project there is no trace |
| `Webhooks.FanOutTells` | src/memoratum/webhooks.py:648-708 | the webhooks told of an event are exactly the active ones of the project that want it, in order, each with one pending delivery due at once and one queued job for it; nothing else changes |
| `Webhooks.Outbox.MarkDelivery` | src/memoratum/webhooks.py:758-773 | exactly the one delivery row changes |
| `Webhooks.Outbox.ScheduleDeliveryRetry` | src/memoratum/webhooks.py:776-796 | a queued job of the delivery is moved to the earlier time, else one new job is inserted |
| `Webhooks.RetryScheduledIs` | src/memoratum/webhooks.py:776-796 | the oldest queued job of the delivery runs no later than the retry time, or else one new job at that time; no other row changes |
| `Webhooks.Outbox.RequeueOrDead` | src/memoratum/webhooks.py:799-827 | dead once the attempts are used up, else queued with a retry within the hour |
| `Webhooks.Outbox.DeliverDelivery` | src/memoratum/webhooks.py:830-918 | not found, settled, deferred and due by the row alone; a due attempt counts one more and leaves the row succeeded if it was accepted, dead if it was the last allowed, else pending with the next attempt after the wait and a job for it; otherwise nothing changes |
| `Webhooks.AttemptedIs` | src/memoratum/webhooks.py:799-918 | the same of the function behind it, on any tables |
| `Webhooks.Outbox.ReplayDelivery` | src/memoratum/webhooks.py:938-1008 | refused for succeeded deliveries and while a job of the delivery runs, and then nothing changes; otherwise the row starts over, and the oldest queued job of it, or a new one, is the only one queued, due at once |
| `Webhooks.ReplayedIs` | src/memoratum/webhooks.py:938-1008 | the same of the function behind it |
| `OutboxRuns.OutboxInvariant` | src/memoratum/webhooks.py:612-1008 | in every run each queued delivery has one job that has yet to bring it forward and comes on time, however workers, replays, cancels and reaps of workers that are gone interleave between the commits |
| `OutboxGuarantees.ExactlyOneLiveJob` | src/memoratum/webhooks.py:612-1008 | a queued delivery has exactly one live job between steps, a delivery that is over has none |
| `OutboxGuarantees.NeverDeferred` | src/memoratum/webhooks.py:830-860 | whenever a delivery job can be claimed or read its delivery is due, so no attempt answers "deferred" |
| `OutboxGuarantees.ReplayRestores` | src/memoratum/webhooks.py:938-1008 | replay restores exactly one live job, due at once, from any tables without a running job of the delivery |
| `OutboxGuarantees.StrandedIffDeferred` | src/memoratum/webhooks.py:830-918 | an attempt in one piece leaves a delivery queued without a job if and only if the job came before the delivery was due |
| `OutboxGuarantees.CrashBetweenCommitsStrands` | src/memoratum/webhooks.py:799-827 | a crash between the two commits of a failed attempt can strand the delivery |
| `OutboxGuarantees.NothingStranded` | src/memoratum/webhooks.py:799-827 | with crashes only before the outcome is committed no run strands a delivery |
| `OutboxGuarantees.AnswerIsRecorded` | src/memoratum/webhooks.py:799-918 | in runs cut at commits too, the outcome of an attempt is in the row of its delivery |
| `OutboxGuarantees.OnlyAnswersSettle` | src/memoratum/webhooks.py:612-1008 | no step but the outcome of an attempt leaves a delivery succeeded or dead that was not |
| `OutboxGuarantees.StatusTellsOutcome` | src/memoratum/webhooks.py:612-1008 | in every run a delivery is succeeded only after an attempt at it was accepted, and dead only after one that was not and was the last allowed; its row counts that attempt and has not changed since |
| `Worker.WorkerProcess.RunOnce` | src/memoratum/worker.py:43-80 | runs nothing exactly when no job is due, else one oldest due job: its row counts one attempt more and ends done if the handler returned, failed if it raised ValueError or knew no such kind, queued without worker or lease after other exceptions below three attempts and failed at the third, and still running if nothing settled it; everything else is as the handler leaves it |
| `Worker.RanOnceIs` | src/memoratum/worker.py:43-80 | the same of the function behind it |
| `Worker.WorkerProcess.Dispatch` | src/memoratum/worker.py:83-387 | kind by kind: an ingest inserts one dream job exactly if the model is there and the document is in, a bulk job one reindex job per failed vector call, in order; events are recorded one after the other; a delivery is attempted if due; a purge leaves exactly what is not of the project; also by a handler that raises on its way |
| `Worker.DispatchedIs` | src/memoratum/worker.py:83-387 | the same of the function behind it |
| `Worker.HandlerKeepsRow` | src/memoratum/worker.py:83-387 | a handler changes no row that is not queued, deletes such rows only in a purge, and never the row of its own job |
| `Worker.WorkerProcess.PurgeProject` | src/memoratum/db.py:1526-1577 | the project's other jobs, webhooks, events and their deliveries go, the purge job stays |
| `Worker.ProjectPurgedIs` | src/memoratum/db.py:1526-1577 | row by row: what is left of a purged project is its purge job, and of all else what belongs to other projects |
| `Worker.EventsGrow` | src/memoratum/worker.py:83-387 | recorded events change no old row and add only delivery jobs |
| `Draining.StepLighter` | src/memoratum/worker.py:43-387 | every run_once, wherever it raises, leaves fewer runs to the jobs of the rank it ran and no more to those below; at the last rank it may instead spend an attempt that a delivery had left |
| `Draining.OverIsOver` | src/memoratum/worker.py:43-80 | a job that is over is not claimed again and its row not changed by any other run_once, though a purge may delete it |
| `Draining.DrainingTerminates` | src/memoratum/worker.py:43-387 | there is no endless sequence of run_once, whatever times they happen at and whatever they spawn |
| `Draining.StopsOnlyWhenIdle` | src/memoratum/worker.py:43-80 | no further run_once is possible, with the clock moved on, if and only if no row is queued |
| `Draining.Drain` | src/memoratum/worker.py:43-80 | the loop ends with an empty queue |
| `Purge.WedgedAfterReap` | src/memoratum/jobs.py:275-292 | right after a reap the wedged projects are exactly the deleting ones, bar the default project, without a purge job that is not over |
| `Purge.WedgedIs` | src/memoratum/jobs.py:275-292 | wedged are the flagged projects, other than the default one, none of whose purge jobs is queued or runs under a valid lease |
| `Purge.Routes.DeleteProject` | src/memoratum/app.py:1890-1955 | flags the project and enqueues one purge job, exactly when it exists, is not the default one and is not flagged; otherwise changes nothing and says why |
| `Purge.Routes.CancelJob` | src/memoratum/app.py:3346-3379 | answers for queued and stale jobs only, and lifts the flag of the project whose purge it cancelled |
| `Purge.Routes.WedgedProjects` | src/memoratum/jobs.py:275-292 | the loop finds exactly the wedged projects |
| `Purge.AtMostOnePurge` | src/memoratum/app.py:1906-1955 | in every lease-respecting run a project has at most one purge job that is not over, and while it has one it is flagged or gone |
| `Purge.StuckForever` | src/memoratum/jobs.py:275-292 | a flagged project whose purge jobs are all over stays so in every continuation, and is reported as wedged throughout |
| `Purge.FailedPurgeSticks` | src/memoratum/worker.py:74-76 | one purge that raises ValueError is enough for that |
| `Purge.CrashedCancelSticks` | src/memoratum/app.py:3369-3378 | and so is a crash between the commit of the cancel and that of the flag |
| `Purge.FreedIffNotStuck` | src/memoratum/app.py:3346-3379 | a flagged project can be freed in some continuation if and only if it is not stuck |
| `Purge.StuckJobsCannotBeCancelled` | src/memoratum/app.py:3346-3379 | no purge job of a stuck project can be cancelled, now or ever |
| `Purge.AdviceIsRefused` | scripts/recover_stuck_jobs.py:130-144 | no purge job of a project that is wedged after a reap can be cancelled, and the project is never freed, unless a cancel is just lifting its flag |
| `Facts.AddKeepsInv` | src/memoratum/facts.py:45-145 | add_fact keeps the graph's invariant, in the revive, supersede and coexist cases |
| `Facts.RemoveKeepsInv` | src/memoratum/facts.py:148-152 | so does a delete the foreign key allows |
| `Facts.LiveAfterAdd` | src/memoratum/facts.py:45-145 | which facts of the topic are live afterwards, and that no other topic changes |
| `Facts.SoleLiveIff` | src/memoratum/facts.py:66-100 | with superseding on the asserted fact is the only live one of its topic if and only if its object is new or no other was live |
| `Facts.RevivalLeavesTwo` | src/memoratum/facts.py:66-100 | Paris, Rome, Paris leaves two live facts |
| `Facts.PathsGoBack` | src/memoratum/facts.py:128-134 | every chain of supersessions goes strictly back in time and stays on its topic |
| `Facts.SupersessionGraph` | src/memoratum/facts.py:45-152 | in every reachable graph edges go to later facts of the same topic, closed means superseded, a triple has one row, and there is no cycle |
| `Memories.InsertKeepsInv` | src/memoratum/db.py:749-873 | a created memory starts with its only ADD, and no other history changes |
| `Memories.InsertedIs` | src/memoratum/db.py:749-813 | a new memory has its text, and its metadata but for the keys that say who wrote it |
| `Memories.RewriteKeepsInv` | src/memoratum/db.py:946-1043 | an update quotes the text it replaces and keeps every history faithful to its row |
| `Memories.UpdatedIs` | src/memoratum/db.py:946-1000 | an update refuses deleted memories and blank texts; otherwise text and version change, and where keys of old and new metadata meet the new value wins |
| `Memories.CategorizedIs` | src/memoratum/db.py:1003-1043 | a category of one to 200 characters, stripped, goes into the metadata and the text stays |
| `Memories.BurialsExact` | src/memoratum/db.py:1072-1120 | a delete of several memories gives each one version and one DELETE entry more, and touches nothing else |
| `Memories.EachBuriedOnce` | src/memoratum/db.py:1072-1120 | burying distinct memories gives each one version and one DELETE entry with that version, and changes nothing else |
| `Memories.EntryKeepsInv` | src/memoratum/db.py:1183-1222 | an entry with the next version that quotes the row it replaces keeps every history faithful: no gap, one ADD in front, DELETE only at the end, and the fold is the row |
| `Database.Tables.CreateMemory` | src/memoratum/db.py:749-813 | a fresh active memory with one history entry; blank text is refused and changes nothing |
| `Database.Tables.EnsureFactMemory` | src/memoratum/db.py:816-873 | after the call the fact has a memory, a new one only if it had none |
| `Database.Tables.UpdateMemory` | src/memoratum/db.py:946-1000 | merged metadata without identity keys, one version and one entry more; missing, deleted and blank are told apart |
| `Database.Tables.CategorizeMemory` | src/memoratum/db.py:1003-1043 | the category is stripped and bounded, the text kept, one version and one entry more |
| `Database.Tables.LinkedMemoryIds` | src/memoratum/db.py:1046-1069 | the worklist ends and finds exactly the memories reachable backwards over facts with active memories, in order, never the start |
| `Database.Tables.SoftDeleteMemory` | src/memoratum/db.py:1072-1120 | deletes the memory first and, if asked, exactly the linked ones, once each; a deleted memory is left as it is |
| `Database.Tables.AddFact` | src/memoratum/facts.py:45-145 | the answer is the row of the triple, and the fact has its memory |
| `Database.FactAddedIs` | src/memoratum/facts.py:45-145 | the row of a known triple is live again and no other row changes; a new triple gets a row, and if asked every live fact of its topic is closed now in its favour; the fact has its memory, with subject, predicate and object as its text if it is new |
| `Database.Tables.DeleteFact` | src/memoratum/facts.py:148-152 | unknown and referenced facts are told apart and change nothing; memories of a deleted fact stay, without it |
| `Database.WalkIsComplete` | src/memoratum/db.py:1046-1069 | an empty frontier means the linked memories are exactly those met |
| `Database.NeverTheStart` | src/memoratum/db.py:1046-1069 | because supersession has no cycle, a walk never comes back to its memory |
| `Database.StepKeepsDbInv` | src/memoratum/db.py:749-1120 | every lifecycle function keeps graph, histories and the one-memory-per-fact projection |
| `Database.HistoryIsTheMemory` | src/memoratum/db.py:749-1222 | after any run the history of a memory alone tells its row |
| `Database.CascadeExact` | src/memoratum/db.py:1046-1120 | after any run a cascade raises exactly its targets by one version and one DELETE entry |
| `IndexSync.StepSound` | src/memoratum/worker.py:185-372 | every commit and every vector call of a route, a bulk item or a reindex run keeps points accounted for, and so do crashes between them |
| `IndexSync.NoSilentDrift` | src/memoratum/worker.py:226-289 | however routes and workers interleave between their commits and vector calls, a point that differs from its row has a reindex job that is not over or work under way that deals with it, unless it was left behind: by a failed vector call outside bulk items, a failed or cancelled reindex job, a crash before either, a purge of the row alone, or a vector call that wrote what the row no longer said |
| `IndexSync.QuietIsInStep` | src/memoratum/worker.py:347-372 | with no reindex job left over, nothing under way and nothing left behind, a point says what its row says |
| `IndexSync.DeletedStaysGone` | src/memoratum/worker.py:347-356 | a reindex job from before a delete or a purge cannot bring the point back, whatever the order of jobs, unless its run had read the row by then |
| `IndexSync.PointReturnsIff` | src/memoratum/worker.py:347-372 | the point of a deleted or purged memory can come back if and only if a vector call is under way that read the row before |
| `IndexSync.ReindexOvertaken` | src/memoratum/worker.py:347-372 | a delete between the read and the write of a reindex run leaves the point of a deleted memory that nobody is about to deal with |
| `IndexSync.DeletedComesBack` | src/memoratum/worker.py:347-372 | such a run from the empty tables |
| `IndexSync.StaleForever` | src/memoratum/worker.py:347-372 | the point of a deleted memory that no reindex job waits for, and no work under way may remove, is in the index after every run that does not purge its project or tag |
| `IndexSync.RemovedIffAwaited` | src/memoratum/worker.py:347-372 | short of such a purge the point of a deleted memory can still be removed if and only if a reindex job waits for it, or work under way removes it or may lead to such a job |
| `IndexSync.FailedDeleteAllLeavesPoint` | src/memoratum/worker.py:153-185 | a vector call of delete_all_memories that fails or never comes leaves such a point, and a retry finds no row to delete |
| `IndexSync.IndexedMemories.UpdateMemory` | src/memoratum/app.py:2266-2303 | the row and then its reindex job, or neither; a crash in between leaves the point behind |
| `IndexSync.IndexedMemories.DeleteMemory` | src/memoratum/app.py:2411-2426 | the memory and, if asked, exactly its linked ones are deleted whether or not the vector call goes through |
| `IndexSync.IndexedMemories.DeleteMemories` | src/memoratum/worker.py:153-185 | row by row, and the points only if the vector call behind the commit goes through |
| `IndexSync.IndexedMemories.BulkMemories` | src/memoratum/worker.py:186-329 | exactly the operations that an earlier try has not finished are carried out, in order; one that does not apply changes nothing, any other its row and then its point, and a failed vector call leaves a reindex job |
| `IndexSync.ItemsDoneIs` | src/memoratum/worker.py:186-329 | the same of the function behind it |
| `IndexSync.UnnamedIsKept` | src/memoratum/worker.py:202-205 | a memory that only finished operations name keeps its row and its point |
| `IndexSync.OnlyOneTakesEffect` | src/memoratum/worker.py:202-329 | an unfinished operation on a memory that no other one names takes effect exactly once, and what it leaves stays |
| `IndexSync.UpdateLands` | src/memoratum/worker.py:226-268 | such an update leaves the new text and merged metadata in the row, and the point agrees, or has a reindex job, or was left behind, as the vector call went |
| `IndexSync.RemoveLands` | src/memoratum/worker.py:269-289 | such a delete leaves the row deleted with one version more, and the point gone, or waited for, or left behind |
| `IndexSync.IndexedMemories.Reindex` | src/memoratum/worker.py:347-372 | afterwards the memory has a point exactly if it is active, and then the right one |
| `Retention.SweepKeepsObligations` | src/memoratum/retention.py:117-184 | no sweep, in any order of tables, removes a queued delivery or a queued or running job, or parts a surviving delivery from its event |
| `Retention.NothingCascades` | src/memoratum/retention.py:134-140 | the foreign key from deliveries to events never fires |
| `Retention.SweepCleans` | src/memoratum/retention.py:67-77 | any order with deliveries before events leaves every swept table clean |
| `Retention.SecondSweepDeletesNothing` | src/memoratum/retention.py:117-184 | a second sweep at the same clock changes nothing and reports zeros |
| `Retention.ParentsFirstLeavesWork` | src/memoratum/retention.py:67-77 | with events first it would not |
| `Retention.DryRunCounts` | src/memoratum/retention.py:163-169 | for every table but domain_events a dry run counts what the sweep deletes |
| `Retention.DryRunCountsEvents` | src/memoratum/retention.py:134-140 | of domain_events it never counts more, and as many if and only if no old event is held by swept deliveries alone |
| `Retention.DryRunUndercounts` | src/memoratum/retention.py:163-169 | under the seeded windows any event older than 90 days whose only delivery was delivered as long ago is deleted but not counted |
| `Retention.Database.Sweep` | src/memoratum/retention.py:117-184 | afterwards each table has exactly the rows that are not past its window or are held: pending deliveries, jobs that are not over, events that a delivery left over names; each table is counted by how much smaller it got; a dry run leaves everything |
| `Retention.SweptRows` | src/memoratum/retention.py:117-184 | the same for any order of tables with deliveries before events |
| `Retention.CountsAreRows` | src/memoratum/retention.py:117-184 | what is reported of a table is by how many rows it got smaller |
| `SplitText.PartsConcat` | src/memoratum/chunking.py:17 | splitting at separators loses nothing |
| `SplitText.SeparatorIs` | src/memoratum/chunking.py:12 | which separators there are, and that a blank line comes before a newline |
| `SplitText.NoneBefore` | src/memoratum/chunking.py:12-17 | nor does it miss a separator |
| `SplitParts.PartsAre` | src/memoratum/chunking.py:12-17 | each part is one separator, or all that stands between two of them |
| `SplitText.UnitsConcat` | src/memoratum/chunking.py:18-27 | the units put together are the text |
| `SplitText.UnitsAre` | src/memoratum/chunking.py:18-27 | each unit is a part with the separator right behind it, or a part alone |
| `SplitText.AttachSeparators` | src/memoratum/chunking.py:18-27 | each part takes along the separator behind it |
| `SplitText.Split` | src/memoratum/chunking.py:15-38 | chunks are stripped contiguous slices; before stripping they end further and further on and overlap by at most `overlap`; stripped they never end earlier than the one before, and at the same place exactly if only blanks were added; every character that is not blank is in a chunk, and none is longer than the chunk size or overlap plus the longest unit; a chunk is closed only when the next unit does not fit |
| `SplitText.ChunksArePacked` | src/memoratum/chunking.py:28-38 | a chunk is closed exactly in front of the first unit for which a buffer that is not blank has no room; the next one begins with its last `overlap` characters, unless they are blank, and that unit; what is left at the end is the last chunk, unless blank |
| `SplitText.EndRepeated` | src/memoratum/chunking.py:28-38 | two letters and three spaces, cut to three with an overlap of two, give a second chunk that ends where the first does |
| `SplitMarkdown.LinesRoundTrip` | src/memoratum/chunking.py:43 | lines joined again are the text |
| `MarkdownForm.HeadingIs` | src/memoratum/chunking.py:57-61 | a heading has one to six hash signs and a blank with something behind, and its text is what stands behind the hash signs |
| `MarkdownForm.FencedIs` | src/memoratum/chunking.py:54-56 | a fence is open where an odd number of fence lines stands above |
| `MarkdownForm.NearestIs` | src/memoratum/chunking.py:57-61 | the nearest heading is that of the last unfenced heading line above |
| `SplitMarkdown.Sections` | src/memoratum/chunking.py:43-64 | sections are the maximal runs of lines between unfenced headings, in order, each under its heading, and only headings and blank lines are missing |
| `SplitMarkdown.SectionHeading` | src/memoratum/chunking.py:54-64 | a section carries the nearest unfenced heading above each of its lines |
| `SplitMarkdown.SplitSection` | src/memoratum/chunking.py:67-75 | a section's pieces cover its body within the size the heading leaves, and a body that fits stays whole |
| `MarkdownForm.PiecesAre` | src/memoratum/chunking.py:67-75 | a body that fits behind its heading is one piece, any other is packed to the size the heading leaves, with an overlap of a hundred |
| `MarkdownForm.HeadedIs` | src/memoratum/chunking.py:67-75 | each piece stands behind its heading as a heading of the first level and a blank line, or alone without one |
| `MarkdownForm.ChunkPlace` | src/memoratum/chunking.py:65-76 | chunks come section by section and piece by piece |
| `SplitMarkdown.SplitMarkdown` | src/memoratum/chunking.py:41-76 | the chunks are the pieces of all sections in order, each behind its heading |
| `SplitMarkdown.ChunkIsVerbatim` | src/memoratum/chunking.py:41-76 | every chunk is a heading in front of text that stands in the document word for word, at a place where that heading is the nearest unfenced one above every line |
| `SplitMarkdown.NothingLost` | src/memoratum/chunking.py:41-76 | every character, not blank, of a line that is no heading stands in a chunk, at its place in the document, under the nearest unfenced heading above that line |
| `Json.IsComplete` | src/memoratum/eval_datasets.py:123-154 | the loop gives the scanner's verdict on the record from its start |
| `Json.TruncatedIsIncomplete` | src/memoratum/eval_datasets.py:123-154 | the scanner is false on every non-empty proper prefix of an object or array text |
| `Json.WholeIsComplete` | src/memoratum/eval_datasets.py:123-154 | and true on every whole value text |
| `Json.ObjectsArePrefixFree` | src/memoratum/eval_datasets.py:96-112 | no value text is a proper prefix of an object text |
| `StreamReader.IterRecords` | src/memoratum/eval_datasets.py:79-120 | the buffer with its position and compaction reads what its unconsumed part and the chunks to come determine, on any input |
| `ReaderSteps.StreamedIs` | src/memoratum/eval_datasets.py:79-120 | on any input: a bad limit and a file that does not open an array are refused; from the bracket on each record is an object that the decoder reads at the first place behind the one before that is no separator, with no more chunks than it needs; reading ends at the limit, a closing bracket, the end of the buffer or a truncated record at the end of the file, and is refused at a whole value that cannot be read or is no object |
| `ReaderSteps.CollectedIs` | src/memoratum/eval_datasets.py:86-120 | the same from any position with any number of chunks loaded |
| `Streaming.TruncatedRecord` | src/memoratum/eval_datasets.py:96-112 | a record that goes on in the next chunk is neither decoded nor taken for malformed |
| `Streaming.CollectsUpToStop` | src/memoratum/eval_datasets.py:86-120 | from any point of a well-formed array the reader yields the records up to the first one a chunk ends in front of |
| `Streaming.StreamsUpToStop` | src/memoratum/eval_datasets.py:79-120 | for every well-formed array of objects, every chunking and every limit the result is a prefix of the records in order, or a refusal if the first chunk does not reach the bracket |
| `Streaming.StopIsFirstCut` | src/memoratum/eval_datasets.py:86-96 | where the prefix ends: the limit, the end, or the first record with a chunk ending just in front of it |
| `Streaming.AgreesUnlessCut` | src/memoratum/eval_datasets.py:79-120 | streaming agrees with whole-file parsing cut to the limit if and only if the array opens in the first chunk and no chunk ends in front of one of those records |
| `Streaming.FileAgreesIffAligned` | src/memoratum/eval_datasets.py:79-120 | as the file is really read, that is: less than a chunk of blanks in front of the array, and no multiple of 1048576 in the gap in front of any of those records |
| `Streaming.OneChunkAgrees` | src/memoratum/eval_datasets.py:79-120 | a file in one chunk is read like a whole-file parse |
| `Streaming.SecondRecordMissed` | src/memoratum/eval_datasets.py:77-96 | two records with so many blanks between them that the first read ends there: the second is not found |
| `Streaming.ReadObjectIsDecoder` | src/memoratum/eval_datasets.py:96-112 | a decoder that reads one object, and nothing else, has what the statements on streaming ask of the decoder, so they are not empty |
| `VectorStores.RankingIsUnique` | src/memoratum/vectorstore.py:102-124 | ordering by score and id leaves one ranking, whatever order the records come in |
| `VectorStores.HitIs` | src/memoratum/vectorstore.py:102-124 | a hit is a record of the tag, of the organization and project if asked, with all labels asked for, scored by its vector and dated as of now if it has no time |
| `VectorStores.RankedFall` | src/memoratum/vectorstore.py:102-124 | ranked hits fall by score, and rise by id where scores are equal |
| `VectorStores.ReturnedIff` | src/memoratum/vectorstore.py:102-124 | a query returns exactly the selected records with fewer than `limit` selected records in front of them |
| `VectorStores.Rank` | src/memoratum/vectorstore.py:102-124 | all matching records, best first, cut to the limit |
| `VectorStores.Dictionary.Find` | src/memoratum/vectorstore.py:147-164 | the ranking of all records in scope |
| `VectorStores.Dictionary.Delete` | src/memoratum/vectorstore.py:166-192 | exactly the named records go, each counted once; neither ids nor tag is an error |
| `VectorStores.RemainingIs` | src/memoratum/vectorstore.py:166-192 | exactly what the target names is gone: the ids, or what is under the tag, of the organization and project if named, and of none if only such are asked for |
| `VectorStores.RemovedIs` | src/memoratum/vectorstore.py:166-192 | the count is how many ids are gone |
| `VectorStores.Table.Upsert` | src/memoratum/vectorstore.py:206-237 | one row per id afterwards, holding the last record given for it |
| `VectorStores.UpsertedIs` | src/memoratum/vectorstore.py:135-237 | every id of a batch holds the last record given for it, and every other id what it held |
| `VectorStores.Table.Find` | src/memoratum/vectorstore.py:239-280 | the ranking of all rows in scope |
| `VectorStores.Table.Delete` | src/memoratum/vectorstore.py:282-315 | exactly the named rows go, and the row count says how many |
| `VectorStores.RankAlike` | src/memoratum/vectorstore.py:102-124 | stores that differ in times of creation at most rank alike |
| `VectorStores.RunBoth` | src/memoratum/vectorstore.py:135-315 | any sequence of operations gets the same answers from both stores, up to filled-in times; exactly the same if every record has a time |
| `VectorStores.AnswersEqualIff` | src/memoratum/vectorstore.py:102-124 | the two answers to a query are the same to the last field if and only if every record with fewer than `limit` selected records in front of it came with its own time or happens to be dated as of the query |
| `VectorStores.UntimedDiffers` | src/memoratum/vectorstore.py:118-230 | after a batch is put into stores that agree, their answers are the same if and only if upsert and query happen at once, or the clock stood at zero, or every selected record without a time has at least `limit` selected records in front of it |
| `Packing.WindowsAreTheText` | src/memoratum/dreaming.py:131-134 | the windows of a document put together are its content, none empty or over the budget |
| `Packing.CutUpIs` | src/memoratum/dreaming.py:131-134 | window after window of 8000 characters, and the rest |
| `Packing.WindowsOfIs` | src/memoratum/dreaming.py:129-134 | the windows of several documents are those of each, one after the other, an empty one counting as a blank |
| `Packing.EveryDocHasWindows` | src/memoratum/dreaming.py:130-134 | every document has a window, an empty one too |
| `Packing.Group` | src/memoratum/dreaming.py:122-127 | rows by scope, in order, none lost; the scopes in the order in which they first come up |
| `Packing.OfScopeIs` | src/memoratum/dreaming.py:122-127 | the rows of a scope are exactly those, in their order |
| `Packing.Dreamer.PackWindows` | src/memoratum/dreaming.py:135-144 | bundles partition the windows in order, stay within the budget, and are closed only when the next window does not fit; one call each |
| `Packing.NextFitBound` | src/memoratum/dreaming.py:135-144 | fewer bundles than twice the total over the budget plus one |
| `Packing.CallsBound` | src/memoratum/dreaming.py:128-144 | so the calls for a scope are bounded by the length of its documents |
| `Packing.PromptShows` | src/memoratum/dreaming.py:159-160 | the prompt shows every window of the bundle in order, with a separator in front of all but the first, and nothing else |
| `Packing.Seen` | src/memoratum/dreaming.py:36-39 | the model sees the first 8000 characters of a prompt |
| `Packing.SeenWholeIff` | src/memoratum/dreaming.py:36-39 | the model sees a whole bundle if and only if its separators fit in what the windows leave |
| `Packing.SeparatorsCutOff` | src/memoratum/dreaming.py:159-160 | two windows of 4000 characters lose the last seven |
| `Packing.DreamPending` | src/memoratum/dreaming.py:96-147 | exactly the pending rows end up marked, the prompts are those of all bundles of all scopes in order, and every call is counted |
| `Packing.PromptOfBundle` | src/memoratum/dreaming.py:122-147 | one prompt for each bundle, in the order of the scopes and of the bundles in each |
| `Fusion.ShareFalls` | src/memoratum/search.py:327-328 | a leg's share is positive and falls with the rank |
| `Fusion.FusedBounds` | src/memoratum/search.py:299-390 | every ranked candidate scores more than zero and at most 1/61 |
| `Fusion.FusedByRanks` | src/memoratum/search.py:327-396 | a candidate scores 0.6/(60 + rank) for each vector list and 0.4/(60 + rank) for the keywords, of those that rank it |
| `Fusion.BetterRankScoresMore` | src/memoratum/search.py:299-390 | ranked no worse by every leg and better by one, a candidate scores strictly more |
| `Fusion.StoreLeg` | src/memoratum/search.py:305-326 | exactly the store's hits that are candidates and match, best first |
| `Fusion.VectorLeg` | src/memoratum/search.py:330-376 | chunks only if the store gave none, embedded facts always, best first, each once |
| `Fusion.KeywordLegOnce` | src/memoratum/search.py:380-391 | the keyword leg ranks each candidate once and at most `keyword_limit` of them |
| `Fusion.KeywordLegIs` | src/memoratum/search.py:380-396 | the keyword leg is the first `keyword_limit` entries by score among the first full-text hits, which score one, and the facts with a positive overlap; equal scores keep the order of the hits and then of the facts |
| `Fusion.TheyAreLegs` | src/memoratum/search.py:299-391 | no candidate is in both vector lists, so each leg gives it at most one term |
| `Fusion.Search` | src/memoratum/search.py:192-420 | hits are distinct candidates with the scores fused from the three lists, each of which is what it should be, and with the right texts, best first, within limit and threshold, and nothing better is left out |
| `Fusion.MergeHits` | src/memoratum/search.py:106-114 | each id once, at its best similarity over all batches, best first, nothing better left out |

## Left out

- HTTP, DNS, TLS, signing and encryption of secrets in `webhooks.py`: a delivery attempt succeeds or fails.
- The rest of `app.py` (parsing, authorization, response shapes, rate limits) and `mem0_contract.py`.
- Language model, embedder, reranker and the Qdrant, Chroma and pgvector adapters; embeddings and cosine
  scores are parameters, and rounding of vectors to 32 bits and of scores to six digits is not modelled.
- SQLite itself, migrations, WAL, full-text ranking and backup. Statements between two commits are one step.
- Each call reads the clock once, where the source sometimes reads it several times in a row.
- `list_memory_history` orders by time and id; the model's history is in order of insertion.
- `Jobs.JobTable.Claim`: jobs created at the same instant tie, and any of them may be handed out.
- `Draining.DrainingTerminates`: nobody puts back the row of a worker that died; reaping belongs to `Leases`.
- `Worker.WorkerProcess.Dispatch`: what ingest, dream and backfill do outside the job and outbox tables is not
  modelled; the events they record and the jobs they insert are arbitrary.
- `Database`: the webhook events that the lifecycle functions record belong to `Webhooks`, and are not linked.
- `IndexSync.NoSilentDrift`: a missing point is not drift.
- `OutboxRuns.OutboxInvariant`: a worker whose job is reaped or cancelled is taken to act no more on it; one that
  is only late and goes on with the delivery is not modelled here. `Leases` models late workers, without
  deliveries.
- `Leases.ClaimAccounting`: runs have no replay, which sets the attempts of a job back to zero; it belongs to
  `OutboxRuns`.
- `Json`: JSON texts are those of RFC 8259 with the constants NaN, Infinity and -Infinity that Python's reader
  adds; its limits on nesting and on digits are not modelled.
- `StreamReader`: files ending in .jsonl and files that start with a brace are read by other code.
- `Fusion.Search`: the reranked order and negative limits are not modelled; equal scores of the vector lists and of
  the hits may come in any order.
- `Retention`: windows are whole numbers of days, and freeing pages afterwards is not modelled.
- Metrics, latency, cost and isolation reports, command lines, dashboards and client SDKs.
