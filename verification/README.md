# Verified model of the dARK minter

The minter reserves ARK identifiers, accepts metadata for them, stores that metadata, waits for replicas and publishes
the result to a blockchain. This project models the parts in which that can go wrong and proves that it does not. It
is checked with `dafny verify dfyconfig.toml`.

## What is modelled

**The publication protocol** (`ArkTypes`, `ArkRow`, `Lifecycle`, `Verdicts`, `Protocol*`, `ProcedureRuns`,
`ArkLocks`). One ARK row has a public state, an internal stage, a status, two CIDs, two replica counts and a retained
payload. PUT, DELETE, ownership reconciliation, administrative retry and three workers act on the rows at the same
time. `Protocol` is a transition system: taking and losing a lock, reading, every external call and every commit are
separate steps, the chain worker selects a record, reads its metadata and sends without a lock in three steps,
connections die at any moment, the store may answer with any CID, and anybody may write to the chain.
`ProtocolInvariant` and `ProtocolPreservation` prove one inductive invariant over all interleavings,
`ProtocolTheorems` draws the guarantees from it. The classes `ArkRepository`, `MetadataPersistenceWorker`,
`ReplicationReconciliationWorker`, `ChainPublisherWorker` and `ArkMutations` are the procedures as code, each proved
against the row functions of `ArkRow`, `Lifecycle` and `Verdicts`; `ProcedureRuns` proves that each procedure is a run
of the transition system, down to every log entry. `ProtocolItems` says exactly when a pipeline item, read by two
queries, is sound; `ProtocolExamples` exhibits three runs from the initial state. `ArkLocks` models the lock itself and
ties it to the protocol's lock steps.

**Worker cycles** (`ReplicationCycle`, `ChainCycle`, over the generic `Seqs` and `Pipelines`). Choosing a page,
observing CIDs in batches, the two-second window, the promotion budget; grouping into single-authority pipelines,
settling, and the counters the worker loop reads.

**NOIDs and reservation** (`Noid`, `Reservation`, `ReservationRuns`, `ReservationProcedures`). Base-29 encoding, the
weighted check digit of the section "NOID CHECK DIGIT ALGORITHM" of the Noid documentation, minting, the counter
repository and the retry loops of single and batch reservation. `Reservation` specifies and proves the endpoints,
`ReservationRuns` is a transition system of interleaved transactions, `ReservationProcedures` proves that the
endpoints are runs of it.

**Request admission and authorization** (`NonceAdmission`, `AuthCache`). The timestamp window, nonce table and
cleanup, the sliding key cache, and the authorization cache with its insertion-ordered dictionary.

**The importer** (`ArkIdentifiers`, `CsvReader`, `Importer`). Parsing identifiers, classifying CSV rows, importing
with a checkpoint file, and resuming after a crash between any two effects.

## Reading the model

- Arbitrary answers of the outside world are parameters or step arguments: replies of the store, the registry, the
  chain and the cluster, clock readings, results of pipelines, lock keys (`Config.lockKey` may map different ARKs to
  one key).
- The chain worker reads an item's record and its metadata row by two statements of one READ COMMITTED transaction, so
  anything may commit between them; the two parts are kept apart in `Protocol.Item`.
- `Meta.origin`, `Logs`, `World.creates` and `Session.given` are history variables. The program stores no such column
  and nothing is decided by them; they let theorems speak about who submitted a payload and what has happened before.
- A chain client answer "confirmed", or a call that returned, means that the write took effect, and a value read from
  the chain has been on it. Reads may be stale. Nothing else is assumed of the chain. A store is assumed to be
  deterministic only where a theorem says so (`Deterministic`).
- An ARK that the importer creates belongs to the wallet it imports for, also when the creating call raises.
- In `Protocol`, whether an authority is assigned to the deployment may change between any two checks.

Where code and documentation disagree, the model follows the code:

- Payloads are purged by the replication worker only (`app/workers/publisher.py:499-508`), not by the metadata worker.
- `mark_processing_failed` takes permanence from the error catalogue and overrides its caller
  (`app/repositories/ark_repository.py:831-833`, catalogue in `alembic/versions/0001_initial_schema.py:89-103`).
- `max_retries` is ignored when ready records are claimed (`app/repositories/ark_repository.py:576`).
- TOMBSTONE is not absorbing: ownership reconciliation publishes the record again (`app/api/arks.py:545-548`).

Properties that turned out false as first stated, with the exact condition under which they hold:

- "Every CID handed to the chain client was stored and counted, and is sent under its submitter's name" holds for
  every single-ARK attempt. A pipeline item is read by two queries, and a PUT between them can tear it
  (`ProtocolExamples.TornItemIsSent`). At the second read it goes out rightly signed and qualified if and only if the
  record still has the authority and target it was selected with and is not at AVAILABILITY
  (`ProtocolItems.ItemSignedExactly`), so a check of these three would be exactly enough. It carries, besides, its
  record's own payload if and only if nobody PUT to the ARK between the reads (`ItemJustifiedExactly`). No row is ever
  published by mistake because of a torn item: the comparison at settlement still holds
  (`ProtocolTheorems.NoFalsePublished`).
- "A superseded payload is never sent under another authority's name" holds for every operation sent after the
  archiving if and only if every item that was by then read with another authority's record had been sent
  (`ProtocolItems.ResignedExactly`). `ProtocolExamples.SupersededIsResigned` is a run in which the authority that took
  the ARK back signs the payload it replaced; nothing read after the archiving can do that
  (`ProtocolItems.SupersededNeverResigned`).
- "processed = succeeded + failed and deferred is at most failed" holds for a cycle, finished or aborted, if and only
  if it is not the case that its first settlement that raises loses the connection before its item is counted: before
  the lock, at the release of a lock not taken, or at the commit or release as `LostBeforeCounted` lists them
  (`ChainCycle.CountersBalance`; `LostCommitUnbalances` is such a cycle). The worker loop never reads unbalanced
  counters, because only a finished cycle publishes them (`ChainPublishCycle.Valid`).
- "Every due row is selected by exactly one worker" holds if and only if the row is not COMPLETE. The
  unassigned-authority branch of the chain cycle does not look at the state again, so it can fail a completed row, and
  a retry then makes it ready with nothing left to do (`ProtocolTheorems.EveryDueRowHasOneQueue`,
  `ProtocolExamples.CompletedRowCanBecomeReady`).
- "A signed request is admitted at most once" holds if and only if its nonce is claimed before its timestamp leaves
  the window; freshness is checked earlier, when the headers arrive (`NonceAdmission.ReplayBoundary`).
- "Replacing one character is always detected" holds if and only if its position in the payload is not a multiple of
  29; exchanging two characters is detected if and only if their distance is not (`Noid.SubstitutionDetected`,
  `Noid.TranspositionDetected`; `SubstitutionUndetected` and `TranspositionUndetected` are minted names in which a
  wrong character and an exchange pass).
- "A remembered authorization is a yes of less than ttl ago" holds if and only if no yes is stored later than the
  registry gave it (or the cache bound is below one): the entry's age counts from its store. In general the yes is
  younger than ttl plus the longest time between an answer and its store (`AuthCache.AnswersYoungExactly`; in
  `StaleYesIsServed` a yes of 100 seconds ago is served with a ttl of 60).
- "A store keeps the authorization cache in age order" holds if and only if no entry after the key's place is older
  than now, which sequential use guarantees and two concurrent misses break (`AuthCache.StoreKeepsAgeOrder`,
  `ConcurrentStoreEvictsTheNewer`).
- "Repeating an error-free batch allocates nothing" holds if and only if every item carries a client id
  (`Reservation.RepeatIsFree`).
- "A positive answer is passed on" holds if and only if the cache bound is at least one
  (`AuthCache.UnavailableDespiteYes`).

## Model

| member | source | states |
|---|---|---|
| `ProtocolPreservation.StepKeepsInv` | app/workers/publisher.py:146-222 | the protocol invariant survives every step of every actor, in any order |
| `ProtocolPreservation.Reachable` | app/workers/publisher.py:366-545 | so it holds in every state of every run |
| `ProtocolPreservation.WorkRowOk` | app/repositories/ark_repository.py:683-743 | every worker commit leaves a row whose stage is backed by the recorded evidence |
| `ProtocolInvariant.WriteKeepsInv` | app/database/ark_locks.py:34-72 | a commit by one live session disturbs no other session's snapshot, even when lock keys collide |
| `ProtocolTheorems.MutualExclusion` | app/database/ark_locks.py:19-72 | at most one live session per lock key, for any hash |
| `ProtocolTheorems.OnlyTheHolderWrites` | app/database/ark_locks.py:34-72 | only the live holder of an ARK's lock changes its row, and rows are never removed |
| `ProtocolTheorems.ComparisonsSucceed` | app/workers/publisher.py:443-450 | the comparisons made after external I/O always succeed |
| `ProtocolTheorems.PublicationIntegrity` | app/workers/publisher.py:920-952 | when an operation is handed to the chain client its evidence exists: always for a single-ARK attempt, and for a pipeline item that carries its record's own payload, the store had accepted both documents, the record's counts for exactly these CIDs were at least publish_after, and signer and target are the submitter's |
| `ProtocolItems.ItemJustifiedExactly` | app/workers/publisher.py:1002-1029 | a pipeline item, whose record and metadata are read by two queries without the lock, is justified in that sense if and only if nobody PUT to the ARK between the two reads |
| `ProtocolItems.ItemSignedExactly` | app/workers/publisher.py:1002-1029 | at the second read: it goes out under its submitter's name and target with a qualified payload if and only if the record still has the authority and target it was selected with and is not at AVAILABILITY |
| `ProtocolExamples.TornItemIsSent` | app/workers/publisher.py:1002-1029 | a run from the initial state in which a takeover between the two reads makes the cycle send the new owner's uncounted payload to the old target under the old authority |
| `ProtocolTheorems.QualifiedWhenRecorded` | app/workers/publisher.py:443-474 | that evidence is only ever written by a session both of whose observed pins show at least publish_after replicas, together with the row that records both counts for exactly those CIDs |
| `ProtocolTheorems.NoFalsePublished` | app/workers/publisher.py:846-918 | every PUBLISHED row's exact target and CID have been on the chain, although the pipeline sends without the lock |
| `ProtocolTheorems.PurgeSafety` | app/workers/publisher.py:499-508 | a payload is missing only together with the other level, after publication and with both counts at the target |
| `ProtocolTheorems.PurgedWhenObserved` | app/workers/publisher.py:499-508 | a payload is purged only by a commit of a session both of whose observed pins show at least the target of replicas, on a PUBLISHED row at REPLICATION |
| `ProtocolTheorems.WorkersAdvanceOneStage` | app/workers/publisher.py:443-508 | a worker commit moves at most one stage forward and publishes exactly when it leaves CHAIN |
| `ProtocolTheorems.StatesAndStages` | app/repositories/ark_repository.py:683-793 | which public states, stages and statuses occur together; FAILED carries a non-retryable code |
| `ProtocolTheorems.EveryDueRowHasOneQueue` | app/repositories/ark_repository.py:528-565 | each queue selects a row exactly when it is due and at that queue's stage, and what it selects passes the worker's check: only a due COMPLETE row has no queue |
| `ProtocolExamples.CompletedRowCanBecomeReady` | app/workers/publisher.py:1038-1049 | a run from the initial state that ends with a due COMPLETE row that no worker selects |
| `ProtocolTheorems.Provenance` | app/api/arks.py:650-663 | every payload belongs to its submitter's row, and every operation that carries its record's own payload is sent under the submitter's name to the submitted target |
| `ProtocolItems.SupersededNeverResigned` | app/api/arks.py:524-559 | once a payload is archived no row carries it and no metadata read finds it; an operation on it is signed by its submitter, unless it is a torn one and its item was read before the archiving |
| `ProtocolItems.ResignedExactly` | app/workers/publisher.py:1002-1029 | after the archiving nothing is sent on that payload under another name, whatever happens, if and only if every item read with another authority's record had been sent |
| `ProtocolExamples.SupersededIsResigned` | app/workers/publisher.py:1002-1029 | a run from the initial state in which the authority that takes the ARK back signs the payload it replaced |
| `ProtocolTheorems.TakeOverArchives` | app/api/arks.py:524-559 | every change of a row's authority archives the old row and keeps nothing of its payload |
| `ProtocolTheorems.PutTakesOver` | app/api/arks.py:650-663 | an accepted PUT leaves the caller's payload only |
| `ProtocolTheorems.DeleteTakesOver` | app/api/arks.py:766-816 | a DELETE that took the record over leaves no payload |
| `ProtocolTheorems.PayloadRegeneratesCids` | app/workers/publisher.py:410-441 | from AVAILABILITY to REPLICATION the retained payload regenerates exactly the row's two CIDs |
| `ProtocolTheorems.RepairReturnsTheSameCid` | app/workers/publisher.py:410-441 | with a deterministic store a repair never reports another CID |
| `ProtocolTheorems.RetriedPersistenceAgrees` | app/workers/publisher.py:166-202 | whatever any earlier attempt on a submission had stored, even by a session long gone, the CIDs its row or a later attempt has are the same |
| `ProtocolTheorems.SettlementIsSound` | app/workers/publisher.py:846-918 | a settled item fails only on conclusive evidence or a revert, publishes when confirmed, keeps the attempt count otherwise, and does nothing unless authority, state, target, stage and CID are still those it was selected with |
| `ProtocolTheorems.HistoryGrows` | app/workers/publisher.py:996-1115 | submissions, archive, logs and rows are never lost |
| `Verdicts.IdentityMeaning` | app/workers/publisher.py:782-820 | the identity checks fail a row exactly on conclusive evidence, postpone it on unreadable evidence and pass otherwise |
| `Verdicts.FailureMeans` | app/workers/publisher.py:822-844 | which recorded failures fail the row and with which code, and which only postpone it |
| `Verdicts.ApplyMeans` | app/repositories/ark_repository.py:683-893 | field by field, the row a verdict leaves |
| `Verdicts.UnresolvedVerdict` | app/workers/publisher.py:871-918 | an outcome neither confirmed nor reverted fails the row exactly on conclusive evidence, publishes it when the chain shows exactly the submitted target and CID, and else defers it a minute with its attempts unchanged |
| `Verdicts.RevertedVerdict` | app/workers/publisher.py:822-844 | when a revert fails the row, when it is published and when it waits |
| `Verdicts.RevertText` | app/workers/publisher.py:904 | the text a revert is judged by: what the client said, else the worker's own sentence |
| `Verdicts.SingleVerdictMeaning` | app/workers/publisher.py:942-989 | exactly when a single-ARK attempt publishes, fails or waits |
| `ArkRepositories.ArkRepository.UpdateToDraft` | app/repositories/ark_repository.py:263-318 | compare-and-set from RESERVED to DRAFT |
| `ArkRepositories.ArkRepository.UpdateToUpdate` | app/repositories/ark_repository.py:616-658 | compare-and-set from PUBLISHED to UPDATE |
| `ArkRepositories.ArkRepository.UpdateToPublished` | app/repositories/ark_repository.py:683-743 | compare-and-set to PUBLISHED at stage REPLICATION |
| `ArkRepositories.ArkRepository.UpdateToTombstone` | app/repositories/ark_repository.py:745-793 | tombstoning cancels the job and keeps the stage |
| `ArkRepositories.ArkRepository.CreateOrUpdateMetadata` | app/repositories/ark_repository.py:320-369 | new content forgets CIDs and counts and restarts at METADATA |
| `ArkRepositories.ArkRepository.MarkProcessingFailed` | app/repositories/ark_repository.py:795-852 | the catalogue, not the caller, decides between FAILED and a wait |
| `ArkRow.MarkFailedMeans` | alembic/versions/0001_initial_schema.py:89-103 | which codes are final and which leave the row waiting, field by field |
| `ArkRepositories.ArkRepository.DeferProcessingRetry` | app/repositories/ark_repository.py:854-893 | a wait that consumes no attempt |
| `MetadataWorker.MetadataPersistenceWorker.Persist` | app/workers/publisher.py:146-222 | one persistence attempt, with every failure path |
| `MetadataWorker.PersistSucceeds` | app/workers/publisher.py:154-206 | an attempt succeeds if and only if the row is due and both CIDs are there or given by the store; the row then carries both, ready at AVAILABILITY |
| `MetadataWorker.PersistStores` | app/workers/publisher.py:166-184 | which documents the store is asked to keep, in which order |
| `MetadataWorker.PersistWaits` | app/workers/publisher.py:204-222 | a failed attempt never fails the row: it waits one minute, without losing an attempt if and only if an infrastructure problem stopped it |
| `ArkTypes.InfrastructureMeans` | app/workers/publisher.py:47-53 | which exceptions are infrastructure problems: by type, or by one of five words in any case |
| `ReplicationWorker.ReplicationReconciliationWorker.Reconcile` | app/workers/publisher.py:366-545 | one reconciliation: observe, repair, advance or purge, with its tally |
| `ReplicationWorker.AuditAdvances` | app/workers/publisher.py:443-508 | an attempt records exactly the replicas the two pins show; a row goes to the chain queue if and only if both show publish_after, and is completed and purged if and only if both show the target |
| `ReplicationWorker.AuditSchedules` | app/workers/publisher.py:465-536 | for what reason and how long a row that stays waits, and how its fruitless looks are counted |
| `ReplicationWorker.AuditRepairs` | app/workers/publisher.py:384-441 | what is stored again and when: exactly for a lost pin, when a repair is allowed and the payload is there; and exactly when an attempt is postponed |
| `ReplicationWorker.AuditPostpones` | app/workers/publisher.py:366-384 | on which rows an attempt is made, and that no failure but an unserved authority fails a row |
| `ReplicationWorker.TallyPartition` | app/workers/publisher.py:366-545 | each attempt is counted once, as skipped, failed, advanced or waiting, and purged only when advanced |
| `ChainWorker.ChainPublisherWorker.ReconcileFailedIdentity` | app/workers/publisher.py:782-820 | the identity checks as code, with the counters they move |
| `ChainWorker.ChainPublisherWorker.RecordFailure` | app/workers/publisher.py:822-844 | the failure path as code |
| `ChainWorker.ChainPublisherWorker.FinalizePipelineConfirmation` | app/workers/publisher.py:846-869 | a confirmation is applied exactly while the submitted payload is current |
| `ChainWorker.ChainPublisherWorker.HandlePipelineResult` | app/workers/publisher.py:871-918 | one pipeline result applied as its verdict says; true exactly when published |
| `ChainWorker.ChainPublisherWorker.PublishSingleArk` | app/workers/publisher.py:920-994 | the single-ARK attempt and the operation it sends |
| `ChainWorker.SendMeans` | app/workers/publisher.py:920-994 | for which rows what is sent in whose name, when the row is published, and what a failure leaves |
| `ArkApi.ArkMutations.ReconcileLocalOwner` | app/api/arks.py:524-559 | archive under the old authority, rewrite for the chain's owner, or change nothing |
| `Lifecycle.CurrentOwnerMeans` | app/middleware/authority_lifecycle.py:25-45 | the ownership check passes if and only if the caller is active, the chain names its wallet in any case of letters as owner, and the NAAN is granted, or the record is missing where that is allowed; and the status of each refusal |
| `Lifecycle.TakeOverMeans` | app/api/arks.py:524-559 | a record changes hands if and only if the chain says it is the caller's, and comes over without a payload |
| `Lifecycle.ImportMeans` | app/api/arks.py:590-650 | which ARKs without a row are imported, as what, and why others are refused |
| `Lifecycle.PutMeans` | app/api/arks.py:569-758 | which PUTs are accepted, a foreign caller's exactly when the chain names it as owner, and the row they leave |
| `Lifecycle.PutRefusals` | app/api/arks.py:569-758 | the status of a refused PUT |
| `Lifecycle.DeleteMeans` | app/api/arks.py:766-816 | which DELETEs are accepted, only the owner's at both checks, the tombstone they leave, and the status of a refusal |
| `Lifecycle.RetryMeans` | app/api/worker.py:322-356 | which rows a retry accepts, only those the caller still owns, and why others are refused |
| `ArkApi.ArkMutations.UpdateArkMetadata` | app/api/arks.py:569-758 | PUT: import, take over, stage; every rejection leaves everything as it was |
| `ArkApi.ArkMutations.DeleteArk` | app/api/arks.py:766-816 | DELETE: take over, verify ownership again, tombstone; a rejection leaves everything as it was |
| `ArkApi.ArkMutations.RetryFailedArks` | app/api/worker.py:322-356 | each distinct ARK of a retry request is decided on its own, with its outcome |
| `ArkApi.RetryAllEffect` | app/api/worker.py:322-356 | a retry changes exactly the failed rows of the caller that the chain still says are the caller's, or that were never sent there |
| `ArkApi.RetryOutcomeMeans` | app/api/worker.py:322-356 | the outcome reported for each ARK is accepted exactly for those |
| `ProcedureRuns.PersistIsARun` | app/workers/publisher.py:146-222 | the metadata worker's attempt is a run of the protocol that ends with exactly its row and the documents it stored |
| `ProcedureRuns.ReconcileIsARun` | app/workers/publisher.py:366-545 | so is the replication worker's reconciliation, with its repairs and the evidence it recorded |
| `ProcedureRuns.PublishSingleIsARun` | app/workers/publisher.py:920-994 | so is the single-ARK attempt, with the operation it sent |
| `ProcedureRuns.SettleIsARun` | app/workers/publisher.py:1080-1114 | so is settling a pipeline item selected at any time in the past |
| `ProcedureRuns.DropIsARun` | app/workers/publisher.py:1038-1049 | so is failing the row of an unassigned authority, whatever state it is in |
| `ProcedureRuns.PutIsARun` | app/api/arks.py:569-758 | so is an accepted PUT, with the archive entry and the PUT itself |
| `ProcedureRuns.DeleteIsARun` | app/api/arks.py:766-816 | so is an accepted DELETE, with its archive entry |
| `ProcedureRuns.RetryIsARun` | app/api/worker.py:322-356 | so is an accepted retry |
| `ArkLocks.ArkLock.Enter` | app/database/ark_locks.py:34-60 | the lock is taken exactly when nobody holds the key |
| `ArkLocks.ArkLock.Write` | app/database/ark_locks.py:41-48 | a statement that succeeds is made by the present holder; a lost connection is refused, not reopened |
| `ArkLocks.ArkLock.Exit` | app/database/ark_locks.py:61-72 | the connection given back holds no lock, and no other lock is touched |
| `ArkLocks.LockStepsAreTheServers` | app/database/ark_locks.py:34-72 | the lock steps of the protocol do to its lock map what the server does: acquire when free, and free exactly what the session held |
| `ArkLocks.GoodLockIsALiveSession` | app/database/ark_locks.py:34-72 | a lock acquired on a good connection is the live session of the protocol with that key |
| `ReplicationCycle.BacklogIsExact` | app/repositories/ark_repository.py:477-501 | the two backlog queries find exactly the outstanding persistence and first-pin work, each at its own moment |
| `ReplicationCycle.PromotionsWaitForBacklog` | app/workers/publisher.py:547-673 | if a cycle promotes, no METADATA and no AVAILABILITY work was READY or WAITING when its query ran, and every promoted CID is of a row due at REPLICATION and observed below the target |
| `ReplicationCycle.ReportBalances` | app/workers/publisher.py:635-660 | promotions stay within the budget, requested + deferred = candidates, and nothing is deferred while the budget lasts |
| `Seqs.EachInOneBatch` | app/workers/publisher.py:580-587 | each pending CID lies in exactly one batch |
| `Seqs.BatchesPartition` | app/workers/publisher.py:580-587 | batches are nonempty, within the limit, and together the pending CIDs in order |
| `ReplicationCycle.UnobservedMeansItsBatchFailed` | app/workers/publisher.py:583-599 | a failed batch leaves exactly its own CIDs unobserved |
| `ReplicationCycle.ObservedMeans` | app/workers/publisher.py:573-599 | a cycle goes by the last answer about a CID, else by what was remembered less than two seconds ago |
| `ReplicationCycle.SucceededAreCounted` | app/workers/publisher.py:582-589 | each answered batch is counted once, and no failed one |
| `ReplicationCycle.RememberedMeans` | app/workers/publisher.py:588-603 | what a cycle remembers |
| `ReplicationCycle.WindowKept` | app/workers/publisher.py:574-603 | over any run of cycles no CID is requested within two seconds of the last answer about it |
| `ReplicationCycle.BudgetInRange` | app/workers/publisher.py:309-326 | the promotion budget stays between its minimum and the batch size |
| `ReplicationCycle.BudgetMeans` | app/workers/publisher.py:309-326 | what one pressure sample does to the budget and to the count of low samples |
| `ReplicationCycle.PressureMeans` | app/workers/publisher.py:627-632 | pressure is the percentage of observed CIDs with something queued or being pinned |
| `ReplicationCycle.PageMeans` | app/workers/publisher.py:547-566 | first-pin work comes first, a backlog stops maintenance, and a maintenance page is bounded by the promotion budget |
| `ReplicationCycle.ThirdLowSampleRestores` | app/workers/publisher.py:309-326 | a high sample shrinks the budget to the minimum whatever came before, and only the third low sample after it restores the full budget |
| `ReplicationCycle.CandidatesMean` | app/workers/publisher.py:328-334 | candidates are exactly the CIDs observed below the target |
| `ReplicationCycle.ReplicationCycleWorker.UpdatePromotionBudget` | app/workers/publisher.py:309-326 | the budget update as code |
| `ReplicationCycle.ReplicationCycleWorker.Observe` | app/workers/publisher.py:573-603 | cached answers, batch requests and pruning as code |
| `ReplicationCycle.ReplicationCycleWorker.RunPublishCycle` | app/workers/publisher.py:547-696 | the cycle as code: page, observation, budget and promotion report |
| `ChainCycle.OperationsSignedBySubmitter` | app/workers/publisher.py:1054-1070 | operations go out in bounded pipelines signed by their record's authority, who is the submitter of the payload whenever it is the record's own |
| `Pipelines.PipelinesInOrder` | app/workers/publisher.py:1034-1056 | groups go out one after the other, the items of each in order |
| `Pipelines.PipelinesConserve` | app/workers/publisher.py:1034-1056 | the pipelines hold exactly the items of assigned authorities, each as often as selected |
| `Pipelines.OneVerdictEach` | app/workers/publisher.py:1084-1114 | while no settlement raises, every item of every pipeline gets exactly one verdict |
| `ChainCycle.CycleConserves` | app/workers/publisher.py:1034-1115 | the judged items are a prefix of the items of assigned authorities in sending order, and all of them when no settlement raises |
| `ChainCycle.CountersBalance` | app/workers/publisher.py:1084-1114 | for every cycle and however far it gets: processed = succeeded + failed and deferred at most failed, if and only if it is not the case that the first settlement that raises meets a connection lost before its item is counted |
| `ChainCycle.LostCommitUnbalances` | app/workers/publisher.py:1104-1114 | the unbalanced cycle: one item that is deferred and counted as deferred and whose commit is then lost |
| `ChainCycle.OutcomeIsTheRows` | app/workers/publisher.py:1094-1114 | what is counted is what happened to the row: succeeded if and only if published, deferred if and only if left waiting, lost otherwise |
| `ChainCycle.CountersCount` | app/workers/publisher.py:1084-1114 | the counters of a finished cycle count these outcomes |
| `ChainCycle.RefusedConserve` | app/workers/publisher.py:1038-1049 | the rows a cycle refuses are those of the items of authorities that are not served |
| `ChainCycle.SaturationExact` | app/main_worker.py:462-478 | after a finished cycle the saturation test is true exactly when the page was full, every authority was served, and every item's row was left waiting by its settlement |
| `ChainCycle.UnansweredNeverFails` | app/workers/publisher.py:1071-1093 | an item the client raised on or forgot fails only on conclusive evidence |
| `ChainCycle.ChainPublishCycle.SettlePipeline` | app/workers/publisher.py:1084-1114 | one verdict per item up to and including the first settlement that raises, counted |
| `ChainCycle.ChainPublishCycle.RunPublishCycle` | app/workers/publisher.py:1034-1115 | the cycle as nested loops, finished or cut short: pipelines, verdicts, refused items, counters; what the worker loop reads is always balanced |
| `Noid.EncodeCounter` | app/utils/noid.py:11-33 | the loop computes the padded base-29 numeral and refuses bad arguments |
| `Noid.DecodeEncode` | app/utils/noid.py:11-33 | decoding inverts encoding for every counter and length |
| `Noid.EncodeInjective` | app/utils/noid.py:11-33 | different counters have different encodings, also past the nominal length |
| `Noid.EncodedLength` | app/utils/noid.py:11-33 | the length is exactly the minimum if and only if the counter is below 29 to that power |
| `Noid.EncodedOrder` | app/utils/noid.py:11-33 | below it string order is numeric order |
| `Noid.SubstitutionDetected` | app/utils/noid.py:36-70 | a replaced stem character of another value is detected if and only if its position is no multiple of 29 |
| `Noid.SubstitutionUndetected` | app/utils/noid.py:44-70 | a minted name whose 29th payload character can be replaced unnoticed |
| `Noid.CheckdigitReplacementDetected` | app/utils/noid.py:44-70 | every replaced check digit is detected |
| `Noid.TranspositionDetected` | app/utils/noid.py:36-70 | two exchanged characters are detected if and only if their distance is no multiple of 29 |
| `Noid.AdjacentTranspositionDetected` | app/utils/noid.py:36-70 | in particular every exchange of neighbours |
| `Noid.TranspositionUndetected` | app/utils/noid.py:44-70 | a minted name in which two characters 29 places apart can be exchanged unnoticed |
| `Noid.MintedNameValidates` | app/utils/noid.py:73-87 | every minted name passes its own validation |
| `Noid.CheckdigitMeans` | app/utils/noid.py:36-52 | which check digit: the one at the sum of the characters' alphabet positions times their places, modulo 29 |
| `Noid.OutsideCountsNothing` | app/utils/noid.py:36-41 | a character outside the alphabet contributes nothing |
| `Noid.CheckdigitIgnoresCase` | app/utils/noid.py:50-52 | capitals and small letters make no difference |
| `Noid.PublishedExample` | app/utils/noid.py:44-52 | the check digit of 13030/xf93gt2 is q, as the Noid documentation says |
| `Noid.MintedNamesDiffer` | app/utils/noid.py:73-87 | different counters of a namespace mint different names |
| `Noid.MintedArksDiffer` | app/utils/noid.py:73-87 | nor do counters of different namespaces mint one ARK |
| `Reservation.NamespaceKeyInjective` | app/repositories/noid_counter_repository.py:26-29 | the key tells NAAN and shoulder apart |
| `Reservation.NoidCounterRepository.AllocateNext` | app/repositories/noid_counter_repository.py:55-86 | the stored value is returned and incremented, created at 0 |
| `Reservation.ReservationApi.ReserveArk` | app/api/arks.py:200-264 | the single retry loop equals the attempt specification |
| `Reservation.ReservationApi.ReserveItem` | app/api/arks.py:316-367 | so does the loop for one batch item |
| `Reservation.ReservationApi.BatchReserveArk` | app/api/arks.py:284-389 | the batch equals the item-by-item specification |
| `Reservation.AttemptsOutcome` | app/api/arks.py:200-264 | attempts keep the unique constraints, insert at most one row, and what they return answers the request |
| `Reservation.GivingUp` | app/api/arks.py:253-258 | giving up means that every one of the tried names was taken |
| `Reservation.EightNamesTaken` | app/api/arks.py:200-258 | the endpoints give up after eight names |
| `Reservation.ActiveMapMeans` | app/repositories/ark_repository.py:149-180 | the prefetch is the per-item lookup of the first active row |
| `Reservation.BatchPartition` | app/api/arks.py:303-389 | results and errors partition the items in order |
| `Reservation.AnswersStand` | app/api/arks.py:303-389 | each result is an untombstoned row of the caller with its item's id |
| `Reservation.EqualItemsEqualArks` | app/api/arks.py:303-340 | equal client ids get equal ARKs |
| `Reservation.RepeatedBatch` | app/api/arks.py:303-312 | repeating an error-free batch of identified items allocates nothing and returns the same ARKs |
| `Reservation.RepeatIsFree` | app/api/arks.py:303-312 | repeating an error-free batch allocates nothing if and only if every item carries a client id |
| `ReservationRuns.StepKeepsInv` | app/api/arks.py:200-389 | the invariant of interleaved reservations survives every step |
| `ReservationRuns.CounterUsedOnce` | app/repositories/noid_counter_repository.py:55-86 | over any interleaving, commit, rollback or crash no counter value is in two ARKs |
| `ReservationRuns.OneActiveRow` | app/database/models.py:180-188 | at most one untombstoned row per authority, NAAN and client item |
| `ReservationRuns.AllocationIsFresh` | app/repositories/noid_counter_repository.py:67-76 | an allocated value belongs to no row, committed or pending |
| `ReservationRuns.RetriesUseFreshCounters` | app/api/arks.py:240-252 | a request's successive values strictly increase |
| `ReservationRuns.CollisionsAreForeign` | app/api/arks.py:240-252 | a name collision is always with a row minted elsewhere |
| `ReservationProcedures.ReserveIsARun` | app/api/arks.py:200-264 | the single endpoint is a run of the concurrent model |
| `ReservationProcedures.BatchIsARun` | app/api/arks.py:284-389 | so is the batch endpoint, in one transaction |
| `NonceAdmission.ReadmittedOnlyAfterTheWindow` | app/middleware/signed_auth.py:47-65 | under any cleanup schedule a nonce is admitted again only after the earlier timestamp left the window |
| `NonceAdmission.AdmittedAtMostOnce` | app/middleware/signed_auth.py:82-113 | with check and claim at one instant no (authority, nonce, timestamp) is admitted twice |
| `NonceAdmission.ReplayBoundary` | app/middleware/signed_auth.py:82-113 | a repeated request can be admitted if and only if its claim comes after the window |
| `NonceAdmission.RowsExpireSoon` | app/middleware/signed_auth.py:112-113 | every stored nonce expires within twice the skew of its admission |
| `NonceAdmission.CleanupIsExact` | app/middleware/signed_auth.py:53-56 | right after an admission that cleaned up, the table is exactly the new nonce and the admitted ones still in the window |
| `NonceAdmission.KeysComeFromTheRegistry` | app/middleware/signed_auth.py:32-44 | over any interleaving a lookup returns only a key the registry gave for that authority to a lookup that missed, and never one idle for the cache's lifetime |
| `NonceAdmission.SignedAuth.ClaimNonce` | app/middleware/signed_auth.py:47-65 | cleanup at most once a minute, undone together with a refused insert |
| `NonceAdmission.SignedAuth.Renew` | app/middleware/signed_auth.py:114-119 | the key cache evicts at most one least recently used entry and keeps its bound |
| `NonceAdmission.SignedAuth.Authenticate` | app/middleware/signed_auth.py:68-120 | a request succeeds exactly when it is well formed, in the window, signed with the active key it names, and its nonce is unclaimed; what each refusal says; a refused one changes nothing |
| `AuthCache.AuthorizationCache.Get` | app/utils/auth_cache.py:46-77 | a lookup answers from an unexpired entry and drops an expired one |
| `AuthCache.AuthorizationCache.Set` | app/utils/auth_cache.py:79-101 | a store evicts the first entry of a full dictionary |
| `AuthCache.AuthorizationCache.CheckAuthorizationCached` | app/utils/auth_cache.py:137-179 | the cached check as code |
| `AuthCache.CheckMeans` | app/utils/auth_cache.py:160-179 | what a check answers: what is remembered, else what the source says; a failing source is never a no |
| `AuthCache.HitsComeFromTheSource` | app/utils/auth_cache.py:61-72 | whatever the interleaving of checks, a hit is the yes the source gave to a check of that key whose own lookup had missed, stored less than ttl ago |
| `AuthCache.AnswersYoungExactly` | app/utils/auth_cache.py:160-169 | every hit repeats a yes of less than ttl + slack ago if and only if every yes is stored within slack of its answer (or nothing is ever stored) |
| `AuthCache.StaleYesIsServed` | app/utils/auth_cache.py:160-169 | with a ttl of 60, a yes given at 0 and stored at 50 is served at 100 |
| `AuthCache.CheckIsItsEvents` | app/utils/auth_cache.py:137-179 | a check that nothing interrupts is its lookup, its answer and its store in the interleaved model |
| `AuthCache.NoComesFromTheSourceNow` | app/utils/auth_cache.py:156-169 | a no is what the source says now |
| `AuthCache.SizeBounded` | app/utils/auth_cache.py:92-101 | the dictionary never outgrows its bound |
| `AuthCache.UnavailableDespiteYes` | app/utils/auth_cache.py:92-101 | a yes becomes "unavailable" if and only if the bound is below one |
| `AuthCache.StoreKeepsAgeOrder` | app/utils/auth_cache.py:92-101 | exactly when a store keeps insertion order equal to age order |
| `AuthCache.SequentialUseEvictsTheOldest` | app/utils/auth_cache.py:137-179 | in sequential use the first entry is the oldest |
| `AuthCache.ConcurrentStoreEvictsTheNewer` | app/utils/auth_cache.py:92-101 | a concrete interleaving in which a newer entry is evicted before an older one |
| `ArkIdentifiers.ParseIsExact` | app/cli/import_arks.py:56-69 | an identifier is accepted if and only if it is one of the two spellings of a well-formed pair |
| `ArkIdentifiers.BadFormMeans` | app/cli/import_arks.py:56-69 | an identifier has no such form if and only if it can not be split into `ark:`, a NAAN without slash, and a name on one line |
| `ArkIdentifiers.RefusalMeans` | app/cli/import_arks.py:56-69 | why an identifier of the right form is refused |
| `ArkIdentifiers.CanonicalParses` | app/cli/import_arks.py:56-69 | the canonical form parses back to its pair |
| `CsvReader.ReadCsv` | app/cli/import_arks.py:82-128 | the reader classifies the first `limit` rows, or refuses missing columns |
| `CsvReader.RowClassified` | app/cli/import_arks.py:96-126 | a row is imported exactly when it is the first usable row of its ARK |
| `CsvReader.ReadPartition` | app/cli/import_arks.py:96-128 | imported and rejected rows partition the input; imported ARKs are distinct and canonical |
| `Importer.ImportTool.ImportRow` | app/cli/import_arks.py:254-352 | one row: resumed, reported, validated, created or failed, with its line and counter |
| `Importer.DecideMeans` | app/cli/import_arks.py:254-340 | what happens to a row, and which status is reported |
| `Importer.CountMeans` | app/cli/import_arks.py:254-352 | each row moves exactly one counter |
| `Importer.LinesMean` | app/cli/import_arks.py:254-352 | the line a row leaves in the checkpoint |
| `Importer.LoadedMeans` | app/cli/import_arks.py:131-144 | an ARK counts as done if and only if a line says so, and as its last such line says |
| `Importer.RecordedIsResumed` | app/cli/import_arks.py:254-262 | a recorded creation is left out by the next execution |
| `Importer.ImportTool.ImportRows` | app/cli/import_arks.py:217-356 | a whole run; a refused one touches nothing |
| `Importer.CountersSum` | app/cli/import_arks.py:230-356 | a completed run's counters sum to the number of input rows, whatever raised |
| `Importer.DryRunOnlyReports` | app/cli/import_arks.py:304-318 | without execution nothing is created |
| `Importer.LoadedIsTrue` | app/cli/import_arks.py:131-144 | a truthful checkpoint loads, and what it loads is on the chain |
| `Importer.RowKeepsWay` | app/cli/import_arks.py:254-340 | after any prefix of a row's effects the state is one an uninterrupted run passes through |
| `Importer.CrashResume` | app/cli/import_arks.py:228-356 | executions cut anywhere and repeated leave the chain of one uninterrupted run, and create no ARK twice |
| `Importer.CrashResumeDespiteFailures` | app/cli/import_arks.py:228-356 | the same when in the stopped executions any read fails and any creation raises, with or without effect, and only the last one meets a working client (rows of distinct ARKs, as the reader delivers them) |
| `Importer.TargetMeans` | app/cli/import_arks.py:262-340 | that chain is the old one plus each missing ARK with its row's URL |

## Left out

- Routing, request and response models, exception handlers, logging, command lines, notebooks and migrations: plumbing.
- The chain library, PostgreSQL, the Store API and the cluster: abstract replies, steps and tables.
- Ed25519, SHA-256, blake2b and key fingerprints: uninterpreted functions and predicates, no claim about their strength.
- Database failures other than a lost connection, and disk failures or torn lines while the checkpoint is written.
- Texts of errors, `updated_at`, `tombstoned_at` and the columns that only reports read.
- Widths of small-integer columns (attempts, replica counts): the model's numbers are unbounded.
- Unicode: lower-casing and stripping are modelled for ASCII text.
- `urlparse`: whether a URL is an absolute HTTP(S) URL is a parameter of the CSV reader.
- Media type normalisation and the optional check digit test of the API paths, which run before the modelled decisions.
- `max_retries` and exponential backoff: accepted by the code and not used.
- The counter fallback for other databases, and the unused `update_metadata_cids` and `update_draft_content`.
- Heartbeats, pid files, worker singletons, health, status and error reports, sleep and page-growth helpers.
- Thread pools inside a worker: attempts of one cycle are sessions of the transition system, which interleave freely.
- ReplicationCycle.UniqueCids: lists a page's CIDs in order of first occurrence where the code sorts them; batches may be cut elsewhere, the properties hold for every order.
- ReplicationCycle.ReplicationCycleWorker.RunPublishCycle: ends before the per-ARK reconciliations, which are ReplicationWorker; reporting counters are left out.
- ProcedureRuns.ReconcileIsARun: takes both clock readings of a reconciliation as arguments; the run has one step per external call, without interference.
- ReservationRuns.OneActiveRow: deletions and takeovers of other transactions are atomic steps there; their own locking is in Protocol.
- Reservation.ReservationApi.BatchReserveArk: errors other than unique violations end the item in the code and do not occur in the model.
- ChainCycle.ChainPublishCycle.RunPublishCycle: the row an item meets when it is settled is a parameter, since other processes may have changed it; the effect on that row is Verdicts.
