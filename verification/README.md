# Verification of the Brain-Eleven durable core

This project models the parts of Brain-Eleven whose correctness depends on a whole run rather than on
one call, and proves what they promise. Each part is a small group of modules.

**The durable capture queue** (`QueueDisk`, `QueueOperations`, `CaptureQueue`, `QueueInvariant`,
`QueueLegality`, `QueueOutcomes`, `QueueRecovery`, `QueueRepairs`, `QueueRuns`, `QueueLifecycle`,
`QueueStranding`). A disk is a map from (directory, job id) to a document, plus the ledger. Every operation
is a list of durable effects: write a document, rename it, append to the ledger. A crash is any prefix of that list, so a run is a sequence
of operations each cut anywhere. The class `CaptureQueue` performs the effects one at a time and is
proved against the functions; the theorems are about all runs with crashes. `QueueOutcomes` and
`QueueRepairs` say what every operation leaves behind, in terms of documents and records alone.

**The memory truth engine and the readers of its output** (`TruthModel`, `TruthCommit`, `TruthEngine`,
`TruthTracking`, `TruthProperties`, `TruthFingerprints`, `TruthRequests`, `TruthOutcomes`, `TruthReplay`,
`SupersessionChain`). Decisions of a batch are made on the snapshot and applied one by one to the changing
store. `TruthTracking` ties the partly updated store to the snapshot; the theorems are about every sequence
of calls. `TruthRequests` reads what a call will store off its request, before anything is decided, and
`TruthOutcomes` says what every record, receipt and report is afterwards.
`SupersessionChain` proves the chain walk of the authority policy and the unguarded walk of the lifecycle
tool on such stores.

**The context compiler** (`ContextModel`, `ContextPlanner`, `ContextChoose`, `ContextPlans`, `ContextRender`,
`ContextLines`, `ContextCompiler`, `ContextGuarantees`, `ContextOutcomes`, `ContextDrafts`). Drafts,
deduplication, the greedy planner under several budgets, the renderer with its exact size in bytes and the
line of every item, and the rebalance loop with the exact condition of every exit.

**Selection, thinning, merging and snapshots** (`RetrievalDecision`, `DecisionCoverage`, `DecisionReport`,
`DecisionReasons`, `ContextDensity`, `DensityCoverage`, `DensityOutcomes`, `RouterMerge`, `RouterOutcomes`,
`RouterSweep`, `BackupSnapshot`, `BackupOutcomes`, `EmbeddingCache`, `CacheRuns`). Critical needs from the
candidates to the thinned selection; the router's top-k merge; the backup's two-pass snapshot over files that
others replace at any instant; the shared embedding cache.

`Results`, `Ordering` and `KeyedSorting` hold the common types, sorting of a set by a key (one sorting per
set, so order independence is equality of functions of sets) and sums over sets.

Time, ids, hashes, the project registry, text escaping, the credential scan and text overlap are
parameters, so every statement holds for all of them.

## What the proofs found

- A crash in `requeue_dead_letters` between the document rewrite and the rename leaves a QUEUED document in
  the dead-letter directory that no later operation moves. `QueueStranding` proves that this state arises
  exactly there, lasts for ever, and is reachable.
- A supersession does not compare fingerprints, so two records can come to share one; and two candidates of one
  batch do not see each other, so two active records can come to hold one claim key. `TruthRequests` shows a call
  of each kind and gives the exact condition on the request and the store under which uniqueness survives.
- A critical need for the explicit words of a request is matched by no candidate, so it is never covered.
- The backfill of the decision engine can list one candidate both as selected and as omitted: exactly when a
  selected candidate leads two of the critical needs that the main loop left over. `DecisionReport` shows an input.
- Redundancy groups are formed inside one project but named by the fingerprint alone, so a claim that two
  projects each repeat is shown for one of them only. `ContextDrafts` gives the exact condition and an input.
- With a profile percentage, the planner never reports plain budget exhaustion.
- A published cache entry keeps its provenance until the cache is cleared, so a generator that embedded
  changed content of a published memory cannot save anything until then.
- A scope sweep drops no kept memory candidate exactly if no swept record known from the graph alone
  outranks a memory candidate; `RouterSweep` shows a sweep that replaces a match by such a record.
- Two equal passes of the backup are one instant if no source returns to an earlier value while they run;
  `BackupSnapshot` shows a run with such a return where they are not.

## Model

| member | source | states |
|---|---|---|
| `CaptureQueue.CaptureQueue.Enqueue` | scripts/capture_queue.py:397-422 | the disk, ledger and receipt after an enqueue are the ones its effect list gives; a known job is reported or its crash leftovers are closed, a full queue is refused |
| `CaptureQueue.CaptureQueue.ClaimNext` | scripts/capture_queue.py:424-454 | the oldest queued job by creation time and id is claimed through rewrite, rename and ledger record |
| `CaptureQueue.CaptureQueue.Renew` | scripts/capture_queue.py:456-464 | only a claimed or processing document in processing gets a new claim time |
| `CaptureQueue.CaptureQueue.StartProcessing` | scripts/capture_queue.py:466-482 | a claimed document becomes PROCESSING in place; every other status is refused |
| `CaptureQueue.CaptureQueue.Commit` | scripts/capture_queue.py:484-505 | commit rewrites, renames and acknowledges in that order; a document that is not claimed or being processed is refused |
| `CaptureQueue.CaptureQueue.RetryOrDeadLetter` | scripts/capture_queue.py:507-537 | a failed job goes back to queued or to dead-letter by its attempt count |
| `CaptureQueue.CaptureQueue.RequeueDeadLetters` | scripts/capture_queue.py:539-568 | the sweep over dead letters revives exactly those with a selected error code and no queued twin |
| `CaptureQueue.CaptureQueue.RecoverExpiredClaims` | scripts/capture_queue.py:570-619 | both recovery loops with the running set of acknowledgements and the repair count equal the functional sweep |
| `QueueOperations.RequeueStep` | scripts/capture_queue.py:553-565 | one more file of the sweep extends its effects; an error ends it |
| `QueueOperations.RecoverStep` | scripts/capture_queue.py:579-616 | one more file of a recovery loop extends its effects, count and acknowledgements |
| `QueueInvariant.LegalKeepsInv` | scripts/capture_queue.py:326-341 | every allowed single effect keeps one directory per job, the (directory, status) pairs and ledger agreement |
| `QueueInvariant.TransferLegal` | scripts/capture_queue.py:507-537 | rewrite, rename and ledger record in this order are legal after any prefix |
| `QueueLegality.ReconcileLegal` | scripts/capture_queue.py:366-395 | closing a commit never fails, ends in completed and acknowledged, and does nothing when nothing is left |
| `QueueLegality.EnqueueLegal` | scripts/capture_queue.py:397-422 | every effect of an enqueue is legal on every valid disk |
| `QueueLegality.ClaimLegal` | scripts/capture_queue.py:424-454 | a claim fails only on an empty queue, otherwise claims the oldest with exactly three legal effects |
| `QueueLegality.CommitLegal` | scripts/capture_queue.py:484-505 | every effect of a commit is legal on every valid disk |
| `QueueLegality.RetryLegal` | scripts/capture_queue.py:507-537 | every effect of a retry or dead-letter is legal on every valid disk |
| `QueueLegality.RequeueLegal` | scripts/capture_queue.py:539-568 | the dead-letter sweep is legal and fails only without error codes |
| `QueueRecovery.CompletedOneRecovers` | scripts/capture_queue.py:579-581 | one completed file: no error, settled after, untouched if settled before |
| `QueueRecovery.ProcessingOneRecovers` | scripts/capture_queue.py:582-616 | one processing file: no error, settled after, untouched if settled before |
| `QueueRecovery.RecoverySettles` | scripts/capture_queue.py:570-619 | from every valid disk recovery succeeds, every effect keeps every job's goal, and all jobs end settled |
| `QueueRecovery.RecoveryIsCrashIdempotent` | scripts/capture_queue.py:366-395 | recovery cut after any effect and run again ends in the same files and acknowledgements |
| `QueueRecovery.RecoveryIsAFixpoint` | scripts/capture_queue.py:570-619 | a further recovery changes nothing and returns 0 |
| `QueueRecovery.RecoveryClosesCommitsAndLeases` | scripts/capture_queue.py:577-616 | after recovery every committed job is in completed and acknowledged once; what is left in processing holds a live lease |
| `QueueRuns.EventLegal` | scripts/capture_queue.py:397-619 | every operation cut anywhere issues only legal effects |
| `QueueRuns.RunKeepsInv` | scripts/capture_queue.py:326-341 | the invariant holds after every run with crashes |
| `QueueRuns.PlacesAndStatuses` | scripts/capture_queue.py:326-341 | after every run each job is in one directory with one of the allowed statuses there |
| `QueueRuns.LedgerAgrees` | scripts/capture_queue.py:346-395 | after every run a job is acknowledged at most once, and only when its committed document is in completed |
| `QueueRuns.CommittedIsFinal` | scripts/capture_queue.py:484-505 | a job is never lost, and a committed document never changes in any continuation of a run |
| `QueueRuns.ReachableQueueRecovers` | scripts/capture_queue.py:570-619 | all recovery promises hold from every reachable disk |
| `QueueLifecycle.RequeueCut` | scripts/capture_queue.py:553-565 | a cut dead-letter sweep is whole revivals and the beginning of at most one more |
| `QueueLifecycle.AttemptBound` | scripts/capture_queue.py:438-450 | attempts never exceed the maximum plus the claims cut before their rename since the job was last queued |
| `QueueLifecycle.LifecycleBound` | scripts/capture_queue.py:466-537 | without crashes and dead-letter requeues a job changes status at most three times the maximum attempts |
| `QueueStranding.StrandedExactlyByCutRequeue` | scripts/capture_queue.py:558-563 | a job becomes stranded in dead-letter exactly by a requeue cut between rewrite and rename |
| `QueueStranding.StrandedForEver` | scripts/capture_queue.py:539-568 | no continuation of any run moves or changes a stranded job |
| `QueueStranding.StrandingIsReachable` | scripts/capture_queue.py:558-563 | a four-event run strands a job |
| `QueueOutcomes.CommitOutcome` | scripts/capture_queue.py:484-505 | on every valid disk a commit succeeds exactly for a claimed or processing document in processing; that document is then in completed, COMMITTED at this time, with its one acknowledgement, and no other job is touched; a refusal issues nothing |
| `QueueOutcomes.RetryOutcome` | scripts/capture_queue.py:507-537 | a held job goes to dead-letter exactly if the failure is final or its attempts are used up, else back to queued, with the code, time and record of either; anything else is refused without effect |
| `QueueOutcomes.StartOutcome` | scripts/capture_queue.py:466-482 | exactly a CLAIMED document becomes PROCESSING in place, with its time and one record |
| `QueueOutcomes.RenewOutcome` | scripts/capture_queue.py:456-464 | exactly a held document gets a new claim time and nothing else changes, not even the ledger |
| `QueueOutcomes.ClaimOutcome` | scripts/capture_queue.py:424-454 | the least queued job by creation time and id is claimed with one more attempt, or the queue is empty and nothing happens |
| `QueueOutcomes.EnqueueNew` | scripts/capture_queue.py:416-420 | an unseen event becomes the only document of its job with one record, unless the queue is full |
| `QueueOutcomes.EnqueueCollision` | scripts/capture_queue.py:403-408 | an event whose id belongs to another key is refused and changes nothing |
| `QueueOutcomes.EnqueueAgain` | scripts/capture_queue.py:403-415 | a repeated event is reported with the status of its job; a cut commit ends completed and acknowledged, every other document stays as it was |
| `QueueOutcomes.RequeueOutcome` | scripts/capture_queue.py:539-568 | the sweep revives exactly the dead letters with a selected code, in file-name order, with attempts back at zero, and returns exactly them |
| `QueueOutcomes.UnreadableIsRefused` | scripts/capture_queue.py:326-341 | on any disk an operation on a file that is not the document of its name is refused without effect |
| `QueueOutcomes.UnreadableStopsClaims` | scripts/capture_queue.py:424-437 | on any disk one such file among the queued stops every claim |
| `QueueOutcomes.UnreadableStopsSweeps` | scripts/capture_queue.py:553-557 | on any disk one such dead letter makes the sweep fail |
| `QueueRepairs.RecoveryOutcome` | scripts/capture_queue.py:570-619 | what recovery makes of every job of a valid disk: its directory, document and acknowledgement, by the status, lease and attempts it had |
| `QueueRepairs.RecoveryCountsRepairs` | scripts/capture_queue.py:570-619 | the returned number is the number of jobs that needed repair: cut commits and moves, and expired leases |
| `QueueRepairs.RecoveryRecordsRepairs` | scripts/capture_queue.py:570-619 | the ledger grows by exactly the records of these repairs, one each |
| `QueueRepairs.UnreadableStopsRecovery` | scripts/capture_queue.py:577-616 | on any disk recovery succeeds only if every completed and processing file is the document of its name |
| `QueueRepairs.ClosingRepairsCompleted` | scripts/capture_queue.py:366-395 | on any disk a completed document that still says claimed or processing is closed in place and keeps a commit time it has; without a claim time it is corrupt |
| `QueueRepairs.ClosingFinishesCommit` | scripts/capture_queue.py:366-395 | on any disk a committed document moves to completed and is acknowledged unless it is; without a commit time, or with another document there, it is refused without effect |
| `TruthEngine.MemoryTruthEngine.Preflight` | scripts/memory_truth.py:395-474 | the loop over the envelopes equals the functional preflight |
| `TruthEngine.MemoryTruthEngine.DecideOnSnapshot` | scripts/memory_truth.py:720-733 | all decisions of a batch are made on the store before it |
| `TruthEngine.MemoryTruthEngine.ApplyDecisions` | scripts/memory_truth.py:736-800 | the loop that changes records, seen keys and decisions equals the step-by-step application |
| `TruthEngine.MemoryTruthEngine.Transact` | scripts/memory_truth.py:704-810 | replay, revision check, decisions, application and receipt, with the revision bumped only on change |
| `TruthEngine.MemoryTruthEngine.ProcessBatch` | scripts/memory_truth.py:661-882 | the whole call with its statuses equals the function the theorems are about |
| `TruthTracking.EvaluationIsSound` | scripts/memory_truth.py:505-558 | a supersession names a present same-scope target and an unused successor id; an addition meets no equal fingerprint and no claim holder |
| `TruthTracking.DecisionsAreSound` | scripts/memory_truth.py:720-733 | the same for all decisions of a batch on its snapshot |
| `TruthTracking.SupersessionIsSound` | scripts/memory_truth.py:530-539 | a supersession leaves no other active holder of the claim key |
| `TruthTracking.CommitEvolves` | scripts/memory_truth.py:741-800 | however far a batch is applied, old records keep identity, new links lead to added records, added records are active and unlinked |
| `TruthTracking.PendingUnchanged` | scripts/memory_truth.py:741-800 | a decision not yet applied is still the one made on the snapshot |
| `TruthTracking.CommitAdds` | scripts/memory_truth.py:743-800 | the added part of the store is, in order, the records of the batch positions that add |
| `TruthProperties.CommitsKeepSupersessionSound` | scripts/memory_truth.py:743-755 | every sequence of calls keeps the supersession graph acyclic and without dangling links |
| `TruthProperties.CallKeepsIdsUnique` | scripts/memory_truth.py:583-625 | fresh and distinct successor ids keep record ids unique |
| `TruthProperties.CommitsStayInScope` | scripts/memory_truth.py:530-547 | links stay inside one scope over every sequence of calls with fresh ids |
| `TruthProperties.SupersededTargetsRetire` | scripts/memory_truth.py:743-755 | a superseded target is not active at any later point of the batch |
| `TruthProperties.AdditionMeetsNoHolder` | scripts/memory_truth.py:561-580 | after the batch no old active record holds the claim key of an added one |
| `TruthProperties.CallKeepsClaimsUnique` | scripts/memory_truth.py:561-580 | a batch with distinct claim keys keeps at most one active holder per scope and key |
| `TruthProperties.CommitsKeepClaimsUnique` | scripts/memory_truth.py:719-800 | the same over every sequence of such calls |
| `TruthFingerprints.SeenTracks` | scripts/memory_truth.py:737-800 | the running set of seen keys is that of the snapshot and of the additions so far |
| `TruthFingerprints.FingerprintsStayUniqueIff` | scripts/memory_truth.py:549-558 | a batch keeps fingerprints unique exactly if its successors have fingerprints unlike the store's and each other's |
| `TruthFingerprints.CommitsKeepFingerprintsUnique` | scripts/memory_truth.py:549-558 | calls without supersession always keep fingerprints unique |
| `TruthFingerprints.AdditionsAreReported` | scripts/memory_truth.py:765-800 | an addition is stored, or reported as a duplicate of a record that is in the store |
| `TruthFingerprints.RepeatsAreReported` | scripts/memory_truth.py:765-800 | the same for the result of a whole call |
| `TruthRequests.DecisionsForeseen` | scripts/memory_truth.py:395-558 | a candidate is decided as a supersession or an addition exactly if it is admitted and the store meets the guards of that operation |
| `TruthRequests.CallAppliesIff` | scripts/memory_truth.py:704-810 | a call applies its decisions exactly if it commits, its operation has no receipt yet, and schema and revision are the expected ones; otherwise no memory changes |
| `TruthRequests.CallKeepsFingerprintsUniqueIff` | scripts/memory_truth.py:505-558 | read off the request and the store: a call keeps (scope, fingerprint) pairs unique exactly if every candidate that will supersede brings a pair new to the store and the batch |
| `TruthRequests.CallKeepsClaimsUniqueIff` | scripts/memory_truth.py:561-580 | a call keeps one active holder per claim key exactly if no two candidates that it will store claim one key in one scope |
| `TruthRequests.DistinctCallsKeepUniqueness` | scripts/memory_truth.py:719-800 | over every sequence of calls that meet these conditions, ids, pairs and claim keys stay unique |
| `TruthRequests.RepetitionSharesAFingerprint` | scripts/memory_truth.py:530-539 | superseding one record by the text of another leaves two records with one fingerprint |
| `TruthRequests.CompetitionSharesAClaim` | scripts/memory_truth.py:720-733 | two additions of one batch that claim one key are both stored as active |
| `TruthReplay.CallsKeepReceipts` | scripts/memory_truth.py:801-807 | no sequence of calls changes a recorded receipt |
| `TruthReplay.ReceiptRemembers` | scripts/memory_truth.py:801-807 | a receipt holds the request, its provenance and the decisions returned |
| `TruthReplay.PreflightAgain` | scripts/memory_truth.py:395-474 | a candidate that passed preflight is later stopped only by a readable policy change |
| `TruthReplay.ReplayReturnsTheReceipt` | scripts/memory_truth.py:627-659 | after any intervening calls, with any expected revision and readable policy, the same request returns the recorded decisions and changes nothing |
| `TruthReplay.MismatchIsRejected` | scripts/memory_truth.py:647-658 | another request or provenance under the id changes nothing and is rejected |
| `TruthOutcomes.OldRecordsAfterCall` | scripts/memory_truth.py:741-764 | after a committing call an old record that no accepted supersession or resolution names is unchanged; the first record with a named id holds the status, link, resolver and note of the last decision on it |
| `TruthOutcomes.NewRecordsAfterCall` | scripts/memory_truth.py:743-800 | the added records are, in order, those of exactly the candidates that the request and the store foresee as stored, field by field |
| `TruthOutcomes.CallReports` | scripts/memory_truth.py:741-800 | each candidate is told what was done: superseded, resolved, stored under which id, or duplicate of which stored record |
| `TruthOutcomes.StoreAfterCall` | scripts/memory_truth.py:704-810 | the revision grows by one exactly if the call changed the memories or left a receipt, and a receipt is left exactly by an operation that turned no candidate away |
| `TruthOutcomes.ResultOfCall` | scripts/memory_truth.py:811-882 | a committing call returns its reports and its status says whether a candidate was turned away |
| `TruthOutcomes.PreviewOfCall` | scripts/memory_truth.py:862-882 | a call that does not commit changes nothing and returns the decisions it would act on |
| `TruthOutcomes.UnadmittedVerdict` | scripts/memory_truth.py:395-520 | a candidate that does not pass preflight and validation is rejected if its content, note or scope is unsafe, and kept for review if it is only not committed, not approved or without a target |
| `TruthOutcomes.RejectionNamesCause` | scripts/memory_truth.py:395-474 | a rejection names the first thing that is wrong with the text, the scope or the project of the candidate |
| `TruthOutcomes.DecisionsNoteTheRevision` | scripts/memory_truth.py:720-733 | every decision carries the revision of the snapshot, except a rejection for an unreadable registry |
| `TruthOutcomes.AdditionVerdict` | scripts/memory_truth.py:549-580 | an admitted addition that repeats or contradicts a record of its scope is judged by the first such record: duplicate, confirmation or conflict, with that record as target |
| `TruthOutcomes.LifecycleVerdict` | scripts/memory_truth.py:521-547 | a supersession, resolution or confirmation is judged by the first record with its target id: scope, lifecycle, successor, claim |
| `TruthOutcomes.UnknownTargetVerdict` | scripts/memory_truth.py:521-524 | a request about an id that no record has is kept for review |
| `TruthOutcomes.MutatedMeansChanged` | scripts/memory_truth.py:736-800 | the flag that decides about writing is set exactly if the memories differ |
| `SupersessionChain.Chain` | authority/policy.py:127-140 | the walk with its visited list equals the recursive chain |
| `SupersessionChain.ChainFailsIffRevisiting` | authority/policy.py:127-140 | the chain raises exactly when some walk from the start revisits an id |
| `SupersessionChain.AcyclicStoreChains` | authority/policy.py:127-140 | on an acyclic store the chain always returns |
| `SupersessionChain.CommitsNeverBreakAuthority` | authority/policy.py:157-170 | after any truth-engine calls authority resolution meets no cycle, no dangling link and, with fresh ids, no scope mismatch |
| `SupersessionChain.VerdictMeans` | authority/policy.py:157-175 | on any list of records each verdict is given exactly under its own condition: a circle, no link, a link to no record, to another scope, or to the successor |
| `SupersessionChain.LastRecordCounts` | authority/policy.py:127-140 | of several records with one id the last of the list is the one looked up |
| `SupersessionChain.LinksNeverReturn` | scripts/memory-lifecycle.py:129-158 | on an acyclic store following links never reaches a visited record |
| `SupersessionChain.MemoryLifecycle.TraceProvenance` | scripts/memory-lifecycle.py:129-158 | the unguarded walk ends and returns the whole chain without repeats |
| `ContextModel.FragmentSize` | context_compiler_v2/renderer.py:40-45 | an eligible fragment has at least 25 bytes besides id and text |
| `ContextChoose.Classify` | context_compiler_v2/planner.py:91-101 | drafts are eligible or omitted for lifecycle, history or credentials, in that order |
| `ContextChoose.Group` | context_compiler_v2/planner.py:56-62 | the table of redundancy groups holds exactly the grouped drafts |
| `ContextChoose.CloseGroup` | context_compiler_v2/planner.py:65-79 | the member least by status rank, tier and id wins, every other is omitted |
| `ContextChoose.Dedupe` | context_compiler_v2/planner.py:55-80 | what is kept is what no member of its group beats |
| `ContextChoose.SplitMandatory` | context_compiler_v2/planner.py:104-105 | mandatory and optional drafts and the mandatory cost |
| `ContextChoose.TakeOptional` | context_compiler_v2/planner.py:128-150 | the greedy loop equals the pass over all drafts, or stops with the reason of the first one left out |
| `ContextChoose.Choose` | context_compiler_v2/planner.py:83-155 | the planner returns the plan of the set of its drafts, on every exit |
| `ContextChoose.PlanIgnoresOrder` | context_compiler_v2/planner.py:83-155 | any permutation of the drafts gives the same plan |
| `ContextChoose.PlanPartitions` | context_compiler_v2/planner.py:128-155 | on the normal return selected and omitted partition the input |
| `ContextChoose.OverflowReports` | context_compiler_v2/planner.py:106-111 | mandatory overflow selects nothing and reports everything but the optional drafts |
| `ContextChoose.PlanIsMaximalWithinBudget` | context_compiler_v2/planner.py:104-150 | mandatory drafts are kept, every budget holds, and no omitted eligible draft would still fit |
| `ContextChoose.OneWinnerPerGroup` | context_compiler_v2/planner.py:65-73 | every group keeps exactly its least member |
| `ContextChoose.PassMaximal` | context_compiler_v2/planner.py:128-150 | a draft dropped on the way does not fit beside the final choice |
| `ContextChoose.PercentageHidesExhaustion` | context_compiler_v2/planner.py:140-144 | with a profile percentage no omission is reported as plain budget exhaustion |
| `ContextPlans.KeptMeans` | context_compiler_v2/planner.py:55-101 | a draft is kept exactly if its status, its history and its text allow it and it wins, by status, tier and id, against every such member of its group |
| `ContextPlans.ChosenExactly` | context_compiler_v2/planner.py:128-150 | an optional draft is selected exactly if it has room beside the selected ones that were offered before it, by wanted position, tier, status and id; otherwise it is reported with the limit it met |
| `ContextPlans.EarlyOmissionsAreReported` | context_compiler_v2/planner.py:91-103 | whatever is not kept is reported with the first reason that applies, on the overflow exit too |
| `ContextPlans.OverflowIsReported` | context_compiler_v2/planner.py:106-111 | when the mandatory drafts overflow the budget each of them is reported so and nothing is selected |
| `ContextPlans.RefusedExactly` | context_compiler_v2/planner.py:145-149 | the plan is refused exactly if the mandatory drafts fit, nothing may be left out, and the kept drafts do not all fit |
| `ContextPlans.PlanIsSorted` | context_compiler_v2/planner.py:151-155 | selected drafts are in order of tier and id, omissions in order of id, on every exit |
| `ContextPlanner.OptionalAccounts` | context_compiler_v2/planner.py:128-150 | the greedy pass puts every optional draft on exactly one side and spends what it takes |
| `ContextRender.RenderBundle` | context_compiler_v2/renderer.py:74-87 | the rendering is a function of the set of items |
| `ContextRender.BundleBytes` | context_compiler_v2/renderer.py:74-87 | the exact size: bare task, one line per item, an empty line and a name per section in use |
| `ContextRender.FramesArePaid` | context_compiler_v2/renderer.py:79-85 | the frames of the sections in use cost at most 118 bytes beyond two per item |
| `ContextRender.RenderingBound` | context_compiler_v2/tokenizer.py:27-40 | rendering costs at most the bare task, the item estimates and 40 tokens |
| `ContextLines.LinesOfBundle` | context_compiler_v2/renderer.py:74-87 | the context is the join of its lines: four at the head, two for each section in use, one for each item, two at the end |
| `ContextLines.HeadingStands` | context_compiler_v2/renderer.py:80-84 | where the empty line and the heading of every section in use stand |
| `ContextLines.ItemStands` | context_compiler_v2/renderer.py:84-85 | on which line every item stands: in its section, after those of lower tier or earlier id |
| `ContextCompiler.RedundancyGroups` | context_compiler_v2/utility.py:111-125 | candidates are grouped by project and nonempty fingerprint |
| `ContextCompiler.BuildDrafts` | context_compiler_v2/utility.py:127-150 | every candidate gets its draft; a group only if another candidate of its project shares the fingerprint |
| `ContextCompiler.DraftsAreMeasured` | context_compiler_v2/utility.py:133-149 | a draft costs the estimate of its own fragment, at least ten tokens when eligible |
| `ContextDrafts.DraftMeans` | context_compiler_v2/utility.py:127-150 | a draft keeps the id, status and text of its candidate, is mandatory exactly by its role or the upstream selection, and costs the estimate of the line that shows it |
| `ContextDrafts.TiersMean` | context_compiler_v2/utility.py:91-108 | which role is of which tier under which profile, tier by tier |
| `ContextDrafts.RolesMean` | context_compiler_v2/utility.py:70-88 | which candidates are conflicts, history, gaps or state |
| `ContextDrafts.MemoryRolesMean` | context_compiler_v2/utility.py:57-88 | which candidates get the roles of memories |
| `ContextDrafts.HeadingsMean` | context_compiler_v2/renderer.py:13-37 | which roles stand under which heading |
| `ContextDrafts.GroupsMean` | context_compiler_v2/utility.py:111-124 | two candidates are in one group exactly if they share a nonempty fingerprint and each is repeated within its own project |
| `ContextDrafts.OneOfAGroup` | context_compiler_v2/utility.py:111-124 | no delivered context shows two candidates of one group, even of two projects |
| `ContextDrafts.GivesWay` | context_compiler_v2/planner.py:65-79 | a candidate is dropped for a better one of its group, whatever the projects |
| `ContextDrafts.ProjectsMerge` | context_compiler_v2/utility.py:118-124 | a claim repeated in two projects is kept for the first of them only |
| `ContextCompiler.Costliest` | context_compiler_v2/compiler.py:301-303 | the removed draft is the greatest by tier, cost and id |
| `ContextCompiler.OneRound` | context_compiler_v2/compiler.py:225-303 | one round delivers, gives up, or moves one draft to the omissions |
| `ContextCompiler.FinalPass` | context_compiler_v2/compiler.py:221-313 | the bounded loop with all its exits equals the recursive rebalance |
| `ContextCompiler.Compile` | context_compiler_v2/compiler.py:160-313 | the result is the one the candidates and the request determine |
| `ContextCompiler.CompileResolution` | authority/models.py:255-257 | any candidates: those with a repeated id are refused by the contract of a resolution result, all others compile to the determined result |
| `ContextGuarantees.RebalanceConserves` | context_compiler_v2/compiler.py:221-313 | the rebalance keeps the partition and every mandatory draft |
| `ContextGuarantees.RemovalsAreNeeded` | context_compiler_v2/compiler.py:239-303 | with the last removed draft the rendering did not fit |
| `ContextOutcomes.FinalPassDecides` | context_compiler_v2/compiler.py:221-313 | when drafts may be left out the final pass delivers exactly if some selection within its rounds fits as rendered, and calls the mandatory drafts too large only if they alone do not fit and no round was missing |
| `ContextOutcomes.MandatorySuffices` | context_compiler_v2/compiler.py:239-303 | if the mandatory drafts fit as rendered and the rounds outnumber the optional ones, it delivers |
| `ContextOutcomes.StrictPassDecides` | context_compiler_v2/compiler.py:254-300 | when nothing may be left out it delivers exactly the whole selection, and a refusal says whether the mandatory drafts alone would fit |
| `ContextOutcomes.StayersGoLater` | context_compiler_v2/compiler.py:301-303 | what stays is mandatory or never greater by tier, cost and id than what went |
| `ContextOutcomes.EarlyExits` | context_compiler_v2/compiler.py:134-203 | each refusal before the final pass happens exactly under its own condition on the request and the candidates |
| `ContextOutcomes.LenientExits` | context_compiler_v2/compiler.py:205-313 | with omission allowed: when a compilation delivers, overflows as rendered or runs out of rounds |
| `ContextOutcomes.MandatoryContextIsDelivered` | context_compiler_v2/compiler.py:221-313 | mandatory context that fits is delivered whenever the rounds suffice for the optional items |
| `ContextOutcomes.StrictExits` | context_compiler_v2/compiler.py:205-300 | without omission: all kept context is delivered, or the refusal with its exact cause |
| `ContextOutcomes.DeliveredIsFullest` | context_compiler_v2/compiler.py:221-330 | a delivered context is the plan without its first few drafts by tier, cost and id, all of them reported, and no fuller one fitted |
| `ContextOutcomes.DeliveredWithinShares` | context_compiler_v2/compiler.py:180-185 | the optional items of a delivered context keep to the profile's share of the budget and its number of items |
| `ContextOutcomes.DeliveredMayBeShown` | context_compiler_v2/planner.py:91-101 | a delivered context shows no history that was not asked for and no text that looks like a credential |
| `ContextOutcomes.DeliveredStatus` | context_compiler_v2/compiler.py:330-334 | when a delivered context counts as degraded, empty or successful |
| `ContextOutcomes.PositionsMean` | context_compiler_v2/compiler.py:184 | an id is wanted where the selection names it last |
| `ContextOutcomes.BareText` | context_compiler_v2/renderer.py:74-87 | the text of a task without context |
| `ContextGuarantees.RoundsSuffice` | context_compiler_v2/compiler.py:225-303 | each removal frees ten tokens, so enough rounds always fit |
| `ContextGuarantees.CompiledIsSound` | context_compiler_v2/compiler.py:331-374 | a returned bundle fits both limits as rendered, partitions the candidates and holds all mandatory context |
| `ContextGuarantees.VerificationNeverFails` | context_compiler_v2/compiler.py:304-313 | with three bytes a token and four rebalance iterations the FAILED exit is unreachable |
| `ContextGuarantees.CompilationIsDetermined` | context_compiler_v2/compiler.py:160-313 | candidates and request determine the result on every exit |
| `DecisionCoverage.Classify` | retrieval_decision_v2/engine.py:342-373 | every eligible candidate is rejected, parked under each critical need it matches, or ranked |
| `DecisionCoverage.Select` | retrieval_decision_v2/engine.py:374-430 | ranking, main loop and backfill give the decision of the set of candidates |
| `DecisionCoverage.CriticalNeedsAreCovered` | retrieval_decision_v2/engine.py:342-430 | unless the selection is full, a critical need is covered exactly if a candidate that authority does not reject matches it |
| `DecisionCoverage.ExplicitNeedsStayOpen` | retrieval_decision_v2/engine.py:123-124 | a need of kind task is never covered |
| `DecisionReasons.VerdictMeans` | retrieval_decision_v2/engine.py:342-373 | over the scores: a candidate is refused by authority, irrelevant exactly below 35 percent of the best text score without a critical record, or ranked with the score of its words |
| `DecisionReasons.NeedMeans` | retrieval_decision_v2/engine.py:132-154 | which candidates match which kind of need |
| `DecisionReasons.OrderMeans` | retrieval_decision_v2/engine.py:374-375 | critical matches first, then the higher score, the higher retrieval score, the earlier id |
| `DecisionReasons.RefusedAreReported` | retrieval_decision_v2/engine.py:342-354 | what authority refuses is never selected and reported with its reason |
| `DecisionReasons.IrrelevantAreReported` | retrieval_decision_v2/engine.py:362-370 | an irrelevant candidate is reported so, or selected by backfill |
| `DecisionReasons.RelevantAreReported` | retrieval_decision_v2/engine.py:374-414 | a relevant candidate is selected, or reported as a repeated claim or for lack of room |
| `DecisionReasons.SelectionIsOrdered` | retrieval_decision_v2/engine.py:374-430 | what the main loop selects comes in its order, what the backfill adds comes after it |
| `DecisionReasons.RelevanceIsMonotone` | retrieval_decision_v2/engine.py:362-365 | of two allowed candidates without a critical record, if one is selected without backfill the one with at least its text score is not reported as irrelevant |
| `DecisionReasons.BestIsRelevant` | retrieval_decision_v2/engine.py:362-365 | the candidate with the best positive text score is never reported as irrelevant |
| `DecisionReasons.SelectedExactlyRelevant` | retrieval_decision_v2/engine.py:342-414 | with room for all and distinct claims, what is selected without backfill is exactly what reaches 35 percent of the best or names a critical record |
| `DecisionReasons.BackfillIsBest` | retrieval_decision_v2/engine.py:416-430 | a candidate comes back only for a critical need that the main loop left open, and as the best that the filter dropped for it |
| `DecisionReport.ClaimsRepeatOnlyForNeeds` | retrieval_decision_v2/engine.py:381-414 | a claim is selected again only with a critical need nothing before it covers |
| `DecisionReport.BothListsExactly` | retrieval_decision_v2/engine.py:416-430 | a selected candidate is also reported as omitted exactly if it heads the pools of two of the critical needs that the main loop left over |
| `DecisionReport.DistinctLeadersSeparate` | retrieval_decision_v2/engine.py:416-430 | a candidate that heads the pool of at most one critical need is on one list only |
| `DecisionReport.BothListsHappen` | retrieval_decision_v2/engine.py:416-430 | an input where it happens: one authoritative requirement without matching words, for the constraint and the state need |
| `ContextDensity.Normalize` | context_density_v2/engine.py:154-165 | the first item of each nonempty id stays, repeated ids are reported |
| `ContextDensity.Diversify` | context_density_v2/engine.py:192-208 | the loop that reorders after each choice equals the recursive pass |
| `ContextDensity.SelectDiverse` | context_density_v2/engine.py:167-215 | the mandatory pass, its failure, the diversity loop and the missing needs |
| `DensityCoverage.ThinningKeepsCriticalNeeds` | context_density_v2/engine.py:154-208 | a thinned selection carries exactly the critical needs that came in, within its limit, and loses no item silently |
| `DensityCoverage.ThinningFailsExactly` | context_density_v2/engine.py:167-182 | it fails exactly when more mandatory items than the limit, taken by score, group and id, are the first of their group or carry a need that none before them carries; so always with more groups than the limit, never within it |
| `DensityCoverage.CriticalNeedsSurvive` | context_density_v2/engine.py:154-208 | a critical need matched by a candidate survives both engines unless a limit is reached |
| `DensityOutcomes.ThinningTakesTurns` | context_density_v2/engine.py:167-208 | a thinned selection is the result of turns: the mandatory items by score, group and id, then at each turn the item worth most beside what is chosen; an item is left out exactly for lack of room or when its group is there and its needs are carried |
| `DensityOutcomes.MostSimilarMeans` | context_density_v2/engine.py:184-196 | the similarity that counts against an item is the greatest to any chosen one, full within a group |
| `BackupSnapshot.Vault.ReadPayloads` | scripts/memory_backup.py:559-588 | one pass over the sources, each looked at and read at its own instant |
| `BackupSnapshot.Vault.StableSnapshot` | scripts/memory_backup.py:604-629 | at most three attempts of two passes with their errors |
| `BackupSnapshot.PassHeld` | scripts/memory_backup.py:559-595 | every value of a pass was the source's value at an instant of the pass |
| `BackupSnapshot.StableAttemptIsInstant` | scripts/memory_backup.py:609-624 | an equal pair of passes returns the files as they were between them, if no source returns to an earlier value while the passes run |
| `BackupSnapshot.SnapshotsAreInstants` | scripts/memory_backup.py:604-629 | the same for the whole run with its retries |
| `BackupSnapshot.ReportedChangesAreReal` | scripts/memory_backup.py:597-629 | a reported source really changed during the run; churn is reported after the third attempt |
| `BackupSnapshot.QuietSourcesAreCaptured` | scripts/memory_backup.py:606-624 | without writers the first attempt returns the files |
| `BackupOutcomes.PassMeans` | scripts/memory_backup.py:559-595 | a pass that is read holds the canonical store and validates; otherwise the store was absent at an instant of the pass or what was read does not validate |
| `BackupOutcomes.SnapshotDecides` | scripts/memory_backup.py:604-629 | a run returns the equal passes, both read, valid and in time, of the first attempt without two different ones; it is never stable on a late or unread pass, goes on after a changed pair, and reports exactly the sources that differed |
| `BackupOutcomes.EqualPassesAreReturned` | scripts/memory_backup.py:609-624 | the first attempt that reads two equal passes in time is the one returned |
| `BackupSnapshot.ReturningSourcesCanMix` | scripts/memory_backup.py:606-624 | sources that return to earlier values can yield files that never existed together |
| `EmbeddingCache.EmbeddingGenerator.Merge` | scripts/embedding-generator.py:260-278 | the merge loop fails exactly on an incompatible entry, otherwise keeps the least serialised form |
| `EmbeddingCache.EmbeddingGenerator.Save` | scripts/embedding-generator.py:295-330 | publishing merges all dirty entries or changes nothing |
| `EmbeddingCache.EmbeddingGenerator.Clear` | scripts/embedding-generator.py:394-403 | clearing empties file and memory or restores both |
| `EmbeddingCache.EmbeddingGenerator.Refresh` | scripts/embedding-generator.py:405-410 | a reload happens exactly when another signature is on disk |
| `EmbeddingCache.SavePublishesAll` | scripts/embedding-generator.py:295-330 | after a save the file holds every id it held and every changed one, each with the merged entry under a new signature; memory, base and file are equal, and nothing is left to publish |
| `EmbeddingCache.SaveFailsExactly` | scripts/embedding-generator.py:260-278 | a save fails exactly on an unwritable file or on two provenances of one id, and then changes nothing |
| `EmbeddingCache.ClearEmpties` | scripts/embedding-generator.py:394-403 | a clear leaves an empty file and an empty, synchronised memory, or nothing changed |
| `EmbeddingCache.RefreshFollowsFile` | scripts/embedding-generator.py:405-410 | a refresh takes over the file exactly if its signature is another one |
| `EmbeddingCache.PublicationOrder` | scripts/embedding-generator.py:260-278 | two publications commute exactly unless both suit the file and only they disagree |
| `CacheRuns.EntriesHaveSources` | scripts/embedding-generator.py:228-241 | over every run a published entry was on disk, unpublished in some memory, or put during the run |
| `CacheRuns.ClearedEntriesStayAway` | scripts/embedding-generator.py:394-403 | after a clear an entry returns only from another's unpublished work or a new put |
| `CacheRuns.UnpublishedIsOwn` | scripts/embedding-generator.py:228-241 | what a generator has not published it has put itself since it last loaded, saved or cleared |
| `CacheRuns.ClearedEntriesWerePut` | scripts/embedding-generator.py:394-403 | whatever is in the file after a clear was put after it, or before it by a generator that has not loaded, saved or cleared since |
| `CacheRuns.StaleWritersPublishOwnWork` | scripts/embedding-generator.py:228-241 | whatever is in the cache at any time after a clear was published by a generator as its own addition or change, never from the snapshot it had loaded |
| `CacheRuns.ProvenanceIsFrozen` | scripts/embedding-generator.py:260-278 | until a clear a published id stays with its provenance |
| `CacheRuns.ChangedContentBlocksSaving` | scripts/embedding-generator.py:260-278 | a generator with changed content of a published id cannot save before a clear |
| `RouterMerge.FirstHitDecides` | context_router/router.py:96-102 | of the hits with one id the first gives source and record; hits that agree are left as they are |
| `RouterMerge.MergeById` | context_router/router.py:96-105 | the table joins queries, signals and the best score of each id under the record of its first hit |
| `RouterMerge.Top` | context_router/router.py:116-118 | the first places of a bucket are the candidates with fewer betters than places |
| `RouterMerge.Normalize` | context_router/router.py:95-119 | for any hits the result is the sorted set of candidates within their bucket's places; beyond the first hit of each id their order does not matter |
| `RouterMerge.PlaceIsBetterCount` | context_router/router.py:116-118 | a place in a sorted bucket is the number of better candidates |
| `RouterOutcomes.ReturnedExactly` | context_router/router.py:95-119 | a candidate is returned exactly if the hits describe it and fewer of its bucket outscore it, by score and id, than the bucket has places |
| `RouterOutcomes.ReturnedInOrder` | context_router/router.py:119 | the result is by descending score, then source, then id, and names no id twice |
| `RouterSweep.EvidenceOutscoresTheSweep` | context_router/adapters.py:79-133 | every match but a sweep scores at least twice the sweep |
| `RouterSweep.BetterMatchesScoreHigher` | context_router/adapters.py:79-133 | more matched terms and a younger record never lower a score, and nothing outscores a direct id |
| `RouterSweep.FullMatches` | context_router/adapters.py:79-133 | what a full match of each strategy scores |
| `RouterSweep.SweepsDropNothingExactly` | context_router/router.py:377-392 | a sweep drops no kept memory candidate under any budget exactly if it displaces none |
| `RouterSweep.SweepsDropNoEvidence` | context_router/router.py:377-392 | in particular when no swept record is known from the graph alone |
| `RouterSweep.SweepCanDrop` | context_router/router.py:377-392 | with one place, a sweep over a graph-only record and a domain match drops the match |
| `Ordering.SortingUnique` | context_compiler_v2/planner.py:104-127 | a set has one sorting by a strict order, which makes the sorts order-independent |
| `KeyedSorting.SortBy` | context_compiler_v2/planner.py:124-127 | sorting by a key is a function of the set of elements |

## Left out

- Files, fsync, temporary names, permissions, JSON text, torn ledger lines and the queue's lock: a write, a rename and a ledger append are single steps, and operations exclude one another.
- The syntax check of job ids, the validation of hook events and the times stored in ledger records.
- There is no owner token in the queue, so nothing is claimed about two workers holding one lease.
- Candidate normalisation from mappings, operation-id syntax, raw scope labels and legacy record ids in the truth engine.
- Status edits by the search API and by the lifecycle tool's own supersede command, which do not check for cycles.
- The blocker and duplicate-group overlays of metadata resolution, whose outcome depends on item order.
- ContextChoose.Choose: takes drafts with distinct candidate ids, which is all it is ever given: a resolution result refuses repeated ids (authority/models.py:255-257).
- ContextCompiler.Compile: takes candidates with distinct ids, as a resolution result holds them; `CompileResolution` has no such condition and makes that check.
- The compiler's cache, upstream validation, staleness checks, the comparison of selection references with their sources, warnings and sections; an estimator that answers differently on the same text.
- The eligibility filters, authority coverage checks and reason codes in front of the decision engine's ranking; scores are counted in millionths and half a millionth is rounded down.
- The density engine's metrics; word overlap is a parameter.
- Links, file identity checks and payload validation of backup sources; a read returns the content of one instant.
- A cache file that is not valid JSON, and entries without provenance.
- The router's queries, planning and graph expansion; times of day in recency scores.
- REST, command lines, installers, hooks, search and chat.
