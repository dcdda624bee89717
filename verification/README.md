# Verified core of the live-recording analysis service

This project models the state machines and algorithms that the analysis side of
the service rests on and proves what they keep. It is checked with
`dafny verify dfyconfig.toml`.

- **Offline evaluation** (`IntervalMatching`): precision and recall of
  recommended clips are computed from a one-to-one matching of predicted and
  reference intervals. The breadth-first augmenting-path matcher is proved to
  return a maximum matching, by a deficiency certificate: the predictions that
  failed searches have discovered only reach references that are matched among
  themselves, and no later augmentation touches them.
- **Durable request budget** (`ModelJournal`, `ModelExecution`,
  `DurableOperation`, `DurableRecords`, `StructuredCall`): several executors share
  a settings table, crash and reopen. The journal and budget objects are proved against
  step functions; every interleaving of those steps is then shown to number
  requests once, to stay within the grant, to fence stale executors, to grant
  every one-shot allowance at most once, and to make the ending of a request
  final. The retry loop that spends the allowances has a termination measure and
  a bound on what it sends; each of its passes, resends and fallbacks to the next
  provider is tied to what came back.
- **Hotspots** (`RecordingCoverage`, `HotspotForest`, `HotspotLifecycle`,
  `HotspotHistory`): rows that merge become aliases in a forest with path compression. Reconciliation is
  proved to keep the forest, the session boundaries, the bounds and scores of
  everything merged, and the rows that an operator has dismissed or used.
- **Reference kernels** (`ClusterGroups`, `EditDistance`): union-find with path
  halving computes the connected components; the two-row recurrence computes the
  cost of a cheapest edit script.
- **Media snapshot** (`MediaSnapshot`): when a cached window of segment rows
  answers exactly as a fresh read would.
- **Shared resources** (`ClientTable`, `ModelPool`): leases, retirement and
  closing of network clients; exclusive use, reuse and cleaning of loaded models.
- **Run-level algorithms** (`Reanalysis`, `TimeRanges`, `RangeNormalization`,
  `ServiceRestart`, `AnalysisProbes`): the request queue with conditional
  deletion, merging of recorded ranges against their validators, the restart
  budget, and the choice of separated probe points.

Classes hold the fields that the source updates in place; each of their methods
equates the new state with a function of the old one, and the lemmas are about
those functions. Tables are maps, a database session is one atomic step, and
every answer of a provider, clock reading, cancellation and storage fault is an
input. `Weather` is what the environment does to one write: nothing, a storage
error before or after the commit became durable, or an exception of the guard.

`Wrappers`, `Reals` and `Sorting` hold what the modules share.

Some expected properties do not hold of the code as they are usually put. Each
has a concrete input and an if-and-only-if that says when it does hold:

- The live request count of an executor equals the stored count after a finished
  request exactly when no other request of the operation was registered since its
  own (`OvertakenCountFallsBehind`, `CountsAgreeOverRun`).
- A reanalysis request can be dropped: when its session has lost its segments by
  the time of the run (`SegmentlessRunDropsRequest`), or when a later request of
  the same session has the very text that the deletion expects
  (`EqualTextLosesRequest`). These are the only ways: a run loses no request if and
  only if none of its deletions takes a row in one of these two situations
  (`RunLosesExactlyWhen`). Time stamps make texts distinct
  (`DistinctStampsAreFresh`), and then only a deletion after a run without segments
  drops a request (`DroppedExactlyWhen`, `NoRequestIsLost`).
- The semantic confidence of a hotspot root can fall below that of a row merged
  into it: storing an explanation overwrites it, with zero when no explanation was
  made (`FallbackLowersSemantic`). Bounds, heat, coverage and the detector's clip
  score never fall (`RunKeepsRow`), reconciliations never lower the confidence
  (`EvolvesTransitive`), and a row's confidence falls at a step exactly when the
  step stores a less confident explanation for it (`SemanticFallsExactlyWhen`).
- The root that an accepted hotspot observation has reached can stop spanning it:
  a frozen root takes no observation, and clearing its candidate away thaws it
  (`DetachmentForgets`). This is the only way (`RunForgetsExactlyWhen`).
- An empty range is accepted by the media snapshot although no window contains
  its point (`EmptyRangeIsAccepted`, `Covers`).

Two more properties depend on the rows of the segment table. For rows that end
after they start both hold as they are usually put (`SweepIsExact`,
`OrderedRowsAreFaithful`), and every writer of such rows that the repository shows
refuses the others (`app/recording/recorder.py:1201`,
`app/recording/recovery.py:115`, `app/recording/imports.py:235`). The table itself
does not forbid them, so the conditions are given for every table:

- The coverage sweep judges every range rightly if and only if no segment lets it
  jump over the start of a long gap (`SweepIsExactExactlyWhen`); an inverted segment
  can (`InvertedSegmentIsMisjudged`).
- A covered range is judged as a fresh read would if and only if no row of zero
  length or inverted order that it needs lies outside every window
  (`SnapshotIsFaithfulExactlyWhen`); a row on a seam does (`SeamRowIsMissed`).

## Model

| member | source | states |
|---|---|---|
| IntervalMatching.Iou | app/analysis/editorial_evaluation.py:241-243 | lies in [0, 1], is 1 exactly for equal ranges, and is positive exactly when the ranges share an interior point |
| IntervalMatching.IouIsRatio | app/analysis/editorial_evaluation.py:241-243 | for ranges with a common interior point the ratio times the length of what either covers is the length of what both cover |
| IntervalMatching.BuildEdges | app/analysis/editorial_evaluation.py:248 | the edge lists hold exactly the pairs whose overlap ratio reaches the threshold |
| IntervalMatching.FindAugmentingPath | app/analysis/editorial_evaluation.py:250-263 | the search ends with a parent chain to an unmatched reference, or everything it discovered, start included, has all its neighbours matched inside the discovered set |
| IntervalMatching.Augment | app/analysis/editorial_evaluation.py:264-267 | flipping the chain keeps a matching, matches exactly one more prediction (the start), and leaves every saturated set saturated |
| IntervalMatching.DeficiencyBound | app/analysis/editorial_evaluation.py:246-268 | a saturated set that holds every unmatched prediction certifies that no matching is larger |
| IntervalMatching.MaximumMatching | app/analysis/editorial_evaluation.py:249-267 | the loop ends with a matching and such a set |
| IntervalMatching.MatchIntervals | app/analysis/editorial_evaluation.py:246-268 | the pairs are in lexicographic order, one-to-one, all reach the threshold, and no other such set of pairs is larger, for all inputs |
| EditDistance.DistanceBoundsScripts | scripts/benchmark_cpu_kernels.py:82-94 | no script of keeps, substitutions, insertions and deletions from one string to the other costs less than the recurrence |
| EditDistance.BestScript | scripts/benchmark_cpu_kernels.py:82-94 | some script costs exactly what the recurrence says |
| EditDistance.DistanceSymmetric | scripts/benchmark_cpu_kernels.py:84-85 | swapping the strings keeps the distance, so the swap by length is sound |
| EditDistance.NextRow | scripts/benchmark_cpu_kernels.py:89-93 | one pass turns the row of a prefix into the row of the next prefix |
| EditDistance.EditDistance | scripts/benchmark_cpu_kernels.py:82-94 | the result is the cost of a cheapest edit script, in both directions |
| ClusterGroups.HalveKeepsForest | scripts/benchmark_cpu_kernels.py:48-52 | one halving step keeps the forest and every representative and strictly lowers the rank of the walker |
| ClusterGroups.Find | scripts/benchmark_cpu_kernels.py:48-52 | terminates, returns the root that the parent links led to, and changes the root of no element |
| ClusterGroups.Union | scripts/benchmark_cpu_kernels.py:54-57 | joins exactly the two classes and keeps a forest |
| ClusterGroups.LinkPairs | scripts/benchmark_cpu_kernels.py:45-62 | afterwards two elements share a root exactly when a walk over pairs that reach the threshold connects them |
| ClusterGroups.CollectClusters | scripts/benchmark_cpu_kernels.py:63-66 | the dictionary holds every class with ascending members, its keys in the order of first members |
| ClusterGroups.MeanSimilarity | scripts/benchmark_cpu_kernels.py:71-78 | the mean times the number of pairs is the sum over all pairs of the class |
| ClusterGroups.ClusterGroups | scripts/benchmark_cpu_kernels.py:43-79 | the groups are exactly the connected components of two members or more, once each, in order, with ascending members and the mean over all their pairs |
| ModelJournal.ModelRequestJournal.OpenOperation | app/analysis/model_journal.py:93-131 | the loop over the stored records and the write agree with `Opened` for every table and every fault |
| ModelJournal.ModelRequestJournal.SaveOperation | app/analysis/model_journal.py:133-140 | replaces the stored operation only while it decodes to the remembered one |
| ModelJournal.ModelRequestJournal.SaveAllowances | app/analysis/model_journal.py:142-180 | new state of journal and table for every fault; a refused write makes the journal fail for good |
| ModelJournal.ModelRequestJournal.Start | app/analysis/model_journal.py:182-228 | registers the record and the new count together or neither |
| ModelJournal.ModelRequestJournal.Update | app/analysis/model_journal.py:230-243 | a receipt or an ending changes one unfinished record, its state and reported usage, and nothing else |
| ModelJournal.ModelRequestJournal.SaveSearch | app/analysis/model_journal.py:245-252 | search evidence joins a record of a search that has its receipt; anything else fails the journal |
| ModelExecution.ModelCallBudget.ClaimRepair | app/analysis/model_execution.py:225-237 | one repair per operation, or one per content hash; denied when held or interrupted, and marked locally before it is stored |
| ModelExecution.ModelCallBudget.ClaimContext | app/analysis/model_execution.py:239-245 | same for the context allowance |
| ModelExecution.ModelCallBudget.ClaimEmptyRetry | app/analysis/model_execution.py:247-253 | same for the empty retry |
| ModelExecution.ModelCallBudget.ClaimTransportRetry | app/analysis/model_execution.py:255-262 | same for a connection, endpoint and model |
| ModelExecution.ModelCallBudget.Protocol | app/analysis/model_execution.py:264-270 | a route keeps the protocol of its first use |
| ModelExecution.ModelCallBudget.DowngradeProtocol | app/analysis/model_execution.py:272-279 | moves one step down from schema over object to text and is denied at text |
| ModelExecution.DowngradeGoesOneStep | app/analysis/model_execution.py:272-279 | a granted downgrade leads from schema, also when the route is new, to object and from anything else to text, on this route alone; it is denied exactly at text |
| ModelExecution.ModelCallBudget.StartRequest | app/analysis/model_execution.py:184-207 | registers the number after the live count |
| ModelExecution.ModelCallBudget.RequestReceipt | app/analysis/model_execution.py:209-212 | stores a receipt for the request under way |
| ModelExecution.ModelCallBudget.SaveSearch | app/analysis/model_execution.py:214-219 | stores the evidence of the search under way |
| ModelExecution.ModelCallBudget.Record | app/analysis/model_execution.py:176-182 | counts the attempt even when its ending cannot be stored |
| DurableOperation.SaveKeeps | app/analysis/model_journal.py:133-167 | a save keeps the table numbered and only grows it; success shows that the executor was current |
| DurableOperation.RegisterRequest | app/analysis/model_journal.py:182-228 | adding number k + 1 to an operation that has k keeps every operation numbered 1..k |
| DurableOperation.ClaimKeeps | app/analysis/model_execution.py:225-262 | a granted allowance was held by nobody in the table before and is held afterwards |
| DurableOperation.DowngradeKeeps | app/analysis/model_execution.py:264-279 | negotiation and downgrade keep the invariant and never move a stored protocol up |
| DurableOperation.NextKeeps | app/analysis/model_journal.py:93-284 | every step of every executor, a crash included, keeps the invariant and only grows the table |
| DurableOperation.RequestsAreNumberedOnce | app/analysis/model_journal.py:182-228 | over every run the records of an operation are numbered exactly 1..k, no number is sent twice, and k stays within the grant |
| DurableOperation.LaterRowsExtendEarlier | app/analysis/model_journal.py:142-167 | over every run allowances and records only grow, protocols only move down, grants never change and finished records are final |
| DurableOperation.AllowancesAreGrantedOnce | app/analysis/model_execution.py:225-262 | over every run an allowance of an operation is granted at most once, across restarts and concurrent holders |
| DurableOperation.OpenSucceedsExactlyWhen | app/analysis/model_journal.py:93-131 | when an operation can be opened, and that reopening resumes the stored state instead of granting anew |
| DurableOperation.DamagedOperationIsRefused | app/analysis/model_journal.py:103-129 | a missing or foreign record, or records without their operation, refuse the opening and change nothing |
| DurableOperation.FailedJournalStops | app/analysis/model_journal.py:169-180 | after one failed write no start, receipt, ending or claim writes or succeeds |
| DurableOperation.StartSucceedsExactlyWhen | app/analysis/model_journal.py:182-228 | the exact condition under which an executor of a run registers its next request |
| DurableOperation.RegistersExactlyWhen | app/analysis/model_journal.py:182-228 | the exact condition under which a start registers its request, also when the storage failed after the commit and the executor never hears of it |
| DurableOperation.StaleExecutorIsFenced | app/analysis/model_journal.py:133-140 | an executor whose remembered state differs from the stored one registers nothing |
| DurableOperation.CountsAgreeExactlyWhen | app/analysis/model_execution.py:99-107 | after a recorded ending the live count equals the stored one exactly when the next number is not registered yet |
| DurableOperation.StepCounts | app/analysis/model_journal.py:93-284 | every step of every executor adds one to the stored count of an operation when it registers a request of it and otherwise leaves the count alone |
| DurableOperation.CountsAgreeOverRun | app/analysis/model_execution.py:99-107 | from a successful send to its recorded ending, whatever others do in between, the live count ends equal to the stored one if and only if no request of the operation was registered in between |
| DurableOperation.OvertakenCountFallsBehind | app/analysis/model_execution.py:176-182 | five concrete steps after which the live count is 1 and the stored one 2 |
| DurableRecords.WaitingIsUnended | app/analysis/model_journal.py:182-284 | over every run, whoever waits for a request waits alone, and its record is there without an ending |
| DurableRecords.RegistrationIsKept | app/analysis/model_journal.py:182-228 | a registered request is stored as it was given, unconfirmed and without usage or evidence, until its executor reports on it |
| DurableRecords.ReceiptIsKept | app/analysis/model_journal.py:230-243 | over every run a receipt of a waiting executor is stored with its usage unless the journal has failed or the storage fails before the commit, changes nothing else, and stays until that executor's next receipt or ending |
| DurableRecords.EvidenceIsKept | app/analysis/model_journal.py:245-252 | evidence is stored exactly for a search that has its receipt, and stays through the ending and after it until its executor stores other evidence |
| DurableRecords.EndingIsFinal | app/analysis/model_journal.py:254-284 | over every run the ending of a waiting executor makes the record finished with the reported usage, under the same condition, and the record is the same ever after |
| DurableRecords.EndedIsRefused | app/analysis/model_journal.py:276-284 | at any later time a receipt, evidence or a second ending for that number is refused and changes nothing |
| DurableRecords.OpenResumes | app/analysis/model_journal.py:93-131 | a new executor starts from the stored limit, deadline, count and allowances of its operation |
| DurableRecords.ClaimSucceedsExactlyWhen | app/analysis/model_execution.py:225-262 | an allowance is granted exactly when it is not held, nothing stops the call, a request is left, and the executor is current with a working journal and storage |
| DurableRecords.TermsAreKept | app/analysis/model_journal.py:93-131 | along every run each executor of an operation has the deadline and the limit the operation was created with |
| StructuredCall.Attempt | app/analysis/llm.py:1270-1428 | sends at most one request and counts it, fixes the protocol of its route and spends no allowance; an answer that validates in time and is stored is what it returns, a failure is that of the reply, and nothing else is raised but storage faults and exceptions of the caller |
| StructuredCall.Judge | app/analysis/llm.py:1341-1363 | a value results exactly when the answer validates before cancellation and deadline; an invalid answer, a late one and a failed reply are reported as such |
| StructuredCall.WaitTransportRetry | app/analysis/llm.py:939-957 | resends exactly when the delay ends before the deadline, the retry was unspent, nothing stops the call at the claim or after the wait, a request is left and the claim was stored; the retry is spent exactly when it was claimed |
| StructuredCall.NegotiateRetry | app/analysis/llm.py:1545-1565 | another round spends exactly what answers the failure: one step of the protocol, the repair or the empty retry; giving up spends nothing and means that it is gone or no request is left |
| StructuredCall.RunPass | app/analysis/llm.py:1494-1565 | a request is sent only within the daily budget, authorized, in time and of fitting size; a pass repeats exactly by a resend or by spending what answers its failure, and every end has its cause: a valid answer, a failed check, a final failure, or a failure with no resend and nothing left for it |
| StructuredCall.BlockedMeans | app/analysis/llm.py:1494-1507 | the checks let a request through only uncancelled, before the deadline, within the daily budget, authorized and with a request left; otherwise the code names a check that failed |
| StructuredCall.RunRoute | app/analysis/llm.py:1476-1567 | the passes of a route chain into each other, start without a repair and stop once; it terminates for every sequence of outcomes and sends at most four requests plus what it takes from the shared repair and empty retry |
| StructuredCall.SearchContext | app/analysis/model_search.py:43-159 | a search spends at most one request, none when none remains or a check fails, and no allowance; it succeeds only with found and stored sources, and a failure is that of a check, of the service or of the storage |
| StructuredCall.CallStructured | app/analysis/llm.py:1440-1568 | terminates; k routes send at most 4k + 2 requests and never more than remain; every route before the last one tried was given up, whatever it failed with, and does not search; a given-up result is that of the last route or of one that searches, with nothing left for it |
| StructuredCall.ValidAnswerIsReturned | app/analysis/llm.py:1476-1568 | a request of any route that was sent, got a valid answer in time and could be stored is the last of the call, and its answer is returned |
| StructuredCall.ValueIsAnswer | app/analysis/llm.py:1537-1539 | a returned value is the valid answer, in time, of the last request sent |
| StructuredCall.FailureFallsThrough | app/analysis/llm.py:1565-1568 | every failure but an interruption, a spent budget or a missing authorization leads on to the next route: only the last route, a route that searches or a search returns it |
| RecordingCoverage.RecordingIsContiguous | app/analysis/hotspot_lifecycle.py:421-455 | the loop decides what the recursive sweep decides |
| RecordingCoverage.SweepIsExactExactlyWhen | app/analysis/hotspot_lifecycle.py:435-455 | for every sorted list, all ranges are judged rightly (no stretch longer than the tolerance is free of recording; within the tolerance, a segment comes near the start) if and only if no long gap begins between a segment's start less the tolerance and its end |
| RecordingCoverage.SweepIsExact | app/analysis/hotspot_lifecycle.py:435-455 | so every sorted list of ordered segments, or ones inverted by at least the tolerance, is judged rightly on every range |
| RecordingCoverage.InvertedSegmentIsMisjudged | app/analysis/hotspot_lifecycle.py:443-454 | one inverted segment makes the sweep accept a range in which nothing is recorded |
| HotspotForest.CompressedKeeps | app/analysis/hotspot_lifecycle.py:176-180 | pointing aliases at their root changes no root, no fact and no invariant |
| HotspotForest.RootUpdatedKeeps | app/analysis/hotspot_lifecycle.py:233-278 | widening a live root keeps the forest and everything it contains |
| HotspotForest.CreatedKeeps | app/db/hotspot_store.py:51-104 | a new row is its own root and disturbs no other |
| HotspotForest.AbsorbedKeeps | app/analysis/hotspot_lifecycle.py:281-324 | making one live root an alias of another keeps the forest acyclic and inside its session and the merged bounds and scores contained |
| HotspotForest.ReassessedKeeps | app/analysis/clip_scorer.py:432-455 | changing event-level scores, confidences and candidates changes no root, no bound and no detector score and keeps the invariant |
| HotspotForest.EvolvesTransitive | app/analysis/hotspot_lifecycle.py:74-154 | over any number of reconciliation steps rows that once shared a root share it for good, identity is kept, merged rows stay merged, frozen rows are untouched, and neither a row nor its root loses semantic confidence |
| HotspotLifecycle.MergePayloadJoins | app/analysis/hotspot_lifecycle.py:233-278 | the merged row is the least one above both in bounds, scores and semantic confidence, and well formed; its strength is the greater of the two, and its peak is that of the stronger, the stored one on a tie |
| HotspotLifecycle.MergedStatusMeaning | app/analysis/hotspot_lifecycle.py:337-355 | the merged status is symmetric, and confirmed exactly when both are or a confirmed row already spans the other |
| HotspotLifecycle.StuckNeverResolves | app/analysis/hotspot_lifecycle.py:162-173 | a walk that repeats an alias or meets a missing or foreign target has no root at all |
| HotspotLifecycle.GapMeaning | app/analysis/hotspot_lifecycle.py:585-595 | the gap of two rows is at most a distance exactly when some moments of them are that close |
| HotspotLifecycle.OverlapMeaning | app/analysis/hotspot_lifecycle.py:598-608 | the overlap is positive exactly when the rows share an interior moment |
| HotspotLifecycle.ShouldMergeMeaning | app/analysis/hotspot_lifecycle.py:202-230 | where the sweep is right, two rows should merge exactly when they come within the gap, no stretch between their outer ends longer than the tolerance is unrecorded, and they share an interior moment or are related |
| HotspotLifecycle.HotspotTable.GetOrCreate | app/db/hotspot_store.py:17-111 | finds the row of a key in its session or creates it; a rejected call changes nothing |
| HotspotLifecycle.HotspotTable.Resolve | app/analysis/hotspot_lifecycle.py:157-181 | terminates on every table, returns the root or fails exactly when there is none, and leaves every traversed alias pointing at the root |
| HotspotLifecycle.HotspotTable.MergeEventInto | app/analysis/hotspot_lifecycle.py:281-324 | rows of two sessions are refused unchanged; otherwise the canonical row becomes the merge of both, the source its alias, and the roots of all rows follow |
| HotspotLifecycle.HotspotTable.MergeCandidates | app/analysis/hotspot_lifecycle.py:184-230 | exactly the other live rows of the session, not in use, that come within the gap of the root over unbroken recording and share an interior moment with it or are related |
| HotspotLifecycle.HotspotTable.MergeGroup | app/analysis/hotspot_lifecycle.py:121-129 | the group is the root and exactly the rows that join it in this sense; the earliest of them, by id among equals, is kept and is the fold of all of them; nothing else changes |
| HotspotLifecycle.HotspotTable.ObserveInto | app/analysis/hotspot_lifecycle.py:117-119 | the observation widens the root, which goes back to enriching when an old row is extended |
| HotspotLifecycle.HotspotTable.ReconcilePayload | app/analysis/hotspot_lifecycle.py:90-137 | a frozen root is returned unchanged; otherwise the payload's row leads to a live root that spans the payload |
| HotspotLifecycle.HotspotTable.ConfirmStable | app/analysis/hotspot_lifecycle.py:358-390 | exactly the pending rows of the session without candidate that ended long enough ago are confirmed, and no other field changes |
| HotspotLifecycle.PendingRowsWait | app/analysis/hotspot_lifecycle.py:358-380 | a live pending row is confirmed exactly when confirming is forced or the observation has come the delay past its end |
| HotspotLifecycle.HotspotTable.Reconcile | app/analysis/hotspot_lifecycle.py:74-154 | every table evolves; a rejected call changes nothing; every returned id shares with its payload's row a root that spans the payload or is frozen |
| HotspotLifecycle.StaysReached | app/analysis/hotspot_lifecycle.py:131-137 | a returned id keeps resolving to such a root under every further reconciliation, also when it has become an alias |
| HotspotLifecycle.RootToday | app/analysis/hotspot_lifecycle.py:281-324 | an old root leads to a root that spans it, which is itself unless it has been merged |
| HotspotLifecycle.HotspotTable.Evaluate | app/pipeline/workers/analyze.py:1090-1155 | a confirmed row with the expected candidate gets its event-level score, the confidence of the explanation that came along, and perhaps a candidate, and keeps the detector's score; other rows are left alone |
| HotspotLifecycle.HotspotTable.Explain | app/analysis/event_enricher.py:501-599 | the root of a row takes the confidence of the explanation, whatever it was, unless it is dismissed; nothing else changes but targets of aliases |
| HotspotLifecycle.HotspotTable.Detach | app/analysis/reanalysis.py:259-267 | exactly the rows of the candidate lose their link |
| HotspotHistory.RunSteps | app/analysis/hotspot_lifecycle.py:74-154 | any sequence of reconciliations, first and repeated evaluations, explanations and detachments passes through tables that keep the invariant and differ from step to step exactly as each step says |
| HotspotHistory.RunKeepsRow | app/analysis/hotspot_lifecycle.py:74-154 | between any two points of a run no row is lost, merged rows stay merged, and every row leads to a well-formed root that spans the bounds, heat, coverage and detector's clip score of it and of its old root |
| HotspotHistory.SemanticFallsExactlyWhen | app/analysis/event_enricher.py:594 | a row loses semantic confidence at a step if and only if the step stores a less confident explanation for it |
| HotspotHistory.SemanticFallNeedsExplanation | app/analysis/hotspot_lifecycle.py:251-254 | along any stretch of a run without such a step the confidence of a row never falls |
| HotspotHistory.FallbackLowersSemantic | app/analysis/event_enricher.py:478-487 | an evaluation with a fallback explanation leaves a root less confident than a row merged into it |
| HotspotHistory.RunKeepsFrozen | app/analysis/hotspot_lifecycle.py:112-116 | until its candidate is cleared away a dismissed or linked row keeps its bounds, peak, detector scores, status and candidate, and it keeps everything while no step rates or explains the row itself |
| HotspotHistory.LinkFreezesUntilRelease | app/pipeline/workers/analyze.py:1152 | an evaluation that links a row fixes its status, bounds, peak and strength until that candidate is cleared away |
| HotspotHistory.ReachedIsSpanned | app/analysis/hotspot_lifecycle.py:131-137 | an id that a reconciliation returns leads to a root that spans its payload or is frozen |
| HotspotHistory.StepForgetsExactlyWhen | app/analysis/reanalysis.py:259-267 | an id stops leading to a root that spans its payload or is frozen if and only if the step clears away the candidate of its root and the root, not dismissed, does not span the payload |
| HotspotHistory.RunForgetsExactlyWhen | app/analysis/hotspot_lifecycle.py:112-137 | along a run a returned id always leads to a root that spans its payload or is frozen if and only if no step is of this kind |
| HotspotHistory.DetachmentForgets | app/analysis/reanalysis.py:259-267 | a linked row that took no longer observation no longer accounts for it once its candidate is cleared away |
| HotspotHistory.RootPeakIsStrongest | app/analysis/hotspot_lifecycle.py:233-278 | along any run from an empty table the root that a payload reached takes its peak from an observation whose row leads to this root and whose strength the root has; unless the root is frozen this is at least the payload's strength |
| MediaSnapshot.LoadSnapshot | app/analysis/editorial_review_sources.py:188-201 | the batched queries load exactly the rows that some condition asks for, once each and by id |
| MediaSnapshot.SweepExact | app/analysis/editorial_review_sources.py:110-122 | the sorted sweep accepts exactly when the closed windows cover every point |
| MediaSnapshot.Covers | app/analysis/editorial_review_sources.py:105-122 | true exactly for whole sessions, covered non-empty ranges, and empty ranges with a window that starts in time |
| MediaSnapshot.Matches | app/analysis/editorial_review_sources.py:124-141 | covered, and the rows selected now equal those selected at snapshot time |
| MediaSnapshot.NeededRowIsLoadedExactlyWhen | app/analysis/editorial_review_sources.py:55-72 | in a covered range a needed row was loaded exactly when it is untimed, of positive length, or inside one window |
| MediaSnapshot.SnapshotIsFaithfulExactlyWhen | app/analysis/editorial_review_sources.py:105-141 | the snapshot answers every later state of the table as a fresh read would if and only if no needed row is degenerate outside all windows |
| MediaSnapshot.OrderedRowsAreFaithful | app/analysis/editorial_review_sources.py:105-141 | so a table whose timed rows end after they start is always judged as a fresh read would |
| MediaSnapshot.SeamRowIsMissed | app/analysis/editorial_review_sources.py:55-68 | an instantaneous row on the seam of two windows is needed but not loaded |
| MediaSnapshot.EmptyRangeIsAccepted | app/analysis/editorial_review_sources.py:110-122 | an empty range is accepted although no window contains its point |
| ClientTable.InstalledSafe | app/analysis/llm.py:264-272 | replacing the clients of a connection keeps every client in exactly one place and one cached client per connection |
| ClientTable.NextSafe | app/analysis/llm.py:217-297 | every step of every thread keeps the invariant |
| ClientTable.RunIsSafe | app/analysis/llm.py:461-498 | in every interleaving a client is closed at most once, never while leased, and is always exactly one of cached, retired, being closed or closed |
| ClientTable.AcquiredServesRequest | app/analysis/llm.py:238-272 | a call gets an open client of its connection, endpoint and credential, leased once more |
| ClientTable.EqualCredentialReuses | app/analysis/llm.py:238-272 | a cached client of equal credential is taken with nothing else changed, and only without one is a new client built |
| ClientTable.ClientIsShared | app/analysis/llm.py:238-272 | two calls of one key and credential share a client, whatever other connections, releases and closes come between them |
| ClientTable.Clients.Acquire | app/analysis/llm.py:227-272 | reuse, creation and lease change the tables as the step says |
| ClientTable.Clients.Evict | app/analysis/llm.py:264-270 | the loop takes out exactly the clients of the connection: used ones retired, the others closed |
| ClientTable.Clients.Release | app/analysis/llm.py:487-497 | only the last lease of a retired client hands it over to be closed |
| ClientTable.Clients.CloseClients | app/analysis/llm.py:282-293 | every cached client is retired while used and otherwise returned to be closed |
| ModelPool.ModelPool.Enter | app/analysis/model_pool.py:57-84 | waits while the role is full; otherwise the first fitting idle entry or a new one is active for this call |
| ModelPool.ModelPool.Leave | app/analysis/model_pool.py:98-104 | the entry goes idle, and one without a model is removed by equality of fields |
| ModelPool.ModelPool.CleanupIdle | app/analysis/model_pool.py:107-131 | forced, every idle entry goes; otherwise idle entries of retired settings go, and of the others exactly those whose role is not kept loaded and whose last use is a positive timeout or more ago; the number that went is reported |
| ModelPool.ModelPool.Use | app/analysis/model_pool.py:54-105 | one whole call enters, loads if its entry is empty, leaves and cleans by exactly these steps, and keeps the invariant also when its loader fails |
| ModelPool.EnteredServesRequest | app/analysis/model_pool.py:57-84 | a call enters exactly when its role is below the limit, with an entry of what it asked for that nobody used; a new one only when no idle entry fits |
| ModelPool.RemovesItself | app/analysis/model_pool.py:102-103 | removing by equality hits exactly the leaving entry |
| ModelPool.FailedLoadLeavesNothing | app/analysis/model_pool.py:86-104 | a failed load takes away its own entry and no other |
| ModelPool.CleaningDropsExactly | app/analysis/model_pool.py:107-131 | the same for one entry, in these terms; an active entry is never dropped, although fields are compared |
| ModelPool.IdleSinceLastLeave | app/analysis/model_pool.py:98-104 | in every run a listed idle entry was left by its last user at the time it remembers, and has been idle ever since |
| ModelPool.UnloadedExactlyWhen | app/analysis/model_pool.py:115-131 | along every run an idle entry of current settings whose role is not kept loaded is dropped exactly when the timeout has passed since its last user left |
| ModelPool.LoadedEntryStays | app/analysis/model_pool.py:98-104 | a call with a model leaves its entry listed, idle and loaded, and touches no other |
| ModelPool.ReachableIsSafe | app/analysis/model_pool.py:54-131 | in every reachable state no model has two users, no role exceeds the limit of its last admission, and every idle entry holds a model |
| Reanalysis.ReanalysisTable.RequestReanalysis | app/analysis/reanalysis.py:136-192 | which requests are refused, declined or stored, and that stored flags join those still waiting |
| Reanalysis.ReanalysisTable.DeletePending | app/analysis/reanalysis.py:366-368 | a row goes only while it holds the expected text |
| Reanalysis.ReanalysisTable.ProcessPending | app/analysis/reanalysis.py:195-256 | one pass over the rows read, with requests arriving before and after every run, takes steps of the model and reports exactly the sessions whose runs completed |
| Reanalysis.DeletedRequestIsHandled | app/analysis/reanalysis.py:366-368 | with distinct texts, whatever a conditional deletion takes away was read, flags included, by the run that deletes it |
| Reanalysis.NoRequestIsLost | app/analysis/reanalysis.py:136-256 | in every interleaving with distinct texts in which sessions keep their segments, an accepted request still waits with its flags or a run that read it with its flags completed |
| Reanalysis.DistinctStampsAreFresh | app/analysis/reanalysis.py:155-164 | distinct time stamps make the texts distinct |
| Reanalysis.EveryRequestIsAccounted | app/analysis/reanalysis.py:195-256 | along every run with distinct texts an accepted request waits, was served, or was read only by runs that found no segments |
| Reanalysis.DroppedExactlyWhen | app/analysis/reanalysis.py:225-228 | along every run with distinct texts an event drops a request if and only if it deletes the row of its session after a run that found no segments, and the request was not served |
| Reanalysis.LossIsExact | app/analysis/reanalysis.py:366-368 | with any texts, a deletion loses a request if and only if the row still holds the text it expects and some unserved request of the session came after the row was read, or the run found no segments |
| Reanalysis.RunLosesExactlyWhen | app/analysis/reanalysis.py:195-256 | along every run, whatever the texts and results, no request is ever lost if and only if no deletion is of this kind |
| Reanalysis.ReportDecides | app/analysis/reanalysis.py:213-246 | a readable row goes on to its deletion exactly when its run is done or found no segments; a refused or failed run leaves it in place |
| Reanalysis.LogIsEarned | app/analysis/reanalysis.py:213-246 | over every run what counts as completed was a readable row whose run was done |
| Reanalysis.FlagsAreAskedFor | app/analysis/reanalysis.py:155-180 | over every run a row asks for nothing that no request of its session asked for |
| Reanalysis.SegmentlessRunDropsRequest | app/analysis/reanalysis.py:225-228 | a session that loses its segments before the run loses its request |
| Reanalysis.EqualTextLosesRequest | app/analysis/reanalysis.py:155-164 | two requests with equal texts: the second is deleted unseen |
| RangeNormalization.NeighboursSuffice | app/analysis/editorial_contracts.py:156-158 | the validators' check of neighbours means that all ranges are in order with gaps |
| RangeNormalization.UnionContainsExactlyBlocks | app/analysis/editorial_contracts.py:159-160 | an interval lies in the union exactly when a single block contains it |
| RangeNormalization.PushKeeps | app/analysis/editorial_evidence.py:126-132 | one merge step adds exactly the points of the pair and keeps the list valid |
| RangeNormalization.RecordingRanges | app/analysis/editorial_evidence.py:119-133 | the result passes the validators and covers exactly the points of the valid segments |
| RangeNormalization.MergedRanges | app/analysis/editorial_evaluation_io.py:76-89 | rejects exactly the lists with an untimed or invalid segment; otherwise as above |
| ServiceRestart.RestartBudget.Failed | config/service_restart.py:61-67 | consumes one failure with a doubling delay or reports exhaustion, and ends the readiness window |
| ServiceRestart.RestartsAreBounded | config/service_restart.py:41-67 | a trace of T seconds grants at most 3 * (1 + floor(T / 60)) restarts |
| ServiceRestart.DelaysAreBounded | config/service_restart.py:61-67 | every delay is 1, 2 or 4 |
| ServiceRestart.FailuresClearExactlyWhen | config/service_restart.py:48-59 | failures are cleared exactly by an unbroken run of ready observations that spans sixty seconds |
| ServiceRestart.RestartGrantedExactlyWhen | config/service_restart.py:41-67 | a failure is granted a restart if and only if fewer than three failures came since the last stable minute, or since the start |
| AnalysisProbes.PickFarthest | app/analysis/audio.py:131-135 | the anchor taken is one whose nearest selected point is farthest |
| AnalysisProbes.SelectPeaks | app/analysis/audio.py:120-127 | at most `limit` separated points, and below the limit every clamped peak is near one |
| AnalysisProbes.AddAnchors | app/analysis/audio.py:129-138 | keeps separation and nearness and ends below the limit only when every anchor is near a point |
| AnalysisProbes.AnalysisProbeOffsets | app/analysis/audio.py:103-139 | sorted, at most `limit`, inside the recording, pairwise at least the distance apart; with fewer points every clamped peak and every anchor is near one |

## Left out

- Networking, streaming, prompts, the computation of retry delays, the cost ledger and log rows: inputs or not part of this model.
- Times and scores are reals: floating-point rounding and date arithmetic are not modelled. The live monotonic clock and the stored deadline are read from one clock.
- Hashes, random identifiers and JSON texts are opaque and injective; sessions and rows are numbered by naturals.
- Budgets without a durable operation and the serial-use lock of a budget.
- DurableOperation.NextKeeps: an executor owns one journal for one opening; sharing a journal object between two budgets is not a step. Of a record the reported usage, the request identifier and the search evidence are kept, not its time stamps.
- ModelJournal.OperationState: copies made by the journal are written without validation, so a 33rd repair scope makes the stored operation undecodable; the model keeps this as a state that no executor can change any more.
- StructuredCall.CallStructured: the checks of argument sizes in front of the loop and the diagnostics kept with an attempt. A search passes on failure codes of its own, which `origin` tells apart.
- HotspotLifecycle.HotspotTable.Reconcile: texts, evidence, ticks and danmaku samples are opaque (`related` stands for their comparison), event-level clip metadata is absent, an object with or without a detector score; a malformed entry that is not an object is left out. Rows of a query come in the order of their ids.
- HotspotLifecycle.MergePayloadJoins: the stored clip score of a row may be the event-level one, so the score that never falls is the detector's.
- RecordingCoverage.SweepIsExactExactlyWhen: segments arrive sorted by start, which the query provides.
- HotspotHistory.RunSteps: dismissing a row is not a step, because nothing in the repository does it. The editorial reanalysis, which rates and explains a linked row in place, is an evaluation that expects the row's candidate. What evaluations and explanations check of their drafts, the texts they store, and the uniqueness of a candidate among the rows are left out.
- MediaSnapshot.Matches: the probed state of the media files, the thread and the engine of a snapshot.
- ClientTable.RunIsSafe: the close call of a client is assumed not to raise; a failing constructor of a client is the input `creatable`; the error that shutdown raises while calls are still running is left out.
- ModelPool.ReachableIsSafe: a loader returns a new object on every call; the device, load times and the per-entry keep flag are left out; waiting is a call that does not enter.
- Reanalysis.NoRequestIsLost: the texts of requests accepted while a worker holds an older text of the row differ from it, as their time stamps do. The order and number of rows in a snapshot are arbitrary; error rows and what a run does to its tasks are left out.
- RangeNormalization.RecordingRanges: the bounds on the length of the lists.
- `ServiceReadiness`, audio envelopes, silence snapping, the hotspot detector, clip scoring, provider configuration and the approval conjunctions would add only easy members.
- The budget plan of session summaries depends on a verifier that is not part of this model.
