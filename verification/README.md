# Verified model of the endpoint security platform

This project models the parts of the platform whose correctness spans many functions and many calls, and proves what
they promise for every input, every run and every interleaving.

**The cloud control plane** (`Records`, `ControlPlane`, `Repository`). Every public method of the in-memory repository
runs under one lock, so it is one atomic step. `ControlPlane` states each step as a function from state to state and
outcome; `Repository.InMemoryRepository` is the class with the dictionaries, loops and early exits of the original, and
each of its methods is proved to take exactly that step. Because `Step` is a function, a run is a sequence of
operations in the order in which the lock let them in, and everything proved about all runs covers every interleaving of
endpoints, platform users and workers. The laws are in one module per concern:

- `Transitions` says what one step can do to one scan or one task, and which part of the state each operation writes;
  `Callers` lists what the HTTP layer guarantees about the records it passes in.
- `Lifecycle`, `Readiness`, `Milestones`, `Finality`: the invariants of scans and tasks, write-once evidence, status and
  report, stability of readiness, an audit log that records each milestone exactly once, exactly when a scan leaves
  COMPLETE or REJECTED, and which finished scans are never offered for their report.
- `Leases`, `Fleet`, `BoundedWork`: who may take and finish a task, why a stale worker cannot, and how much work there
  can be.
- `Credentials`, `Rotation`, `Recovery`: the credential chain of an endpoint, the rotation protocol over a network that
  loses, delays and repeats messages, with the client's `EnrollmentService` as a class, and what a lost answer leads to.
- `Idempotency`, `Isolation`, `Dispatch`: retransmission, refusals and grants; what an endpoint can touch; which job is
  dispatched, when, and how far apart.
- `Inventory`, `Convergence`: full, delta and unchanged uploads, and the snapshot that is stored after any run of them.
- `Worker`, `WorkerRounds`: the analysis worker as a class driving the repository while everyone else acts between its
  calls, what its rounds amount to, their fairness, and its backoff; `Report` is the accounting of the final report it
  builds, and `Reporting` connects that to what the control plane holds.
- `Witnesses`, `Interruption`: runs from the empty state that reach what one might not expect, and a worker's round that
  ends in an error.

**Two algorithms that the pipeline applies repeatedly.** `UnionFind`, `Connectivity`, `Evidence`, `VulnerabilityMerge`
and `MergeLaws` cover the in-place union-find with path halving that deduplicates vulnerabilities; incremental equals
one-shot, idempotence, independence of order. `Revalidation` adds what happens between the two merges of the pipeline:
every merged record is validated again, and some are refused. `InventoryMerge`, `InventoryLaws` and `ValidatedMerge` cover
the structural merge of inventories, in which every merged row is validated and may be refused: `InventoryLaws` has the
algebra of the overlay that a merge computes when nothing is refused, `ValidatedMerge` exactly when something is, and
the algebra of the merge that can fail.

**Supporting parts.** `BoundedJson` (two bounded traversals that should decide the same thing), `Risk` (risk
arithmetic), `DomainScope` (the DNS scope decision, written twice), `Text` and `OrderedDict` (string order, sorted
sets, dictionaries that remember insertion order, stable sorting).

## Conventions

Times are integers in microseconds. Python dictionaries whose iteration order matters are `OrderedDict.Table`s.
Exceptions are values: `Outcome.Refused`, `Declined`, `None`. `codec` stands for the foreign parts of inventory handling
(section normalization, structural limits, digest, encoded size); a property that needs normalization to be idempotent or
the digest to be collision-free says so. Strings are folded and trimmed as ASCII. Workers have distinct names.

## Where the code does less than it seems to

- `record_rejection` sets REJECTED without looking at the state, and a report is accepted for a rejected scan, so neither
  COMPLETE nor REJECTED is final. `Finality.CompleteKeptExactly` and `Finality.RejectedKeptExactly` say exactly which
  step takes a scan out of either; `Witnesses.CompleteIsLeft` and `Witnesses.RejectedIsLeft` are runs in which that
  happens. What every run keeps are the write-once fields (`Lifecycle.WriteOnce`) and the milestones
  (`Milestones.ExactlyOnce`).
- `finalize_scan_report_failure` has no guard at all: it puts a report on a scan without evidence.
  `Milestones.ReportsEvidencedExactly` shows that this is the only operation that does so, and exactly when;
  `Witnesses.CompleteIsLeft` begins with such a run; `WorkerRounds.RoundIsProperRun` shows that no worker ever does it,
  whatever happens between its calls.
- `complete_analysis_task` checks the holder's name and not the lease. `Fleet.AcceptedIffCurrent` shows that this is as
  good as a fencing token as long as workers have distinct names and work on one task at a time.
- A worker's round does end in an error: exactly when its task was claimed by another worker before it tried to release
  it (`WorkerRounds.RoundIsProperRun`, `WorkerRounds.LostIsReclaimed`); `Interruption.RoundEndsInError` is such a round.
- A scan that is rejected while it is being analyzed, and whose last worker stops before finalizing, is never offered for
  finalization again (`Finality.AwaitingExactly`, `Finality.RejectedNeverOffered`): only ANALYZING scans are listed.
- Merging two valid inventory rows can give an invalid one (a lease or a certificate that ends before it begins, a disk
  with more free than total bytes), and the merge then raises and the contribution that holds the row fails
  (app/orchestrator/collector_pipeline.py:613). `ValidatedMerge.MergeFailsExactly` says exactly when, on the two rows.
  So the grouping of contributions matters: `ValidatedMerge.MergeAssociative` says exactly when it does not, and
  `ValidatedMerge.GroupingMatters` has three contributions that fail in one grouping and succeed in the other.
- Merged vulnerability records are validated again before they are merged for the report, and merging does not validate
  what it makes. `Revalidation.SurvivesExactly` says exactly which classes are refused for their identifiers: those with
  more than 513, and those whose first one is not an `Identifier`. The report then merges only the others
  (`Revalidation.ReportMergesReaching`), counts the loss and is not complete (`Revalidation.LossIsListed`).
  `Revalidation.FindingIsLost` is a single valid record that is lost.
- A reclaimed lease counts as an attempt, so `max_attempts` bounds reported failures and not crashes. Over any run a
  task's attempts stay within `max_attempts` plus its reclaims (`BoundedWork.AttemptsWithinReclaims`); for every
  `max_attempts`, one reclaim is enough to exceed it (`Witnesses.OneReclaimExceeds`).
- A lost rotation answer leaves the endpoint one generation behind (`Recovery.LostAnswerLags`, `Witnesses.LagIsReached`).
  While its old token is admitted it catches up by repeating the request that the server remembers, and there is one
  (`Recovery.AnsweredExactly`, `Recovery.RetransmissionRecovers`). The client's `rotate` and its callers make up a new
  key for every call (app/enrollment/service.py:168, app/cli.py:444 and 498), and so never recover
  (`Recovery.NewKeysNeverRecover`).
- Merging two certificate rows of one identity can change the identity when the first has an empty thumbprint
  (`ValidatedMerge.EmptyThumbprintChangesIdentity`); `ValidatedMerge.MergedIdentityKept` says exactly when identities
  survive.
- The two bounded-JSON traversals do not decide the same thing. Within the limits and without a node that both refuse,
  one refuses exactly the values with a long string or a tuple, the other exactly those with an empty key
  (`BoundedJson.DecisionsAgreeExactly`; `BoundedJson.DecisionsDiffer` has a value for each direction).

## Model

| member | source | states |
|---|---|---|
| Repository.InMemoryRepository.AuthenticateDevice | cloud_service/repository.py:684-696 | a token authenticates until its credential expires or its overlap ends, as the principal of that credential |
| Repository.InMemoryRepository.AuthenticateEnrollmentGrant | cloud_service/repository.py:698-705 | the stored grant is found exactly when there is one under the token that has not expired |
| Repository.InMemoryRepository.CreateEnrollmentGrant | cloud_service/repository.py:707-736 | takes exactly the grant-creation step: new state, reply and refusals, behind the idempotency check |
| Repository.InMemoryRepository.EnrollEndpoint | cloud_service/repository.py:738-782 | takes exactly the enrollment step: grant checks in order, endpoint and credential stored, grant consumed, nothing else changed |
| Repository.InMemoryRepository.FindCredential | cloud_service/repository.py:812-819 | the search loop finds the first stored credential with the identifier, in insertion order |
| Repository.InMemoryRepository.StoreRotation | cloud_service/repository.py:829-840 | the rotated-out credential is superseded until the earlier of its expiry and the overlap, the new one stored, the endpoint's generation raised |
| Repository.InMemoryRepository.RotateCredential | cloud_service/repository.py:784-853 | takes exactly the rotation step |
| Repository.InMemoryRepository.CreateScanJob | cloud_service/repository.py:868-901 | takes exactly the authorization step |
| Repository.InMemoryRepository.DispatchFirst | cloud_service/repository.py:908-949 | the dispatch loop, working on records read before it started, takes the same step as examining the current records one by one |
| Repository.InMemoryRepository.ClaimNextJob | cloud_service/repository.py:903-950 | takes exactly the poll step, including the endpoint's last contact |
| Repository.InMemoryRepository.TasksFit | cloud_service/repository.py:995-1003 | the check loop accepts exactly tasks of this scan and endpoint under new identifiers |
| Repository.InMemoryRepository.AddTasks | cloud_service/repository.py:1006-1007 | the insertion loop adds the tasks in order and changes nothing else |
| Repository.InMemoryRepository.IngestScan | cloud_service/repository.py:952-1022 | takes exactly the ingest step: every refusal leaves all state as it was, an acceptance updates scan, inventory, tasks, key and log together |
| Repository.InMemoryRepository.RecordScanStatus | cloud_service/repository.py:1024-1058 | takes exactly the status step |
| Repository.InMemoryRepository.RecordRejection | cloud_service/repository.py:1060-1093 | takes exactly the rejection step, with no guard on the scan's state |
| Repository.InMemoryRepository.FindClaimable | cloud_service/repository.py:1160-1167 | the scan over the sorted tasks finds the first one that may be claimed, including a running one whose lease has expired |
| Repository.InMemoryRepository.ClaimAnalysisTask | cloud_service/repository.py:1153-1178 | takes exactly the claim step |
| Repository.InMemoryRepository.CompleteAnalysisTask | cloud_service/repository.py:1180-1196 | takes exactly the completion step |
| Repository.InMemoryRepository.FailAnalysisTask | cloud_service/repository.py:1198-1221 | takes exactly the failure step: retry no earlier than now, or dead letter |
| Repository.InMemoryRepository.ListScanAnalysisResults | cloud_service/repository.py:1230-1245 | the loop collects what every finished task of the scan contributes |
| Repository.InMemoryRepository.ListTaskStates | cloud_service/repository.py:1273-1275 | the comprehension's last-one-wins table of task states |
| Repository.InMemoryRepository.NextScanReadyForFinalization | cloud_service/repository.py:1247-1262 | the least recently updated scan that is analyzing, without a report, and has both tasks finished |
| Repository.InMemoryRepository.FinalizeScanReport | cloud_service/repository.py:1264-1291 | takes exactly the finalization step: the same report again is accepted silently, another is refused |
| Repository.InMemoryRepository.FinalizeScanReportFailure | cloud_service/repository.py:1293-1315 | takes exactly the failure-report step |
| Transitions.StepMovesScans | cloud_service/repository.py:903-1093 | whatever the operation, every scan stays, is dispatched, expires, receives evidence, status or report, or is rejected, with every other field kept; only an authorization adds a scan |
| Transitions.StepMovesTasks | cloud_service/repository.py:952-1221 | whatever the operation, every task stays, is claimed, completes or fails, with every other field kept; only accepted evidence adds tasks |
| Transitions.PerformFramed | cloud_service/repository.py:707-1315 | each operation writes only the parts of the state that are its own |
| Transitions.SanitizedErrors | cloud_service/repository.py:587-589 | a stored error is printable text of 1 to 512 characters, and the given one if that was |
| Transitions.ReleaseTasks | cloud_service/repository.py:1180-1221 | completing or failing changes at most the named task, and only when the caller holds it |
| Lifecycle.WriteOnce | cloud_service/repository.py:952-1315 | over any run from any state, a scan's identity, job, evidence, status and report never change once set |
| Lifecycle.TerminalForever | cloud_service/repository.py:1180-1221 | a succeeded or failed task never changes again |
| Lifecycle.StepKeepsOnePerKind | cloud_service/repository.py:995-1007 | a scan never gets two tasks of one kind |
| Lifecycle.EvidenceBringsTasks | cloud_service/repository.py:1004-1007 | the step that stores a scan's evidence stores both its tasks |
| Lifecycle.RunKeepsSound | cloud_service/repository.py:952-1315 | in every reachable state: ANALYZING means evidence and no report, EXPIRED means no evidence, COMPLETE means a report, a report means COMPLETE or REJECTED, evidence is bound to scan, endpoint, scope and policy, a status matches its evidence, leases exist exactly while RUNNING, results exactly when SUCCEEDED, every task belongs to an uploaded scan of its tenant and endpoint, and every uploaded scan has one task of each kind |
| Lifecycle.EvidenceAcceptedExactly | cloud_service/repository.py:389-431 | evidence is accepted if and only if the endpoint owns the scan, it is dispatched without evidence, the evidence is in time, bound to scan, endpoint, type, scope and policy, and well-formed, the inventory can be rebuilt, and the tasks are the scan's own |
| Lifecycle.StatusAcceptedExactly | cloud_service/repository.py:434-455 | a status is accepted if and only if the endpoint owns an uploaded scan without one whose evidence it matches in all eight fields |
| Readiness.ReadyExactly | cloud_service/repository.py:1254-1261 | the finalization guard holds exactly when every task of the scan has finished |
| Readiness.FinishedHasResults | cloud_service/repository.py:1230-1245 | then a result of each kind is listed |
| Readiness.ResultsFixed | cloud_service/repository.py:1230-1262 | once all tasks have finished, results and task states are the same after any later run |
| Readiness.ReadyCanFinalize | cloud_service/worker.py:211-236 | a scan reported as ready keeps both results, and at any later moment its report is accepted unless it already has one |
| Milestones.ExactlyOnce | cloud_service/repository.py:659-682 | over any run the log gains one entry for each evidence, status or report a scan gains, and no other |
| Milestones.LoggedAtMostOnce | cloud_service/repository.py:1264-1315 | evidence, status and report of a scan are logged, and so written, at most once, and exactly when the scan has them |
| Milestones.FinishedIsEvidenced | cloud_service/repository.py:1273-1279 | a scan that passes the finalization guard has evidence |
| Milestones.ReportsEvidencedExactly | cloud_service/repository.py:1293-1306 | a step leaves every report on an evidenced scan if and only if it does not record a failure for an existing scan that has neither evidence nor report |
| Finality.CompleteKeptExactly | cloud_service/repository.py:1060-1093 | a step takes a finished scan out of COMPLETE if and only if it is a new rejection notice for it from the endpoint that owns it |
| Finality.RejectedKeptExactly | cloud_service/repository.py:1264-1315 | a step takes a rejected scan out of REJECTED if and only if the scan has no report and the step records a failure for it, or a report with all its tasks finished |
| Finality.AwaitingExactly | cloud_service/repository.py:1247-1262 | in every reachable state a scan with evidence and all tasks finished but no report is ANALYZING or REJECTED, and is offered for finalization exactly when it is not REJECTED |
| Finality.RejectedNeverOffered | cloud_service/repository.py:1247-1262 | after any run a rejected scan without a report is still rejected and never the next one to finalize |
| Witnesses.CompleteIsLeft | cloud_service/repository.py:1060-1093 | a run from the empty state: a failure recorded without evidence makes a scan COMPLETE, a rejection then makes it REJECTED |
| Witnesses.RejectedIsLeft | cloud_service/repository.py:1293-1315 | a run from the empty state: a rejected scan becomes COMPLETE through a recorded failure |
| Leases.LeaseHeld | cloud_service/repository.py:1159-1221 | until its lease expires, a task is not changed by anything that anyone but its holder does |
| Leases.ClaimedUntil | cloud_service/repository.py:1161-1177 | a task claimed at t for L seconds cannot be claimed again before t + L |
| Leases.ClaimsOldest | cloud_service/repository.py:1159-1178 | a claim succeeds whenever some task may be claimed, and takes one created no later than any other such task |
| Leases.HolderClaimedLast | cloud_service/repository.py:1167-1177 | a leased task is leased to the worker that claimed it last |
| Leases.OnlyLatestClaimer | cloud_service/repository.py:1180-1211 | after any run, completing or failing a task is refused to everyone but its latest claimer |
| Fleet.FleetStaysFenced | cloud_service/worker.py:343-358 | under every interleaving of distinct sequential workers, crashes and lease expiry, a worker's attempt is current exactly when it is the leaseholder |
| Fleet.AcceptedIffCurrent | cloud_service/repository.py:1180-1211 | a completion or failure is accepted exactly when the task still runs the attempt the worker was given |
| Fleet.OneWorkerCanFinish | cloud_service/repository.py:1180-1211 | of all workers busy with a task at most one can finish it |
| BoundedWork.WorkIsBounded | cloud_service/worker.py:238-255 | over any run all claims and releases together are bounded by the measure of the queue, twice `max_attempts` for each task added, and one for each reclaimed lease; a task that waits always has an attempt left |
| BoundedWork.MeasurePut | cloud_service/repository.py:1168-1176 | changing one task changes the queue's measure by the change of that task's weight |
| BoundedWork.AttemptsWithinReclaims | cloud_service/repository.py:1161-1175 | over any run a task's attempts never exceed `max_attempts` by more than the number of times its lease was reclaimed |
| Witnesses.OneReclaimExceeds | cloud_service/repository.py:1161-1175 | for every `max_attempts` there is a run from the empty state in which every worker keeps to it, one crashes, and the one reclaim is attempt `max_attempts` + 1 |
| Credentials.RunKeepsChain | cloud_service/repository.py:784-843 | in every reachable state an endpoint's credentials have generations 1 to g without gap or repeat, exactly generation g is not superseded, and every older one was replaced by the next and is valid until the earlier of its expiry and the end of the overlap |
| Credentials.NewGeneration | cloud_service/repository.py:805-840 | issuing the next generation leaves no gap and repeats neither a generation nor an identifier |
| Credentials.AuthenticatesExactly | cloud_service/repository.py:684-696 | a token authenticates exactly when it has not expired and is current or was replaced less than the overlap ago |
| Credentials.OnlyLatestAuthenticates | cloud_service/repository.py:684-696 | with a monotone clock, once the overlap of the last rotation is over only the latest generation authenticates |
| Credentials.GenerationNeverFalls | cloud_service/repository.py:836-840 | an endpoint's generation never decreases |
| Credentials.SupersededNeverRotates | cloud_service/repository.py:797-811 | after any run a superseded principal's rotation changes nothing; at best it gets the answer already given |
| Rotation.EnrollmentService.Rotate | app/enrollment/service.py:137-175 | the client replaces its credential exactly when an answer for its endpoint advances the generation, and never goes back |
| Rotation.HandledRotation | cloud_service/app.py:478-526 | a rotation that reaches the server is answered with the next generation, or changes nothing |
| Rotation.DeliveryMakesEqual | app/enrollment/service.py:166-175 | an answer that is delivered brings the client level with the server |
| Rotation.AlwaysAgreeing | app/enrollment/service.py:137-175 | under loss, delay and repetition of messages the client's generation never decreases, never exceeds the server's, is at most one behind, and names a credential the server issued |
| Rotation.OnlyRetransmissionRecovers | cloud_service/repository.py:795-804 | to a client that lags the server never rotates again, and gives an answer exactly to a repeat of a remembered request |
| Recovery.AgreeingSinceEnrollment | cloud_service/repository.py:738-853 | for any endpoint, after any run before its enrollment and under any loss, delay and repetition after it: all of the above, and whenever the client lags it has sent the request the server remembers |
| Recovery.AdmittedExactly | cloud_service/repository.py:684-696 | the token of a client that lags is admitted exactly until it expires or the overlap is over, whichever is first |
| Recovery.AnsweredExactly | cloud_service/repository.py:797-811 | a client that lags is answered, with the next credential, if and only if its token is admitted and the request is one it sent before and the server remembers; either way nothing changes |
| Recovery.RetransmissionRecovers | app/enrollment/service.py:137-175 | sending that request again and receiving the answer brings the client level |
| Recovery.NewKeysNeverRecover | app/enrollment/service.py:165-175 | a client that lags and from then on asks only under new keys keeps its old credential for ever, whatever the network delivers |
| Recovery.LostAnswerLags | app/enrollment/service.py:165-175 | a level client whose first answer is lost lags |
| Witnesses.LagIsReached | app/enrollment/service.py:165-175 | enrollment and one lost answer, from the empty state |
| Idempotency.RememberedForever | cloud_service/repository.py:647-657 | an answer is never forgotten or replaced |
| Idempotency.OriginalReply | cloud_service/repository.py:647-657 | after any run, a repeat of an accepted request gets the original reply and a reuse of its key for other content is a conflict, and neither changes anything |
| Idempotency.RefusedChangesNothing | cloud_service/repository.py:707-1315 | a refused operation leaves the whole state untouched, whatever the reason |
| Idempotency.RepeatsLeaveNoTrace | cloud_service/repository.py:647-657 | dropping any of the repeated or refused requests of a run changes neither records, nor log, nor answers |
| Idempotency.RunKeepsGrants | cloud_service/repository.py:754-776 | in every reachable state a grant is unused or names the one endpoint it enrolled, of its tenant and operating system, and no endpoint used two |
| Idempotency.UsedGrantIsSpent | cloud_service/repository.py:760-763 | a used grant never changes and never enrolls again |
| Idempotency.GrantFoundUntilExpiry | cloud_service/repository.py:698-705 | over any run a stored grant is found under its token exactly until it expires, used or not, and only its use ever changes |
| Idempotency.CreatedGrantIsFound | cloud_service/repository.py:698-736 | nothing was found under a new grant's token before it was accepted, and the grant is found from then on until it expires |
| Isolation.EndpointsAreIsolated | cloud_service/repository.py:952-1093 | whatever an endpoint sends, scans, tasks, inventories, credentials and records of every other endpoint stay as they were |
| Dispatch.EligibleExactly | cloud_service/repository.py:344-386 | a scan is eligible exactly inside its authorization window, when queued or when its dispatch lease is over |
| Dispatch.WaitingExactly | cloud_service/repository.py:344-386 | a scan waits exactly when it is authorized and not over, but the authorization or the job has not begun |
| Dispatch.ExpiredForGood | cloud_service/repository.py:344-386 | what counts as expired once would never be eligible again |
| Dispatch.DispatchExact | cloud_service/repository.py:909-950 | the loop expires exactly the outlived candidates before the first eligible one, dispatches that one, and leaves all others |
| Dispatch.PollExactly | cloud_service/repository.py:903-950 | and the candidates come oldest first |
| Dispatch.OldestIsDispatched | cloud_service/repository.py:908-949 | when something may be dispatched, a scan no younger than any other such scan is |
| Dispatch.PollReturns | cloud_service/repository.py:931-949 | a dispatched scan belongs to the endpoint, lies inside its window, and was queued or had outlived its lease |
| Dispatch.HeldOverRun | cloud_service/repository.py:376-386 | over any run a scan that stays dispatched was not dispatched again before its lease was over |
| Dispatch.DispatchesApart | cloud_service/repository.py:376-386 | two dispatches of one scan are at least its timeout and 60 seconds apart |
| Inventory.AcceptedIsFaithful | cloud_service/repository.py:214-331 | an accepted snapshot is normalized, bounded, and has the claimed hash |
| Inventory.AcceptedIsClaimed | cloud_service/repository.py:214-331 | without collisions, what is accepted is the snapshot the endpoint hashed |
| Inventory.WithoutContents | cloud_service/repository.py:295-296 | removing names keeps exactly the other sections |
| Inventory.DeltaOrderIrrelevant | cloud_service/repository.py:288-296 | updates and removals of a delta commute, in any order |
| Inventory.DeltaRoundTrip | app/storage/results.py:127-170 | applying the endpoint's delta to its previous snapshot gives its current one |
| Inventory.HonestDeltaAccepted | cloud_service/repository.py:256-297 | an honest delta is accepted when the server holds its base, and asks for a resync when it does not |
| Convergence.RunKeepsFaithful | cloud_service/repository.py:976-1005 | after any run of uploads every stored inventory, and the inventory in every scan's evidence, is normalized, bounded and matches its hash |
| Convergence.UploadConverges | cloud_service/repository.py:976-1005 | after any run an accepted upload stores exactly the snapshot the endpoint hashed, for that endpoint only; a refused one changes nothing |
| Convergence.RunKeepsSourced | cloud_service/repository.py:320-331 | every stored inventory is the one in the evidence of an uploaded scan of the same endpoint |
| Worker.BackoffBounds | cloud_service/worker.py:181-189 | for any draw the delay lies within the jitter of the nominal delay, and never above the maximum plus jitter |
| Worker.BackoffMonotone | cloud_service/worker.py:181-189 | for a fixed draw, more attempts never mean a shorter delay |
| Worker.BackoffSaturates | cloud_service/worker.py:181-189 | once at the maximum the delay stays there |
| Worker.AnalysisWorker.FinalizeReadyScan | cloud_service/worker.py:211-236 | whatever happens between its calls: finalizes exactly when input and both results are there when they are read, the report can be built, and the repository accepts it |
| Worker.AnalysisWorker.FinalizeWithInput | cloud_service/worker.py:222-236 | the same with the input already loaded |
| Worker.AnalysisWorker.FailClaimed | cloud_service/worker.py:238-284 | dead-letters a permanent failure or a used-up task, and otherwise schedules the retry after the backoff; a refusal by the repository is its error |
| Worker.AnalysisWorker.ConcludeCompleted | cloud_service/worker.py:315-341 | after a completed task, tries to finalize; a report that cannot be built is recorded as failed |
| Worker.AnalysisWorker.ReconcileReady | cloud_service/worker.py:359-388 | without a task, finalizes the scan reported as ready, records a permanent failure, or postpones |
| Worker.AnalysisWorker.ProcessClaimed | cloud_service/worker.py:286-341 | with anything happening while the tool runs and between the calls: analyzes, completes or fails, and concludes; a completion that is refused is treated as a failure |
| Worker.AnalysisWorker.RunOnce | cloud_service/worker.py:343-388 | the round, with anything happening between its calls: the first kind from the index on that has a task is served and the index moves past it, otherwise a ready scan is reconciled |
| WorkerRounds.RoundIsProperRun | cloud_service/worker.py:238-388 | whatever other workers, endpoints and users do between the calls of a round: the round is part of a run of the control plane, in which the worker dead-letters used-up tasks and never records a failure for a scan without evidence; it ends in an error if and only if it took a task and lost it before the release; and a task it releases ends as reported, succeeded, failed, or waiting with an attempt left |
| WorkerRounds.LostIsReclaimed | cloud_service/worker.py:286-341 | a task is lost exactly when it was claimed again: its attempts have grown |
| Interruption.RoundEndsInError | cloud_service/worker.py:286-341 | whatever the analyzers do, from the empty state: a task outlasts its lease, another worker claims it, and the round ends with the repository's refusal |
| WorkerRounds.NeverUnfinished | cloud_service/worker.py:222-226 | the "not all results" exit is never taken for a scan reported as ready, whatever happens before the results are read |
| WorkerRounds.TurnComesNearer | cloud_service/worker.py:343-357 | a round that passes over a kind with a task waiting when its turn comes brings that turn strictly nearer |
| WorkerRounds.ServedWithinKindCount | cloud_service/worker.py:343-357 | a kind that always has a task waiting is served within as many rounds as there are kinds, whatever else happens between and during the rounds |
| Report.CountRecords | cloud_service/analysis.py:708-718 | accepted and rejected records of a tool add up to the persisted ones; nothing is accepted from a tool that did not deliver |
| Report.Summarize | cloud_service/analysis.py:685-741 | the loop refuses foreign or malformed results, and otherwise counts every tool's records |
| Report.CountSeverities | cloud_service/analysis.py:747-749 | the severity buckets count the merged records and sum to their number |
| Report.BuildFinalReport | cloud_service/analysis.py:664-852 | fails exactly on missing or unacceptable results; otherwise the merged list is a merge of all accepted records and no longer than they are, successful and degraded tools divide the expected ones, every shortcoming is listed as a gap and nothing else, and the report is complete exactly when it lists no gap, which is exactly when every tool delivered everything for real |
| Report.CompleteExactly | cloud_service/analysis.py:762-768 | complete means: no fixture, every tool succeeded, nothing was rejected |
| Revalidation.KeptIsMerge | app/normalization/vulnerability_merge.py:142-194 | whatever merged records are kept, they are a merge of exactly the inputs of their classes |
| Revalidation.SurvivesExactly | app/models/findings.py:62-68 | the merged record of a class is accepted when it is read back exactly when the class has at most 513 identifiers and its first one is an `Identifier` (app/models/base.py:13-15) |
| Revalidation.ReachesExactly | cloud_service/analysis.py:713-718 | a tool's record reaches the report exactly when its class is storable in that sense and the merged evidence fits |
| Revalidation.ReportMergesReaching | cloud_service/analysis.py:595-746 | the report's findings are a merge of exactly the records of the classes that were read back, of both tools |
| Revalidation.ReportIsOneShot | cloud_service/analysis.py:595-746 | so the report has the findings of merging at once what reaches it, and of merging at once everything both tools found when nothing is refused |
| Revalidation.LossIsListed | cloud_service/analysis.py:713-768 | a refused record is counted, listed as a gap, and the report is not complete |
| Revalidation.FindingIsLost | app/normalization/vulnerability_merge.py:37-46 | a valid record with an alias that precedes its identifier and is not one itself (such as app/tools/depscan/adapter.py:505-508 takes from references): its merge is refused, and nothing of it is left |
| Reporting.ReadyIsBuilt | cloud_service/worker.py:222-228 | once all tasks of a scan have finished its report never fails for missing results, and dead letters never stand in the way: whether it is built depends only on the analyzer results being acceptable, and on evidence and report fitting their bounds, which are given by the reader |
| Reporting.DeadLetterIsAGap | cloud_service/analysis.py:690-775 | a report on a dead-lettered tool lists it as degraded and as a gap, accepts nothing from it, and is neither complete nor a success |
| UnionFind.Find | app/normalization/vulnerability_merge.py:158-162 | path halving returns the root and changes no element's root |
| UnionFind.ShortcutKeepsRoots | app/normalization/vulnerability_merge.py:160-161 | pointing at a grandparent keeps the forest and every root |
| UnionFind.Union | app/normalization/vulnerability_merge.py:164-168 | joins exactly two trees, under the smaller root |
| UnionFind.LinkRoots | app/normalization/vulnerability_merge.py:164-168 | hanging one root below a smaller one redirects exactly its own tree |
| Connectivity.ConnectedIffChain | app/normalization/vulnerability_merge.py:170-179 | the two definitions of "must be merged", by colourings and by chains of linked records, are the same |
| Connectivity.ConnectedSamePackage | app/normalization/vulnerability_merge.py:21-26 | connected records agree on the package |
| VulnerabilityMerge.IndexIdentifier | app/normalization/vulnerability_merge.py:173-179 | one turn of the index keeps it exact and joins only connected records |
| VulnerabilityMerge.IndexRecord | app/normalization/vulnerability_merge.py:173-179 | one record's turn of the loop: all its identifiers, in any order, keep the index exact and the forest sound |
| VulnerabilityMerge.IndexRecords | app/normalization/vulnerability_merge.py:156-179 | after the loop two records have one root exactly when a chain of linked records connects them |
| VulnerabilityMerge.IndexedForestIsExact | app/normalization/vulnerability_merge.py:170-179 | a full index and a sound forest make the forest exact |
| VulnerabilityMerge.RootIsLeast | app/normalization/vulnerability_merge.py:164-168 | each root is the smallest index of its class |
| VulnerabilityMerge.GroupByRoot | app/normalization/vulnerability_merge.py:181-183 | every record lands in the one group of its root, in input order |
| VulnerabilityMerge.CanonicalIdentifier | app/normalization/vulnerability_merge.py:37-46 | picks an identifier that no other precedes |
| VulnerabilityMerge.CanonicalUnique | app/normalization/vulnerability_merge.py:37-46 | there is only one such identifier when identifiers differ in more than case |
| VulnerabilityMerge.MergeGroup | app/normalization/vulnerability_merge.py:71-139 | the merged record has the union of identifiers, the highest severity and scores, any known exploitation, the earliest detection, the longest summary, and the first 512 and 128 of the sorted versions and references |
| VulnerabilityMerge.IdentifiersKept | app/normalization/vulnerability_merge.py:71-139 | a merged record keeps every identifier of its class |
| VulnerabilityMerge.MergeGroups | app/normalization/vulnerability_merge.py:184-185 | one merged record per class, and no two of them share a package and an identifier |
| VulnerabilityMerge.MergeVulnerabilities | app/normalization/vulnerability_merge.py:142-194 | refuses more than 100000 records; otherwise a merge of the input, in report order, no longer than it |
| Evidence.AggregateUnique | app/normalization/vulnerability_merge.py:71-139 | a group has only one merged evidence |
| Evidence.AggregateSingleton | app/normalization/vulnerability_merge.py:71-139 | a record alone is its own merged evidence |
| Evidence.AggregateNested | app/normalization/vulnerability_merge.py:71-139 | merging merged groups is merging everything, truncated lists included |
| MergeLaws.ConnectionSurvives | app/normalization/vulnerability_merge.py:142-194 | what is connected stays connected after part of it was merged |
| MergeLaws.ConnectionReflects | app/normalization/vulnerability_merge.py:142-194 | and nothing else becomes connected |
| MergeLaws.IncrementalMerge | app/orchestrator/collector_pipeline.py:822-827 | merging A, then the result with B, is a merge of A and B together |
| MergeLaws.MergeUnique | app/normalization/vulnerability_merge.py:142-194 | an input has one merge, up to listing order and fields copied from single records |
| MergeLaws.CanonicalStable | app/normalization/vulnerability_merge.py:37-46 | the identifier a class is listed under does not depend on how it was merged |
| MergeLaws.MergeIdempotent | app/normalization/vulnerability_merge.py:142-194 | merging a merged list changes nothing |
| MergeLaws.MergeIgnoresOrder | app/normalization/vulnerability_merge.py:142-194 | order and repetition of the input do not matter |
| MergeLaws.PipelineMerge | app/normalization/vulnerability_merge.py:142-194 | merging two parts each on its own, and then the merged parts put together as they are, equals merging everything once (`Revalidation` has what happens when they are validated in between) |
| InventoryMerge.MergeModel | app/normalization/merge.py:114-123 | merges two rows field by field and validates the result: the merged row, or a failure of a nested merge or of a rule of its class |
| InventoryMerge.MergeInventory | app/normalization/merge.py:126-160 | the key loop computes the specified merge, in any order of keys, and fails exactly when the specification does |
| InventoryMerge.MergeLists | app/normalization/merge.py:142-157 | the list loop with its position index computes the specified list, and fails exactly when the specification does |
| InventoryLaws.OverlayAssociative | app/normalization/merge.py:126-160 | what merging computes when no row is refused does not depend on the grouping |
| ValidatedMerge.MergeFailsExactly | app/normalization/merge.py:114-157 | merging fails if and only if somewhere two rows of one identity clash: their latest lease or certificate ends before it begins, their free bytes exceed their capacity, or a joined list is too long (app/models/inventory.py:96-104, 266-274, 421-425); otherwise it gives the overlay |
| ValidatedMerge.ValidExactly | app/models/inventory.py:96-104 | the overlay of two values with valid rows has only valid rows if and only if no two rows clash |
| ValidatedMerge.GroupingMatters | app/models/inventory.py:266-274 | three valid contributions about one interface whose merge fails from the left and succeeds from the right |
| ValidatedMerge.MergedIdentityKept | app/normalization/merge.py:40-123 | when two rows of one identity merge, the result keeps it if and only if no serial number becomes visible |
| ValidatedMerge.EmptyThumbprintChangesIdentity | app/normalization/merge.py:40-111 | two certificate rows of one identity that merge to a valid one with another |
| ValidatedMerge.RowsAreMerged | app/normalization/merge.py:142-157 | as long as no row is refused, after every row the index is exact and the rows are merged by identity |
| ValidatedMerge.MergedList | app/normalization/merge.py:142-157 | fails if and only if two rows of one identity clash; otherwise output identities are the union without duplicates, base order first, each row the merge of the rows of its identity |
| ValidatedMerge.SelfMerge | app/normalization/merge.py:126-160 | a value without double identities and with valid rows merges with itself, and is unchanged |
| ValidatedMerge.MergeClosed | app/normalization/merge.py:126-160 | compatible values merge exactly when their overlay is valid, and then give a value of the same kind again |
| ValidatedMerge.MergeCompatible | app/normalization/merge.py:126-160 | what is compatible with both parts is compatible with their merge |
| ValidatedMerge.MergeAssociative | app/normalization/merge.py:126-160 | each grouping of three contributions succeeds if and only if its first two rows do not clash and all three together are valid; two that succeed agree; and the groupings end alike if and only if all three together are invalid or the two first merges fail alike |
| ValidatedMerge.MergeAbsorbs | app/normalization/merge.py:126-160 | after a successful merge, merging the same contribution again succeeds and changes nothing |
| BoundedJson.CheckWithStack | cloud_service/models.py:33-59 | the explicit-stack traversal accepts exactly the values within the node and depth limits whose nodes are all legal |
| BoundedJson.Walk | app/models/base.py:71-104 | the recursive walk accepts exactly what fits what is left of the limits, counts every node, and copies |
| BoundedJson.CheckAndCopy | app/models/base.py:65-106 | accepts exactly the values within the limits whose nodes are all legal, and returns their copy |
| BoundedJson.CopyIsEqual | app/models/base.py:65-106 | the copy of a value without tuples equals it |
| BoundedJson.RefusedExactly | app/models/base.py:71-104 | what each traversal refuses: a broken node, and a long string or tuple in the one, an empty key in the other |
| BoundedJson.DecisionsAgreeExactly | app/models/base.py:65-106 | under the same limits the two decide alike if and only if the limits or a broken node make both refuse, or the value has both or neither of a long string or tuple, and an empty key |
| BoundedJson.DecisionsDiffer | cloud_service/models.py:33-59 | a value only the one accepts and a value only the other accepts |
| BoundedJson.ChecksAgree | cloud_service/models.py:33-59 | on values without those the two traversals decide the same predicate, and the copy is the value |
| BoundedJson.CountComponents | cloud_service/analysis.py:213-230 | the stack loop counts exactly the nested components, and fails exactly on malformed ones or too many |
| Risk.Accumulate | app/analyzers/risk.py:111-154 | the loop's six accumulators are the six sums over active findings, and its counts are exact |
| Risk.CountsSumToActive | app/analyzers/risk.py:111-126 | every active finding is counted under exactly one severity |
| Risk.AccumulatorsSumToPenalty | app/analyzers/risk.py:143-156 | the accumulators sum to the findings' base penalties, each times one plus its weighted factors |
| Risk.Calculate | app/analyzers/risk.py:84-174 | rejects exactly invalid settings and mixed or missing scan identifiers; score and penalty lie in [0, 100] and sum to exactly 100 after rounding; the score is within 0.005 of the exact one; the published components and raw penalty are the exact ones rounded to four places, and together account for the penalty to within 0.0003; the published number of active findings is the sum of the severity counts; the level is the published score's |
| Risk.RoundedSumIsHundred | app/analyzers/risk.py:157-160 | half-even rounding of score and penalty keeps their sum at exactly 100 |
| Risk.OrderIsIrrelevant | app/analyzers/risk.py:125-160 | the score does not depend on the order of the findings |
| Risk.RaisingSeverityNeverHelps | app/analyzers/risk.py:84-191 | raising a severity never raises the score or improves the level |
| Risk.AddingNeverHelps | app/analyzers/risk.py:84-191 | adding a finding never raises the score or improves the level |
| Risk.WaitingNeverHelps | app/analyzers/risk.py:84-191 | as time passes the score never rises and the level never improves |
| Risk.RelievingNeverHurts | app/analyzers/risk.py:84-174 | acknowledging, resolving or suppressing never lowers the score or worsens the level |
| DomainScope.MatchesIsSubdomain | app/models/jobs.py:81-92 | the string test holds exactly when the labels of the domain are the last labels of the candidate (section 3.1 of RFC 1034) |
| DomainScope.SubdomainTransitive | app/models/jobs.py:81-92 | a subdomain of a subdomain is a subdomain |
| DomainScope.NormalizeIdempotent | app/models/validators.py:11-33 | a normalized name is its own normal form |
| DomainScope.AllowsDomainDecides | app/models/jobs.py:81-92 | authorizes exactly the normalizable names that the scope covers and does not exclude |
| DomainScope.AuditAgrees | app/models/deep_scan.py:221-231 | the audit context accepts a normalized target exactly when the authorization scope allows it |
| DomainScope.ExclusionDominates | app/models/jobs.py:81-92 | an excluded name takes all its subdomains with it, whatever is allowed |
| OrderedDict.SortByIsSorted | cloud_service/repository.py:908-908 | the stable sort puts every key before all later ones: by value first, by insertion among equals |

## Left out

- `cloud_service/postgres.py`: the same transitions as SQL; the database's locking is not part of this model.
- HTTP, authentication headers, dashboards, command lines and configuration loading; only what they guarantee about the
  records passed to the repository is stated, in `Callers`.
- Hashing, tokens, keyrings, files, processes and the network: digests and token hashes are given values, the network is
  the adversary of `Rotation`.
- A job document without `timeout_seconds` or `authorization_reference`, for which dispatch and authorization would raise
  after storing: the HTTP layer writes both into every job (cloud_service/app.py:753-790).
- Tenant-wide listings and paging (`list_endpoints`, `list_scans`) and the plain getters: reads without a property of
  their own.
- Audit events keep sequence, tenant, kind, actor and resource; their details and timestamps are dropped.
- JSON documents are maps from field names to text; report documents, task payloads and SBOMs are opaque.
- `Inventory.Codec`: section normalization, structural limits, digest and size are parameters; process telemetry is
  dropped as in the source.
- Worker.Backoff: arithmetic is over exact reals, and a delay is rounded to the nearest microsecond with ties upward;
  floating-point rounding is not modelled. The same holds for `Risk`.
- Notifications, idle waiting, cancellation and logging of the worker: advisory, without effect on stored state.
- Evidence records and the fields that `_merge_group` copies from the earliest record: they depend on input order for
  ties, so they are kept out of the merge laws. When a merged record is read back, its evidence enters only as a flag: it
  stays within its bounds or not.
- `InventoryMerge`: validation of a merged row means the rules between its fields and the bounds of the lists a merge can
  lengthen. A rule that a single field satisfied before it still satisfies, because merging takes every plain field from
  one of the rows; bounds and redaction of a posture's free-form `controls`, and validators that rewrite a field, are
  taken to leave validated values as they are.
- The detection time that fixture mode rewrites.
- Unicode case folding and the IDNA conversion of domain names: folding is ASCII, names are taken after conversion.
- Rows of an inventory list without an identity of their own are identified by their whole value, as in the source, with
  equality in place of the source's text form.
- The cycle detection of the recursive JSON walk: values are trees here, so no cycle can occur.
- `Report`: times, provenance, warnings, byte limits and the redaction of the report document.
- Deep-scan completeness, network scopes, job parameter checks, the block-device tree and the memory of rejected jobs:
  short set and list computations without state.
