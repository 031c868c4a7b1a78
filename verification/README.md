# Inoculum: a verified model of the lease queue and the protocols around it

Inoculum is a small distributed task queue: a coordinator leases tasks to workers, workers renew their leases
while they execute and resubmit a result until it is resolved, and a client submits a manifest and exports the
results. This project models that behaviour in Dafny and proves what the system relies on.

`dafny verify dfyconfig.toml` checks everything.

## How it is organised

| files | what they hold |
|---|---|
| `LeaseModel` | the queue on values: one function per locked operation, built from five kinds of change (added, granted, renewed, resolved, expired); a log of the changes serves the proofs only |
| `LeaseQueue` | the queue as the coordinator holds it: a class over task and lease objects, each method proved to do what `LeaseModel` says |
| `LeaseHistory`, `LeaseInvariants`, `LeaseRuns` | readings of the log, the invariant that every change keeps, and runs of any operations in any order |
| `LeaseTheorems`, `LeaseDeadlines`, `LeaseTermination`, `LeaseSettling` | what holds after every run: exclusion, dead leases, FIFO, provenance, bounded work, and that lazy expiry is eager settling |
| `LeaseContract` | what each operation leaves behind and answers, field by field, apart from the functions that compute it |
| `LeaseExamples` | queues with one task, for the concrete runs |
| `Wire`, `Protocol`, `Worker`, `Renewal` | the coordinator's answers, resubmission over a lossy network, the worker's loops, and when renewing keeps a lease alive |
| `Views`, `Tallies`, `Monitor`, `Jobs` | the derived counts and job states, and that they agree |
| `Submission`, `Identifiers` | validation, the non-atomic enqueue loop, generated identifiers, and the exported document |
| `Deployment` | submissions, workers and the coordinator in one run, and what the export says about deliveries |
| `Fingerprint`, `Trust`, `Identity` | printing and parsing fingerprints, the trust record, and the identity files over restarts |
| `Text`, `Options`, `Results` | white space and byte lengths, optional values, values or errors |

Every exported method of the queue holds its lock for its whole body, so concurrent use is an arbitrary sequence
of atomic operations; the enqueue loop of a submission is several of them. A call receives the clock reading it
makes and, for a claim, the lease ID it would draw, so a statement about all runs is about all clocks and all
generators. Assumptions appear in the statements that need them and nowhere else:

- times are unbounded integers (nanoseconds); `ClockForward` says that successive readings never go back;
- `GeneratorFresh` and `FreshLeaseIds` say that lease IDs are not repeated;
- lease duration and attempt limit are positive, as `New` enforces.

Three findings where a plausible reading of the code is not what it does, each with a run that shows it and its
exact condition:

- A worker logs "result accepted" (`internal/worker/pull.go:241-243`) for every answer `task_completed`. That
  answer is also given to a worker whose result was dropped because another worker had completed the task
  (`DroppedResultAnsweredCompleted`). A result is kept exactly if it is a success, its request passes the coordinator's checks
  (the encoded body, the identifiers and the texts are within their limits), and some delivery of it came while its
  sender still held the lease, before the deadline (`WhoseResultWasKept`); that
  is what renewing in time secures (`RenewedResultIsTaken`).
- `handlePullJob` and the monitor disagree on a job all of whose tasks wait after some were tried
  (`TriedJobIsSeenDifferently`), and on no other job of a reachable queue (`ReachedJobsAgree`).
- Two submissions that read the same clock value draw the same job ID, and then the one whose first enqueue comes
  second is aborted with nothing left behind (`SameReadingAborts`). Nothing else makes an enqueue of a submission
  fail (`CollisionMeansBeaten`).

## Model

| member | source | states |
|---|---|---|
| LeaseQueue.New | internal/leasequeue/queue.go:112-133 | a queue is refused exactly for a non-positive duration or attempt limit; otherwise it is empty and valid |
| LeaseQueue.Queue.Enqueue | internal/leasequeue/queue.go:135-158 | the object graph changes as the value model says, a new record only on success, the invariant is kept |
| LeaseQueue.Queue.Claim | internal/leasequeue/queue.go:162-201 | expiry, then the queue loop, then the new lease: reply and new state are the value model's; lease objects in use are old ones or new |
| LeaseQueue.Queue.PopQueued | internal/leasequeue/queue.go:173-179 | the loop stops at the first ID that still names a queued task, having dropped the ones before it |
| LeaseQueue.Queue.ActiveLease | internal/leasequeue/queue.go:332-354 | the checks in the code's order decide the error; only the target's own due lease is expired; success leaves the queue as it was and hands over a lease still in force |
| LeaseQueue.Queue.ExpireTask | internal/leasequeue/queue.go:368-378 | in place: back to the queue while attempts are left, else failed with the expiry error |
| LeaseQueue.Queue.ExpireDue | internal/leasequeue/queue.go:356-366 | all and only due leases are expired, in enqueue order, and their IDs returned in that order |
| LeaseQueue.Queue.RequeueExpired | internal/leasequeue/queue.go:251-255 | the same, as an operation |
| LeaseQueue.Queue.Renew | internal/leasequeue/queue.go:203-215 | reply and new state are the value model's; only the lease object's expiry moves, to a whole duration from now, and the reply is the lease then held |
| LeaseQueue.Queue.Complete | internal/leasequeue/queue.go:219-247 | reply and new state are the value model's for completion, requeue, failure and each refusal |
| LeaseQueue.Queue.Get | internal/leasequeue/queue.go:257-266 | settles, then returns a deep copy of the record, none if there is no such task |
| LeaseQueue.Queue.JobTasks | internal/leasequeue/queue.go:268-281 | settles, then returns deep copies of the job's records in enqueue order |
| LeaseQueue.Queue.Snapshot | internal/leasequeue/queue.go:285-295 | settles, then returns deep copies of all records in enqueue order |
| LeaseQueue.Queue.Observe | internal/leasequeue/queue.go:300-309 | deep copies of all records in enqueue order, queue untouched |
| LeaseQueue.Queue.Stats | internal/leasequeue/queue.go:311-330 | settles, then returns the size of each state's set of tasks |
| LeaseQueue.TaskRecord.Clone | internal/leasequeue/queue.go:380-391 | an equal record whose task, lease and result objects are new |
| LeaseContract.EnqueueContract | internal/leasequeue/queue.go:135-158 | a new task waits at the back, untried and unowned; an empty or known ID is refused and changes nothing |
| LeaseContract.SettleContract | internal/leasequeue/queue.go:356-378 | exactly the overdue tasks lapse: back to the queue in enqueue order while attempts are left, else failed with the expiry error; nothing else changes |
| LeaseContract.DueIdsContract | internal/leasequeue/queue.go:356-366 | the reported IDs are those of the overdue tasks, in enqueue order |
| LeaseContract.ClaimContract | internal/leasequeue/queue.go:162-201 | after expiry the first waiting task is leased to the worker, field by field, and the reply is that task and that lease; an unnamed worker changes nothing |
| LeaseContract.RenewContract | internal/leasequeue/queue.go:203-215 | the holder before the deadline, and nobody else, is answered with the lease that the queue then holds, which runs a whole duration from now and is otherwise the same; every refusal has its reason in the record |
| LeaseContract.CompleteContract | internal/leasequeue/queue.go:219-247 | the record after the holder's report, field by field, for completion, requeue and failure, with the outcome; every refusal has its reason in the record and at most expires the holder's overdue lease |
| LeaseInvariants.InvKept | internal/leasequeue/queue.go:135-247 | every change keeps the whole invariant: lists and map agree without duplicates, each record fits its state, FIFO, task stories, disjoint leases, lease identity, work budget |
| LeaseInvariants.MeasureStep | internal/leasequeue/queue.go:181-247 | claims, accepted reports and expiries lower the measure, renewals keep it, an enqueue adds twice the attempt limit |
| LeaseRuns.ReachedInv | internal/leasequeue/queue.go:112-378 | the invariant holds after any operations whatever |
| LeaseRuns.RunFollows | internal/leasequeue/queue.go:135-378 | over any run tasks are never removed or renamed, attempts never fall, terminal records stay, order and log only grow |
| LeaseTheorems.LeaseSuccession | internal/leasequeue/queue.go:162-247 | a task's leases carry attempts 1, 2, 3, ...; each began no earlier than the previous one's last renewed expiry, or the report that ended it |
| LeaseTheorems.OneLeaseAtATime | internal/leasequeue/queue.go:170-194 | at no instant are two leases of one task in force |
| LeaseTheorems.EndedLeaseIsDead | internal/leasequeue/queue.go:332-354 | after a lease ended, every later renewal or report under its ID, by anyone and at any time, is refused and changes nothing |
| LeaseDeadlines.AcceptedWhileHeld | internal/leasequeue/queue.go:332-354 | Renew and Complete accept the lease holder's calls before the deadline, and no others |
| LeaseDeadlines.ExpiredLeaseIsDead | internal/leasequeue/queue.go:349-352 | once a lease's last renewed deadline passed, every later renewal or report under its ID, by anyone and for any task, is refused, even if no operation noticed |
| LeaseTheorems.ClaimsFollowEntries | internal/leasequeue/queue.go:155-197 | all queue entries are the claims made, in the same order, then what waits; Claim's skip branch is never taken |
| LeaseTheorems.ClaimTakesOldestEntry | internal/leasequeue/queue.go:173-200 | a claim gets the oldest unclaimed entry, and no work exactly when there is none |
| LeaseTheorems.CompletedByItsLastHolder | internal/leasequeue/queue.go:228-233 | completed exactly when one accepted report had no error; it was the last lease's, and record and worker are that report's |
| LeaseTheorems.FailedAfterEveryAttempt | internal/leasequeue/queue.go:236-241 | failed exactly when the attempt limit of leases ended without a success; the recorded error is the last one's and not empty |
| LeaseTheorems.TerminalForever | internal/leasequeue/queue.go:337-342 | a completed or failed record never changes again |
| LeaseTheorems.ReachedChronological | internal/leasequeue/queue.go:170-215 | a clock that never goes back gives a log in time order |
| LeaseTheorems.RunFresh | internal/leasequeue/queue.go:183 | a generator that does not repeat gives distinct lease IDs in the log |
| LeaseTermination.WorkIsBounded | internal/leasequeue/queue.go:181-247 | n tasks cost at most maxAttempts * n claims, and twice that many claims, reports and expiries together |
| LeaseTermination.ClaimMeasure | internal/leasequeue/queue.go:162-201 | a claim by a named worker makes progress exactly if some task is queued or its lease has run out, and never sets anything back |
| LeaseTermination.UsefulClaimsRunOut | internal/leasequeue/queue.go:162-378 | over any operations but enqueues, claims made when there is such work are at most (maxAttempts + 1) * n |
| LeaseTermination.WhenAClaimDoesNotCount | internal/leasequeue/queue.go:170-200 | claims find work, or nothing left to do, unless some task is open and every open task is under a lease in force |
| LeaseTermination.ClaimingDrains | internal/leasequeue/queue.go:162-378 | over any operations but enqueues, once (maxAttempts + 1) * n claims were made that are not of that last kind, every task is terminal |
| LeaseTermination.SpacedClaimsDrain | internal/leasequeue/queue.go:162-378 | that many claims, each a lease duration after the one before, end every task though nobody ever renews or reports |
| LeaseSettling.SettleIsEager | internal/leasequeue/queue.go:356-378 | settling gives each task the record of a queue that expires on time; returning tasks join in enqueue order |
| LeaseSettling.SettlingTwice | internal/leasequeue/queue.go:356-378 | settling early and again later gives the tasks of settling once later; the queue is a permutation, and equal if both times are |
| LeaseSettling.ClaimSettlesFirst | internal/leasequeue/queue.go:170-171 | a claim does and answers on the unsettled queue what it does on the settled one |
| LeaseSettling.AcceptanceIgnoresLaziness | internal/leasequeue/queue.go:332-354 | Renew and Complete accept exactly when they would on the settled queue |
| LeaseSettling.CompleteCommutesWithSettling | internal/leasequeue/queue.go:219-247 | report then settle, and settle then report, give the same tasks |
| LeaseSettling.RenewCommutesWithSettling | internal/leasequeue/queue.go:203-215 | the same for renewals |
| LeaseSettling.WhenAnswersDiffer | internal/leasequeue/queue.go:336-352 | the answer to a report differs from the settled queue's exactly when the target's lease is due and its attempts are spent, or the lease ID is right and the worker is not |
| LeaseSettling.WhenRenewalsDiffer | internal/leasequeue/queue.go:336-352 | the same for the answer to a renewal |
| Wire.ClaimAnswerIsTrue | internal/coordinator/pull.go:17-63 | with any calls between expiry and claim: a claim is refused exactly for a malformed worker ID; a worker told of a task holds exactly that lease, on a record with the job, kind and input it is told; "no task" means nothing waits |
| Wire.ReportTaken | internal/coordinator/pull.go:91-149 | a well-formed report is answered 200 exactly if it passes the size and identifier checks and its sender holds the lease before the deadline; then it completes, requeues or fails the task by its error and the attempts made |
| Wire.RefusedReport | internal/coordinator/pull.go:97-149 | the whole answer to a report that is not taken: 413 exactly if only its texts are too long, 400 for any other failed check, else 404 for no such task, and 409 by the record: completed, failed, stale, or rejected for the wrong worker |
| Wire.FinishedTaskTells | internal/coordinator/pull.go:291-306 | an acceptable report on a terminal task is answered 409 with how it ended and changes nothing |
| Wire.AnswerIsTrue | internal/coordinator/pull.go:116-147 | every report is resolved; "completed" and "failed" are true of the task; an answer of 200 means that this report ended the reporter's own lease; every other answer at most expired the target |
| Wire.RenewAnswerIsTrue | internal/coordinator/pull.go:65-89 | a renewal is answered 200, with the expiry the lease then has, exactly to the holder before the deadline; every other well-formed one is told by the task's record why not, status code included, and changes at most its own overdue lease |
| Protocol.ResultsTakenOnce | internal/worker/pull.go:221-258 | over a network that loses, delays and repeats, each lease's result is taken at most once; after an answer that the task ended, every acceptable report on it, by anyone, is answered 409 with the same ending, and "requeued" is only ever a 200 |
| Protocol.ConcludedForever | internal/worker/pull.go:239-256 | a worker that stopped with "completed" or "failed" was told the truth, and the task record is the same in every later state |
| Protocol.WhoseResultWasKept | internal/coordinator/pull.go:116-147 | in any run a result is the one on record exactly if it is an acceptable success and some delivery of it came while its sender held the lease, before the deadline |
| Protocol.RenewedResultIsTaken | internal/worker/pull.go:161-185 | through any traffic, a result delivered while its renewals keep the lease is taken, and completes the task if it is a success |
| Protocol.LossilyRenewedResultIsTaken | internal/worker/pull.go:161-219 | the same with the worker's ticker over a network that never loses two renewals in a row |
| Protocol.DroppedResultAnsweredCompleted | internal/coordinator/pull.go:293-294 | a run in which a dropped result is answered "completed" |
| Worker.SubmitUntilResolved | internal/worker/pull.go:221-258 | the same request is sent until the first answer that is not a 401, whose status is returned; the waits are the backoff |
| Worker.RenewLoop | internal/worker/pull.go:187-219 | one renewal a tick, through errors, until the first answer other than "renewed" |
| Worker.LoopFollowsLease | internal/worker/pull.go:203-217 | of the coordinator's answers exactly those to a well-formed renewal that arrives while the worker holds the lease keep the loop going; the lease then runs a whole duration more |
| Worker.LossyTickerKeepsRenewing | internal/worker/pull.go:203-217 | over a network that never loses two renewals in a row every renewal that arrives is answered "renewed", so the loop never stops by itself |
| Worker.RunSlot | internal/worker/pull.go:113-159 | after each claim: backoff by failures in a row; execution if the answer says that a task is available and carries it; else the claim interval |
| Worker.SlotFollowsCoordinator | internal/worker/pull.go:113-159 | of the coordinator's answers exactly those to a malformed worker ID count as failures, and a slot executes exactly when it was leased a task |
| Worker.FailuresAreInARow | internal/worker/pull.go:113-159 | the failures that decide a wait are the claims that failed since the last one that did not |
| Worker.BackoffStep | internal/worker/pull.go:370-376 | the code's doubling step computes half a second doubled k times, capped at eight seconds |
| Worker.BackoffTable | internal/worker/pull.go:370-376 | the waits are 0.5, 1, 2, 4 and 8 seconds |
| Worker.BackoffSettles | internal/worker/pull.go:370-376 | from the fifth failure in a row the wait is eight seconds |
| Renewal.RenewInterval | internal/worker/pull.go:188-195 | a third of the remaining lease, within half a second and five seconds for any reading of the worker's clock |
| Renewal.Interval | internal/worker/pull.go:188-195 | the bounds of that interval, and that three of them fit in any remaining lease of at least 1.5 s |
| Renewal.IntervalExactly | internal/worker/pull.go:188-195 | half a second up to a remaining lease of 1.5 s, five seconds from 15 s on, a third in between |
| Renewal.StillHeld | internal/leasequeue/queue.go:203-215 | before the deadline only the holder's report ends a lease and only its renewals move the deadline |
| Renewal.RenewalsKeepLease | internal/leasequeue/queue.go:345-352 | if each renewal arrives before the deadline the last one set, the lease survives any other traffic |
| Renewal.LossyTickerKeepsLease | internal/worker/pull.go:187-219 | without skew, with 1.5 s remaining, delays under a third of it and never two losses in a row, the lease is held through any traffic until the next renewal can arrive, for any number of ticks |
| Renewal.RenewingKeepsLeaseExactly | internal/leasequeue/queue.go:345-352 | through any traffic before the last deadline, the lease is held to the end if and only if each renewal arrived before the deadline the previous one set |
| Renewal.EveryRenewalIsGranted | internal/leasequeue/queue.go:203-215 | and then each of them is granted when it arrives |
| Renewal.WithoutRenewals | internal/leasequeue/queue.go:345-352 | an unrenewed lease, through any traffic, serves its holder's calls exactly before its deadline |
| Renewal.WhenTwoLossesAreTooMany | internal/worker/pull.go:188-217 | for any lease longer than half a second whose first renewal came at once and whose next two were lost: the fourth tick's renewal, and a report, is accepted exactly if it comes less than the duration minus three periods after the tick |
| Renewal.SkewedTickerKeepsLease | internal/worker/pull.go:187-219 | whatever the worker's clock says, if all renewals arrive, a lease longer than 5 s plus both delays is held |
| Renewal.ShortLeaseCannotBeRenewed | internal/worker/pull.go:190-192 | a lease of at most half a second can never be renewed, through any traffic |
| Views.CountTaskStates | internal/coordinator/status.go:63-78 | one pass gives the count of each state, and the four sum to the total |
| Views.StatsAgree | internal/leasequeue/queue.go:311-330 | the queue's statistics over its map are the counts over its ordered snapshot |
| Views.PullJob | internal/coordinator/pull.go:225-283 | no ID is a bad request and no tasks are not found; otherwise the fold gives: terminal if all are, failed if any failed, running if any was tried, else queued |
| Views.JobResponseMeans | internal/coordinator/pull.go:240-283 | each entry shows its record, in order; the job is completed exactly if all tasks are, failed exactly if all are terminal and one failed, running exactly if one is not and one was tried |
| Views.MonitorStateMeans | internal/coordinator/monitor.go:77-86 | the same verdicts from the monitor's counts, and queued exactly if every task is |
| Views.DerivationsAgree | internal/coordinator/monitor.go:77-86 | on well-formed records, job response, monitor and client agree on when and how a job ended; the one other disagreement is exactly characterised |
| Jobs.ReachedJobsAgree | internal/coordinator/pull.go:274-282 | the same on every job of every reachable queue |
| Jobs.TriedJobIsSeenDifferently | internal/coordinator/monitor.go:82-85 | a reachable job that clients are told is running and the monitor shows as queued |
| Monitor.GroupByJob | internal/coordinator/monitor.go:27-73 | global counts, job order of first appearance, and each job's counts, tasks with start and duration, and start, from one pass |
| Monitor.MonitoredTaskMeans | internal/coordinator/monitor.go:38-71 | a monitored task shows its record; the time running counts from its lease's issue, and the reported duration replaces it once there is a result |
| Monitor.JobsSeenInOrder | internal/coordinator/monitor.go:27-35 | of two listed jobs, the first task of the earlier one comes before every task of the other |
| Monitor.EarliestIssueIsLeast | internal/coordinator/monitor.go:52-58 | a job's start is the least issue time of its leases in force, if it has any |
| Monitor.Snapshot | internal/coordinator/monitor.go:73-95 | the number of jobs, and as current job, with its elapsed time, the last one, in order of appearance, that has not ended |
| Monitor.CurrentJobMeans | internal/coordinator/monitor.go:75-95 | the current job is the last listed with an unended task, shown by that job's counts, state and times, and there is none exactly if all have ended |
| Monitor.JobCountsSumUp | internal/coordinator/monitor.go:27-73 | in every state the jobs' counts add up to the global count |
| Monitor.JobListingIsOfJob | internal/leasequeue/queue.go:273-280 | the queue's list of a job and the monitor's group of it are the same list |
| Monitor.ActiveLeases | internal/coordinator/status.go:25-32 | the status tally is each worker's number of held leases |
| Monitor.CountHeld | internal/coordinator/monitor.go:104-108 | the monitor's per-worker pass computes the same number |
| Monitor.HeldByCounts | internal/coordinator/monitor.go:104-108 | that number is the size of the set of tasks the worker holds under a lease |
| Monitor.RecentWorkers | internal/coordinator/monitor.go:97-112 | workers older than the cutoff are forgotten; the others are listed once, sorted, with their held leases |
| Monitor.JobFromResponse | internal/monitor/job.go:12-72 | counters, and for each entry of the response, in order, its ID, key, state, worker, attempts, output, error and duration; times; one entry per named worker, strictly sorted, counting that worker's tasks |
| Monitor.ContributionMeans | internal/monitor/job.go:49-65 | a worker's entry: the sizes of the sets of its tasks that run, are completed, and failed |
| Monitor.ContributionsSumUp | internal/monitor/job.go:49-65 | if every task that is not queued names a worker, the workers' counts add up to the job's |
| Monitor.ClientAgreesWithQueue | internal/monitor/job.go:23-70 | for a job of a reachable queue the client's counters are the queue's counts, and contributions add up to running, completed and failed |
| Jobs.OnlyEnqueueAdds | internal/leasequeue/queue.go:135-247 | no operation but an enqueue changes which tasks there are or what they are |
| Jobs.JobOnlyAdvances | internal/coordinator/pull.go:274-282 | once a job is submitted, the state told to clients only moves from queued to running to terminal, and a terminal answer is final in every record |
| Submission.ValidateTasks | internal/workload/manifest.go:102-130 | accepts exactly 1 to 1000 tasks with distinct non-blank keys and inputs within bounds |
| Submission.ValidateSimpleInputs | internal/workload/manifest.go:134-147 | accepts exactly 1 to 1000 inputs within bounds; repetitions and empty inputs are allowed |
| Submission.CollisionMeansBeaten | internal/coordinator/pull.go:194-203 | an enqueue of a submission fails exactly when another with the same clock reading was first, and then it was its first one |
| Submission.SameReadingAborts | internal/coordinator/pull.go:194-203 | a run in which that happens, for any clock reading and any tasks |
| Submission.SubmissionsDoNotMix | internal/coordinator/pull.go:194-203 | under any interleaving an aborted submission leaves nothing, and any other owns its whole job: its tasks so far, in order, each with its own ID, key and input, and the submission's kind and job |
| Submission.WorkersGetWhatWasSubmitted | internal/coordinator/pull.go:17-63 | a worker told of a task is told the ID, job, kind and input of one task of one submission |
| Submission.BuildManifestResults | internal/cli/results.go:55-79 | job ID, state and one line per task in order: key, state, attempts, worker, the decoded output without its error fields, and the probe's error if it names one, else the execution error; or an error exactly when some output does not decode |
| Submission.TerminalViewIsLastLease | internal/coordinator/pull.go:255-271 | what clients see of a terminal task is its last lease: worker, number, and report or expiry |
| Submission.ExportFollowsManifest | internal/cli/results.go:55-79 | the export of an ended job lists exactly the manifest's keys in manifest order, without duplicates, each terminal with 1 to maxAttempts attempts, with worker, output and error of the task's last lease as that lease's report gives them |
| Deployment.DeploymentReached | internal/coordinator/pull.go:17-208 | every run of submissions, claims, renewals, deliveries and expiries keeps the invariants of both the protocol and the submissions |
| Deployment.RecordedReportWasDelivered | internal/coordinator/pull.go:116-126 | every report in a task's history was delivered, by the worker it names, while that worker held the lease |
| Deployment.ExportedSuccessWasDelivered | internal/cli/results.go:55-79 | every completed line of the export is a success that some worker delivered while it held the task's lease: worker, output and error are that request's |
| Submission.Execute | internal/cli/submit.go:231-273 | polling stops at the first error or terminal answer and ends the job only for the latter; the progress kept is that of the last answer decoded |
| Submission.ResultsWrittenAtTheEnd | internal/cli/submit.go:275-284 | whatever the polls, the client's counter test writes results exactly if its wait ended with the job |
| Deployment.WrittenFileListsManifest | internal/cli/submit.go:231-295 | whatever the polls of a run returned and wherever the wait stopped, results are written exactly if the client saw the job end, and they list the manifest in order, each line the outcome of the last lease, each success one delivered under it |
| Identifiers.ValidateSafe | internal/types/validation.go:55-72 | accepts exactly non-empty names within the limit over letters, digits, dot, underscore and dash |
| Identifiers.GeneratedForms | internal/coordinator/pull.go:194-197 | what the generated job, task and fallback lease IDs look like, digit for digit |
| Identifiers.TaskIdInjective | internal/coordinator/pull.go:194-197 | different submissions or indexes never give one task ID |
| Identifiers.JobIdInjective | internal/coordinator/pull.go:194 | different clock readings never give one job ID |
| Identifiers.GeneratedTaskIdAccepted | internal/types/validation.go:34-36 | every task ID generated from a 64-bit clock passes the check of renew and result requests |
| Identifiers.GeneratedLeaseIdAccepted | internal/leasequeue/queue.go:395-401 | both forms of generated lease ID pass theirs |
| Identifiers.FallbackLeaseIdInjective | internal/leasequeue/queue.go:400 | fallback lease IDs repeat only if clock and counter do |
| Fingerprint.FormatFingerprint | internal/crypto/tls.go:381-387 | the loop and join compute byte pairs separated by colons |
| Fingerprint.FormatShape | internal/crypto/tls.go:381-387 | every third character of the print is a colon, the others are the digits in order |
| Fingerprint.NormalizeExactly | internal/crypto/tls.go:367-379 | a text is read as a fingerprint exactly if, without surrounding blanks, it is its digits in order in either case with colons anywhere |
| Fingerprint.FormatThenNormalize | internal/crypto/tls.go:367-387 | a printed fingerprint parses back to itself |
| Fingerprint.TruncatedRecord | internal/crypto/tls.go:326-363 | any beginning of a written record reads as that fingerprint or as an error |
| Trust.TrustFile.ReadTrustRecord | internal/crypto/tls.go:326-339 | a missing file is an empty record; an unreadable or malformed one, even a blank one, is an error |
| Trust.TrustFile.WriteTrustRecord | internal/crypto/tls.go:341-365 | the file is untouched, a beginning of the record, or the record, and only the last counts as success |
| Trust.TrustVerifier.VerifyConnection | internal/crypto/tls.go:304-324 | verdict, verifier and file after a handshake, with the fingerprint printed and parsed on the way |
| Trust.HandshakeContract | internal/crypto/tls.go:304-324 | when each verdict is given, what is left to save, and what the file then holds |
| Trust.VerdictsOverRuns | internal/crypto/tls.go:304-324 | in any run a client accepts exactly the coordinator it was configured for, provided a pending save completes; the other verdicts are decided as exactly |
| Trust.AcceptedAgain | internal/crypto/tls.go:313-323 | once it accepted a coordinator a client accepts it ever after, whatever happens between and whether or not anything can be written |
| Trust.NewCoordinatorClientConfig | internal/crypto/tls.go:270-302 | which errors, an empty path first, which trusted fingerprint, and whether the record is to be updated |
| Trust.ConfigureContract | internal/crypto/tls.go:270-302 | an explicit fingerprint in any accepted spelling gives a client for it whatever the record holds, to be saved exactly if the record is not it; without one the record decides, and each failure has its own error |
| Trust.WriteIsNeverMisread | internal/crypto/tls.go:341-365 | however a write ends, the file reads as before, as the new fingerprint, or as an error |
| Trust.AcceptedIsTrusted | internal/crypto/tls.go:313-315 | in any run a handshake is accepted only from the coordinator the client was configured for |
| Trust.NoTrustOnFirstUse | internal/crypto/tls.go:283-285 | starting without a record, a client given no fingerprint follows only one confirmed by a client that was |
| Trust.RecordProvenance | internal/crypto/tls.go:316-321 | in any run a readable record is the first one or a fingerprint confirmed under an explicit request for it |
| Trust.RecordChangesOnlyOnRequest | internal/crypto/tls.go:286-290 | the record changes only on a matching handshake, under an explicit fingerprint that the record did not give when the client was configured |
| Trust.SavedIdentityIsInherited | internal/crypto/tls.go:316-321 | after a successful save a client given no fingerprint accepts exactly that coordinator and writes nothing |
| Trust.FailedSaveIsRetried | internal/crypto/tls.go:316-320 | a failed save leaves the verifier as it was, and the next good one completes it |
| Identity.FileStore.WriteExclusive | internal/crypto/tls.go:195-209 | an existing file is never opened; a new one gets all of the data or a beginning of it |
| Identity.FileStore.PersistIdentity | internal/crypto/tls.go:177-193 | key first, then certificate, each step's failure ending it |
| Identity.FileStore.LoadOrCreate | internal/crypto/tls.go:47-113 | files and result of one startup: every error, load, migration and creation |
| Identity.StartExtends | internal/crypto/tls.go:195-209 | a startup overwrites and removes nothing and creates only the two identity files |
| Identity.InstallContract | internal/crypto/tls.go:177-209 | what installing a pair leaves, file by file, and answers: the certificate is only begun after the whole key was written |
| Identity.MigrationContract | internal/crypto/tls.go:66-98 | a startup over empty paths with a legacy file: the first reason to fail that applies, or exactly the legacy pair installed |
| Identity.CreationContract | internal/crypto/tls.go:99-113 | a startup over empty paths without one: the generated pair installed and read back, or why not |
| Identity.SuccessIsOnDisk | internal/crypto/tls.go:47-113 | however a success was reached, its fingerprint is that of the pair now on disk |
| Identity.ExistingFilesDecide | internal/crypto/tls.go:60-65 | an existing pair is only loaded, half a pair only refused, and neither is touched |
| Identity.WhyLoadingFails | internal/crypto/tls.go:47-65 | which error missing paths and an existing or partial identity are refused with, certificate before key |
| Identity.IdentityIsStable | internal/crypto/tls.go:47-113 | over any startups with any failures and crashes, all that succeed return the same fingerprint |
| Identity.SuccessIsDurable | internal/crypto/tls.go:63-65 | after one success, any startup that can inspect and read the two files loads that identity |
| Identity.UndisturbedStartSettles | internal/crypto/tls.go:47-113 | after one startup around which nothing fails, every later one that can read the two files loads the fingerprint to be expected of the first: of the pair on disk, of the legacy pair, or of the generated one |
| Identity.PartialIsPermanent | internal/crypto/tls.go:60-62 | half an identity fails every later startup and is never completed or replaced |
| Identity.MigrationKeepsIdentity | internal/crypto/tls.go:75-98 | from a legacy identity alone, every success is that identity, if no beginning of its certificate is a different one |

## Left out

- HTTP, TLS, JSON, bearer tokens, audit logging: messages are datatypes, a decoder is an arbitrary partial function, a 401 is an answer the worker retries.
- Task execution: an arbitrary result; the executors themselves, their networking and sleeping are not part of this model.
- Terminal interface, flag parsing, help and formatting: presentation.
- Event recorder, worker tracker, connection-state messages: nothing here depends on them.
- Key generation, X.509, SHA-256: functions given from outside; collisions are not excluded.
- Time values that overflow or carry a monotonic part, and counters that overflow: integers are unbounded.
- A lease issued at Go's zero time: the monitor would take its job for one not started; a missing start is an option here.
- The rest of the monitor snapshot (addresses, fingerprint, uptime, events) and of the status response: copied fields.
- Iteration over Go maps is modelled as an arbitrary order, and the library sort as insertion in order.
- Strings that are not valid UTF-8; in fingerprints, lengths count characters and upper-casing changes ASCII letters only, which accepts the same strings.
- How JSON encodes a request: a result's encoded size is any number; those of claims and renewals never reach their limit once the identifiers are within theirs.
- Path selection, and the branch structure of handlePullSubmit before its enqueue loop: single-branch checks; the loop is modelled for any non-empty task list.
- Several coordinators starting on one directory at the same time, and other programs editing the identity files or the trust record between steps.
- Renewal.LossyTickerKeepsLease: as the theorem is stated, ticks are exact and a loss is noticed before the next tick; late ticks and slow errors are not modelled.
- Identity.MigrationKeepsIdentity: certificate and key paths are taken to differ, as the server's are.
