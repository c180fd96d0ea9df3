# AMLGuard: a verified model

AMLGuard runs anti-money-laundering investigations with a language model under human review, and
runs experiments with many such sessions on leased jobs under a cost ceiling. This project models
its four cores in Dafny and proves properties over all inputs and all runs.

1. **The experiment queue** as a protocol between any number of workers. The in-memory queue is a
   class with the same five maps and set, proved against functions on its value (`InMemoryQueue`);
   the Postgres queue is a class whose methods each are one committed or rolled-back transaction
   (`RowQueue`). Runs interleave any calls by any workers, stale ones included (`QueueProtocol`,
   `QueueLeases`, `RowProtocol`). Both queues refine one abstract cost ledger (`CostLedger`).
   `WorkerSystem` and `RowWorkers` interleave the statements of many workers (`WorkerStages`) on either
   queue with schedule calls, stops and crashes of workers, and prove that each completion really holds
   its reservation as long as workers that are alive keep their leases; jobs of crashed ones are handed
   out again once their leases have run out. `QueueWitness` exhibits what a stale worker can do.
   `ExperimentWorker` is the worker's own loop, `Scheduling`, `RowScheduling` and `SessionKeys` the
   design of an experiment and its keys.
2. **The investigation graph**: five stages, two interrupts, a rework loop, an information loop,
   failure at any point, re-runs of failed cases. The repository's case and the thread's checkpoint
   are two separate states (`InvestigationGraph`). The repository, the tools and the engine are
   classes updated in place (`CaseRepository`, `InvestigationEngine`), proved against the functions.
   `InvestigationStages` and `InvestigationProtocol` prove what holds whenever a thread rests, over
   any sequence of calls on any number of cases; the language model and the people answer anything.
   `CaseMeanings` says what controls, events, reviews and readings stand for, `InformationRounds` joins
   the graph to the policy theorems, `CaseAccess` adds actors and roles.
3. **Policy retrieval and applicability**: `PolicyRetrieval`, `RetrievalProperties`,
   `PolicyApplicability`, `FactMeanings`, `PolicySelection`, with a counterexample in
   `PurposeWitness`. The graph calls the selection as a service, so its safety theorems hold for any
   selection at all.
4. **Deterministic checks**: the hash-chained audit log (`AuditChain`), the alert rules and the
   injector that must trigger them (`AlertRules`, `AlertMeanings`, `Injection`, `InjectionMeanings`),
   and the capping of compliance verdicts (`Compliance`, `ComplianceProperties`).

Conventions. A function named `...Spec`, or one that a method's `ensures` names, says what an
operation does to the state; the methods are proved equal to it and the lemmas are about it. Lemmas
named `...Means`, `...Exactly` or `...Fact` say what such a function stands for without naming it,
in the terms of jobs, rows, transactions, evidence items, citations and roles. Error returns stand
for exceptions. Randomness, clocks, hashes, the language model, human input and the place where a
stage fails are parameters, so every statement holds for all of them. Lists that the program sorts
only for display are sets.

Where the code differs from what its names suggest, the model follows the code:

- `complete` and `fail` check no lease, so SUCCEEDED is not final: `QueueLeases.SucceededEndsExactly`
  and `RowProtocol.SucceededEndsExactly` say exactly when it is left. In the row-based queue a late
  heartbeat of the recorded owner also turns a finished row back to RUNNING.
- Spent plus reserved can pass the ceiling once a stale worker completes a job twice
  (`QueueWitness.StaleCompletionOvercommits`). It stays within the ceiling at every moment of a run if
  and only if each accepted completion fits the headroom (`QueueProtocol.RunSolventExactly`,
  `RowProtocol.RunSolventExactly`), and otherwise passes it by no more than the excess
  (`QueueProtocol.OvercommitBounded`).
- Different configuration ids can share a session key, exactly when one extends the other with a
  colon (`SessionKeys.ConfigurationsClashExactly`); repeated scenario ids give several jobs one key
  in memory (`Scheduling.NewKeysDistinctExactly`), while the row-based queue refuses them
  (`RowScheduling.ScheduleAcceptedExactly`).
- A second compliance pass changes no verdict but overwrites the recorded incoming status: the two
  outputs coincide if and only if every listed control had come with the status that its governing rule
  allows (`ComplianceProperties.SecondPassIdenticalExactly`).
- A supplied blank `purpose` can bring back a fact and make a second policy selection fail
  (`PurposeWitness.BlankedPurposeCanFail`); `PolicySelection.ReselectionFailsExactly` says when.
- A review sent while information is awaited is not refused: it fails the case
  (`InvestigationProtocol.EarlyReviewFailsTheCase`); `InvestigationProtocol.ReviewFailsExactly` says
  when an accepted review does. Edited-and-approved text is released as written
  (`InvestigationProtocol.EditedTextIsReleasedAsWritten`).
- Administrators bypass every assignment, so they can approve a case of their own
  (`CaseAccess.AdministratorsCanApproveTheirOwn`); without them the approver is independent, and with
  them exactly as long as each call is proper (`CaseAccess.RunSeparatesExactly`).

## Model

| member | source | states |
|---|---|---|
| `CostLedger.CommittedMoves` | src/amlguard/experiments/queue.py:128-167 | How reserving, settling and releasing move spent plus held: a settlement replaces its reservation by the cost, whatever was held |
| `CostLedger.SettleKeepsCeilingExactly` | src/amlguard/experiments/queue.py:128-154 | An accepted completion keeps spent plus held within the ceiling if and only if what it takes beyond its reservation fits the headroom |
| `CostLedger.StepSolventExactly` | src/amlguard/experiments/queue.py:128-167 | After any operation the ledger is within its ceiling if and only if the operation fits the headroom: only an accepted settlement can fail to |
| `CostLedger.SpentWithinCeiling` | src/amlguard/experiments/queue.py:128-154 | Over any operations, spending alone never passes the ceiling |
| `CostLedger.OvercommitBoundedByExcess` | src/amlguard/experiments/queue.py:128-167 | Over any operations, the overshoot is at most the sum of what settlements took beyond their reservations |
| `SessionKeys.RawKeyInjective` | src/amlguard/experiments/queue.py:19-23 | For colon-free configuration ids the text before hashing determines experiment, configuration, scenario and repetition |
| `SessionKeys.SessionKeyInjective` | src/amlguard/experiments/queue.py:19-23 | Two session keys are equal if and only if the sessions are the same or just these two texts share a hash |
| `SessionKeys.ConfigurationsClashExactly` | src/amlguard/experiments/queue.py:19-23 | Two different configuration ids can share a key if and only if one continues the other with a colon |
| `SessionKeys.DesignMember` | src/amlguard/experiments/queue.py:66-76 | A cell is in the design if and only if it is a configuration, a listed scenario and a repetition from 1 to the count |
| `SessionKeys.DesignDistinct` | src/amlguard/experiments/queue.py:66-76 | The design has configurations x scenarios x repetitions places, without repeats for distinct inputs |
| `SessionKeys.EstimateMeans` | src/amlguard/experiments/queue.py:26-35 | An estimate is the session cost of the first configuration with the id, plus the evaluator's cost if one is configured |
| `SessionKeys.EstimateFailsExactly` | src/amlguard/experiments/queue.py:26-29 | There is no estimate if and only if no configuration has the id |
| `InMemoryQueue.BuildCells` | src/amlguard/experiments/queue.py:66-76 | The three nested loops produce exactly the design |
| `InMemoryQueue.InMemoryExperimentQueue.Schedule` | src/amlguard/experiments/queue.py:64-91 | New jobs for the unknown keys of some shuffle of the design; everything else unchanged |
| `InMemoryQueue.InMemoryExperimentQueue.Claim` | src/amlguard/experiments/queue.py:93-118 | One scan that recovers expired leases it passes and leases the first ready job; whole new state |
| `InMemoryQueue.InMemoryExperimentQueue.Heartbeat` | src/amlguard/experiments/queue.py:120-126 | Extends the lease of the owner only; errors for unknown jobs and other workers |
| `InMemoryQueue.InMemoryExperimentQueue.ReservedFor` | src/amlguard/experiments/queue.py:145-149 | The loop adds up exactly the reservations of the experiment |
| `InMemoryQueue.InMemoryExperimentQueue.ReserveCost` | src/amlguard/experiments/queue.py:141-154 | Reserves once per key within the ceiling, else stops the experiment and refuses |
| `InMemoryQueue.InMemoryExperimentQueue.Complete` | src/amlguard/experiments/queue.py:128-139 | Releases the reservation first, then charges, stores the result if new and finishes the job, or stops and refuses |
| `InMemoryQueue.InMemoryExperimentQueue.Fail` | src/amlguard/experiments/queue.py:156-167 | Releases the reservation; RETRY_WAIT exactly if retryable with attempts left, else FAILED; owner and lease gone, the back-off set |
| `InMemoryQueue.UnknownMeans` | src/amlguard/experiments/queue.py:120-167 | Calls about an unknown experiment or job raise, and what they may have done before |
| `InMemoryQueue.FailMeans` | src/amlguard/experiments/queue.py:156-167 | After a failure report on a known job: RETRY_WAIT if and only if retryable with attempts below the maximum, else FAILED; no owner, no lease, 2^attempts seconds to wait; the reservation gone and nothing else moved |
| `ExperimentModel.WaitDoubles` | src/amlguard/experiments/queue.py:159-164 | The wait starts at one second and doubles with each attempt |
| `InMemoryQueue.CompleteMeans` | src/amlguard/experiments/queue.py:128-139 | A completion is accepted if and only if its cost fits beside what was spent; then cost, first result and SUCCEEDED, else only a stop; the reservation gone either way |
| `InMemoryQueue.ReserveMeans` | src/amlguard/experiments/queue.py:141-154 | Unless the session holds one, a reservation is made if and only if it fits beside what was spent and is held; else only a stop |
| `InMemoryQueue.HeartbeatMeans` | src/amlguard/experiments/queue.py:120-126 | Accepted from the owner only, it moves the end of the lease and nothing else |
| `QueueProtocol.RunRefinesLedger` | src/amlguard/experiments/queue.py:64-173 | Every run of the in-memory queue is, for each experiment, a run of the abstract cost ledger |
| `QueueProtocol.SpentNeverPassesCeiling` | src/amlguard/experiments/queue.py:128-154 | With any workers, stale ones included, spending never passes the ceiling |
| `QueueProtocol.HeldRunsStaySolvent` | src/amlguard/experiments/queue.py:128-154 | While each completion is covered by its reservation, spent plus reservations stay within the ceiling and the ceiling branch of complete is unreachable |
| `QueueProtocol.RunSolventExactly` | src/amlguard/experiments/queue.py:128-167 | Spent plus reservations stay within the ceiling at every moment of a run if and only if each accepted completion of the run takes no more beyond its reservation than the headroom left |
| `QueueProtocol.OvercommitBounded` | src/amlguard/experiments/queue.py:128-167 | Without that hypothesis the overshoot is bounded by what completions took beyond reservations |
| `QueueWitness.StaleCompletionOvercommits` | src/amlguard/experiments/queue.py:128-139 | A concrete run in which a second completion of one job overcommits the experiment and blocks a job that holds a reservation |
| `QueueProtocol.ResultsPersist` | src/amlguard/experiments/queue.py:136-136 | A stored result is never replaced or removed by any later operation |
| `QueueLeases.AttemptsBounded` | src/amlguard/experiments/queue.py:93-118 | Every job's attempts are at most its maximum plus the number of its lease recoveries |
| `QueueLeases.GrantsAreAttempts` | src/amlguard/experiments/queue.py:93-118 | The attempt counters together record exactly the grants that were made |
| `QueueLeases.GrantsBounded` | src/amlguard/experiments/queue.py:93-167 | Claims are bounded by the sum of the attempt limits plus recoveries |
| `QueueLeases.GrantsNeverOverlap` | src/amlguard/experiments/queue.py:93-126 | Under a monotone clock a job is granted again only after the earlier grant, as extended, has expired or was released |
| `QueueLeases.LaterGrantWaits` | src/amlguard/experiments/queue.py:93-126 | Between two grants of a job some failure report released it, or the lease end has passed |
| `QueueLeases.EmptyClaimIsComplete` | src/amlguard/experiments/queue.py:93-118 | A claim that returns nothing found no ready job and put every expired lease of an unstopped experiment back to PENDING |
| `QueueLeases.SecondClaimFindsExpired` | src/amlguard/experiments/queue.py:93-118 | An immediate second claim grants a job exactly when some lease had expired |
| `QueueLeases.ClaimIsComplete` | src/amlguard/experiments/queue.py:93-118 | Both, in every state reachable from the empty queue under a monotone clock |
| `QueueLeases.SwitchMeans` | src/amlguard/experiments/queue.py:169-173 | Stopping and resuming set and clear the stop and nothing else |
| `QueueLeases.ClaimHandsOut` | src/amlguard/experiments/queue.py:93-118 | The first job of the scan that is pending or waiting, due and unstopped is handed out, leased to the worker for one more attempt |
| `QueueLeases.NothingDueNothingHandedOut` | src/amlguard/experiments/queue.py:93-118 | Where no job is due, nothing is handed out |
| `QueueLeases.ClaimPutsBack` | src/amlguard/experiments/queue.py:111-117 | A job passed by the scan is put back to PENDING exactly when it is unstopped and its lease has run out, and else left as it is |
| `QueueLeases.FailedJobIsTriedAgain` | src/amlguard/experiments/queue.py:93-167 | After a retryable failure with attempts left, whatever happens to other jobs, a claim after the back-off that meets the job first hands it out again |
| `QueueLeases.SucceededEndsExactly` | src/amlguard/experiments/queue.py:128-167 | A finished job leaves SUCCEEDED exactly when somebody reports it as failed |
| `ExperimentWorker.Process` | src/amlguard/experiments/worker.py:261-307 | Reserve, heartbeat, handle, then complete or fail; the queue's new state for every outcome |
| `ExperimentWorker.ProcessEnds` | src/amlguard/experiments/worker.py:261-307 | SUCCEEDED exactly if reserved, owned, returned, charged and the metrics readable; RETRY_WAIT exactly if a permitted handler raised a retryable error with attempts left; else FAILED; no reservation is left |
| `ExperimentWorker.ProcessCharges` | src/amlguard/experiments/worker.py:261-307 | The cost is charged and the result stored exactly for a permitted attempt that returned and fits, even if its metrics then fail it |
| `ExperimentWorker.RunOnce` | src/amlguard/experiments/worker.py:309-314 | One claim and, if granted, one processing; false exactly when nothing was granted |
| `ExperimentWorker.RunOnceDecreases` | src/amlguard/experiments/worker.py:309-314 | Without expiries each successful round uses up attempt budget |
| `ExperimentWorker.Drain` | src/amlguard/experiments/worker.py:309-333 | Repeating rounds terminates within the attempt budget, for fresh jobs the sum of the attempt limits; afterwards no lease is past its time, and only jobs put back because theirs was can be ready |
| `WorkerSystem.RunsStaySound` | src/amlguard/experiments/worker.py:225-307 | Many interleaved workers, crashes and schedule calls, claims included that hand out the expired jobs of crashed workers: as long as live workers keep their leases, each completion holds its reservation, and none is refused for the ceiling |
| `WorkerSystem.RunsFromEmptyStaySound` | src/amlguard/experiments/worker.py:225-307 | So in every state reachable from the empty queue no experiment's spent plus reserved passes its ceiling |
| `WorkerSystem.AloneIsProcess` | src/amlguard/experiments/worker.py:261-307 | A task whose statements nobody interleaves does what one processing does |
| `Scheduling.FreshScheduleAddsExactly` | src/amlguard/experiments/queue.py:64-91 | Scheduling a fresh experiment adds one job per place of the design, if and only if no text of a cell clashes with that of an existing job |
| `Scheduling.NewJobMeans` | src/amlguard/experiments/queue.py:79-90 | A new job is pending, untried with three attempts, due at once, under its key and at its estimate |
| `Scheduling.OneJobPerCell` | src/amlguard/experiments/queue.py:64-91 | Each configuration, scenario and repetition gets exactly one job, whatever the shuffle, unless a cell of the design clashes with an existing job |
| `Scheduling.NewKeysDistinctExactly` | src/amlguard/experiments/queue.py:64-91 | The new jobs have different keys if and only if no scenario is listed twice and no two texts of the design share a hash |
| `Scheduling.RescheduleChangesNothing` | src/amlguard/experiments/queue.py:64-91 | After a schedule call and any run, scheduling the same manifest and scenarios again, in any shuffle, leaves the whole queue as it was |
| `Scheduling.ScheduleIsMove` | src/amlguard/experiments/queue.py:64-91 | Any schedule call whose design has different keys is a legal move of the interleaved workers, whatever is already queued or being worked on |
| `Scheduling.ScheduledSystemIsSound` | src/amlguard/experiments/queue.py:64-91 | A scheduled experiment starts the worker system solvent, and in its invariant if and only if no scenario is listed twice and no two texts of the design clash |
| `RowQueue.PostgresExperimentQueue.Schedule` | src/amlguard/experiments/queue.py:200-260 | A different manifest under the id and a duplicate key are refused with nothing written; else the manifest if new and one row per unknown key of some shuffle of the design |
| `RowQueue.PostgresExperimentQueue.Claim` | src/amlguard/experiments/queue.py:262-313 | Leases the first unlocked claimable row by time and id, expired leases included |
| `RowQueue.PostgresExperimentQueue.ReserveCost` | src/amlguard/experiments/queue.py:332-360 | Moves the job's and the manifest's reserved amounts together; a refusal rolls back, the stop flag included |
| `RowQueue.PostgresExperimentQueue.Complete` | src/amlguard/experiments/queue.py:362-401 | Settles row and manifest together and stores the session once; a refusal rolls back |
| `RowQueue.PostgresExperimentQueue.Fail` | src/amlguard/experiments/queue.py:403-426 | Releases the row's reservation and retries or fails by the snapshot's attempts |
| `RowProtocol.ClaimGrantsOldest` | src/amlguard/experiments/queue.py:262-313 | The row granted was unlocked, unstopped, and due or abandoned; every other such row has a later not_before, or the same and a larger id |
| `RowProtocol.ClaimLeases` | src/amlguard/experiments/queue.py:262-313 | It is leased to the worker for one more attempt and otherwise as it was |
| `RowProtocol.ClaimFindsNothingExactly` | src/amlguard/experiments/queue.py:262-313 | Nothing is granted if and only if there is no such row |
| `RowProtocol.ReserveMeans` | src/amlguard/experiments/queue.py:332-360 | Accepted if and only if the row reserves already, or the manifest is running and the amount fits; row and manifest move together |
| `RowProtocol.CompleteMeans` | src/amlguard/experiments/queue.py:362-401 | Accepted if and only if the manifest is running and the cost fits; settles row and manifest and stores a new session, or changes nothing |
| `RowProtocol.FailMeans` | src/amlguard/experiments/queue.py:403-426 | RETRY_WAIT if and only if retryable with attempts below the maximum in the worker's snapshot, else FAILED; the reservation is returned |
| `RowProtocol.HeartbeatMeans` | src/amlguard/experiments/queue.py:315-330 | The recorded owner's heartbeat extends the lease and sets RUNNING; any other is refused |
| `RowProtocol.SwitchMeans` | src/amlguard/experiments/queue.py:428-442 | Stopping and resuming set the flag and the status of the manifest and nothing else |
| `RowProtocol.IssuedMatches` | src/amlguard/experiments/queue.py:262-426 | A job handed out by an earlier claim still agrees with its row on identity |
| `RowProtocol.ReservationsAddUp` | src/amlguard/experiments/queue.py:332-426 | In every reachable state the manifest's reserved total equals the sum over its jobs, through lost leases and rollbacks |
| `RowProtocol.RunRefinesLedger` | src/amlguard/experiments/queue.py:262-440 | Every run of the row-based queue refines the same abstract ledger |
| `RowProtocol.SpentNeverPassesCeiling` | src/amlguard/experiments/queue.py:362-401 | Spending never passes the ceiling |
| `RowProtocol.HeldRunsStaySolvent` | src/amlguard/experiments/queue.py:332-401 | While each completion is covered by its reservation, zero included, the manifest stays within its ceiling and no completion is refused for it |
| `RowProtocol.GrantsNeverOverlap` | src/amlguard/experiments/queue.py:262-330 | Two grants of one row never overlap, without any assumption on the clock |
| `RowProtocol.SucceededEndsExactly` | src/amlguard/experiments/queue.py:315-426 | A finished row leaves SUCCEEDED exactly by its owner's heartbeat or a failure report |
| `RowProtocol.ResultsPersist` | src/amlguard/experiments/queue.py:362-401 | A stored session is never replaced or removed |
| `RowScheduling.ScheduleKeepsBooks` | src/amlguard/experiments/queue.py:200-260 | A schedule call keeps every balanced manifest balanced and every solvent one solvent; a new manifest starts solvent |
| `RowScheduling.ScheduleAcceptedExactly` | src/amlguard/experiments/queue.py:200-260 | A new experiment is accepted, with one row per place of the design, if and only if no scenario is listed twice and no text of the design clashes with another or with that of a row |
| `RowScheduling.RegistersMeans` | src/amlguard/experiments/queue.py:216-235 | A new manifest row starts with its ceiling, nothing spent or reserved and not stopped; a known one stays as it is |
| `RowScheduling.RescheduleChangesNothing` | src/amlguard/experiments/queue.py:216-260 | After an accepted schedule call and any run, the same manifest is accepted again and changes nothing, and a different one under its id is refused |
| `RowWorkers.ScheduleKeeps` | src/amlguard/experiments/queue.py:200-260 | Scheduling while workers are busy, accepted or refused, keeps their invariant |
| `RowWorkers.RunsStaySound` | src/amlguard/experiments/worker.py:225-307 | On rows too: with interleaved workers, crashes and schedule calls, as long as live workers keep their leases, each completion holds its reservation, and nothing but a stop refuses one |
| `RowWorkers.RunsFromEmptyStaySound` | src/amlguard/experiments/worker.py:225-307 | So in every state reachable from the empty database the books balance and no ceiling is passed |
| `RowWorkers.TaskEnds` | src/amlguard/experiments/worker.py:261-307 | On rows too: when a row ends SUCCEEDED, RETRY_WAIT or FAILED, and what it is charged |
| `AuditChain.VerifyChain` | src/amlguard/governance/audit_chain.py:47-62 | The loop reports exactly the events whose link or hash is wrong, in sequence order |
| `AuditChain.ReportedNothing` | src/amlguard/governance/audit_chain.py:47-62 | Nothing is reported if and only if the events form one chain from the genesis hash |
| `AuditChain.InvalidExactly` | src/amlguard/governance/audit_chain.py:47-62 | In sequence order, earlier presented first among equal numbers, a number is reported if and only if some event of it names another hash than the one before it or carries a wrong hash of its content |
| `AuditChain.AppendMeans` | src/amlguard/tools/repository.py:153-178 | A call adds one event with its own data, the next number and the hash of the event before |
| `AuditChain.BuiltLogVerifies` | src/amlguard/tools/repository.py:153-178 | Every log built by audit calls verifies in any presentation order |
| `AuditChain.LinkedChainsAgree` | src/amlguard/governance/audit_chain.py:22-62 | Two verified chains with one end hash are identical, or a content of the one and a content of the other are exhibited that share a hash, or a content of one of them that hashes to the genesis value |
| `AuditChain.VerifiedLogsAgree` | src/amlguard/governance/audit_chain.py:47-62 | The same for two logs as presented, the exhibited contents being theirs |
| `AuditChain.DeletionIsReported` | src/amlguard/governance/audit_chain.py:47-62 | After deleting events, verification accepts the rest if a suffix was deleted, and only then unless two contents of the log share a hash or one hashes to the genesis value |
| `AuditChain.AlterationIsReported` | src/amlguard/governance/audit_chain.py:47-62 | Changing the content of an event is reported at its number and nowhere else, if and only if the new content has another hash than the old one |
| `AlertRules.StructuringFiresExactly` | src/amlguard/simulation/alert_rules.py:65-95 | The rule fires if and only if some seven-day window, starting at any time, holds five in-range credits totalling 20000; what it reports is such a window |
| `AlertRules.StructuringMonotone` | src/amlguard/simulation/alert_rules.py:65-95 | Firing depends only on the collection and is preserved when transactions are added |
| `AlertRules.RapidFiresExactly` | src/amlguard/simulation/alert_rules.py:30-62 | The rule fires if and only if some credit of 5000 is followed within three days by debits of 80 percent |
| `AlertRules.RapidMonotone` | src/amlguard/simulation/alert_rules.py:30-62 | The same monotonicity |
| `AlertMeanings.StructuringMeans` | src/amlguard/simulation/alert_rules.py:65-95 | Fires if and only if some 7 days hold 5 credits of the customer in [1000, 10000) reaching 20000; reports all those of the earliest such week, in order, one second after the last |
| `AlertMeanings.RapidMeans` | src/amlguard/simulation/alert_rules.py:30-62 | Fires if and only if 80 percent of some credit of at least 5000 leaves within 3 days; reports the earliest such credit and all debits of these days |
| `AlertMeanings.VarianceMeans` | src/amlguard/simulation/alert_rules.py:9-27 | Fires for every customer with a transaction and reports one of the latest |
| `AlertMeanings.RuleMeans` | src/amlguard/simulation/alert_rules.py:98-102 | Each rule under its own id, nothing under any other |
| `Injection.Inject` | src/amlguard/simulation/injection.py:21-210 | Transactions, alert and KYC record are updated in place exactly up to the first check that fails |
| `Injection.RapidInjectionFiresExactly` | src/amlguard/simulation/injection.py:40-64 | Rapid movement fires exactly when the cent-rounded amount is at least 5000, despite half-even rounding of the thirds |
| `Injection.StructuringInjectionFiresExactly` | src/amlguard/simulation/injection.py:65-79 | Repeated credits fire exactly for a heavy pattern of the cent-rounded amount and the count |
| `Injection.HeavyPatternMeans` | src/amlguard/simulation/injection.py:65-79 | A pattern is heavy exactly when 1000 <= a < 10000, n >= 5 and a * min(n, 15) >= 20000 |
| `Injection.AdversarialInjectionFires` | src/amlguard/simulation/injection.py:80-130 | Every adversarial family triggers rapid movement, whatever its declared amount |
| `Injection.OrdinaryInjectionFires` | src/amlguard/simulation/injection.py:80-115 | An ordinary scenario triggers the activity-variance rule |
| `Injection.RapidScenarioSucceedsExactly` | src/amlguard/simulation/injection.py:21-184 | Given a customer with enough accounts, injecting succeeds exactly when the amount rounds to 5000 or more |
| `InjectionMeanings.DrawnMeans` | src/amlguard/simulation/injection.py:23-31 | A customer is drawn if and only if one suits, and it suits |
| `InjectionMeanings.CentsMeans` | src/amlguard/simulation/injection.py:222-233 | Amounts go to the nearest cent, half a cent to the even one |
| `InjectionMeanings.RapidPatternMeans` | src/amlguard/simulation/injection.py:40-64 | One credit of the amount and three debits of a third, an hour apart; refused where a rounded amount is not positive |
| `InjectionMeanings.SpacedPatternMeans` | src/amlguard/simulation/injection.py:65-79 | As many credits as declared, or five, twelve hours apart |
| `InjectionMeanings.OrdinaryPatternMeans` | src/amlguard/simulation/injection.py:80-115 | One credit of the amount |
| `InjectionMeanings.AdversarialPatternMeans` | src/amlguard/simulation/injection.py:80-130 | 7000 in and three times 2000 out for every other known family, with that family's text |
| `InjectionMeanings.UnsupportedExactly` | src/amlguard/simulation/injection.py:131-132 | Exactly the other families are refused |
| `InjectionMeanings.SelectionMeans` | src/amlguard/simulation/injection.py:23-36 | The pattern goes to the first account of the customer drawn; when there is none to draw or too few accounts |
| `InjectionMeanings.InjectionMeans` | src/amlguard/simulation/injection.py:134-184 | Pattern and alert are appended; two families make the customer's first KYC record missing or contradictory |
| `InjectionMeanings.InjectionFails` | src/amlguard/simulation/injection.py:134-184 | Why an injection fails and how much of it has then been done |
| `Compliance.AvailableEvidence` | src/amlguard/evaluation/proofagent_adapter/compliance_validation.py:49-64 | Documents with an id, runtime facts that are true, and approved readiness checks |
| `Compliance.ValidateCompliance` | src/amlguard/evaluation/proofagent_adapter/compliance_validation.py:79-181 | The nested loops compute the validated document, issues, grades and totals; last rule wins, malformed parts are skipped or raise |
| `ComplianceProperties.MetIsBacked` | src/amlguard/evaluation/proofagent_adapter/compliance_validation.py:67-134 | A control of the output is "met" if and only if it was "met" and its governing rule allows "met" with all required evidence available |
| `ComplianceProperties.StatusesExactly` | src/amlguard/evaluation/proofagent_adapter/compliance_validation.py:67-134 | When an output is "attention", "partial" or another text, in terms of the claim, the last rule, the evidence and the proof; the rest is "not_evaluated" |
| `ComplianceProperties.NotesExactly` | src/amlguard/evaluation/proofagent_adapter/compliance_validation.py:113-134 | Each control keeps the status that came in and gets the last rule's rationale and its required evidence, found and missing |
| `ComplianceProperties.IssuesExactly` | src/amlguard/evaluation/proofagent_adapter/compliance_validation.py:125-134 | An issue is listed if and only if it tells a control whose status changed, from what, to what and why |
| `ComplianceProperties.HardBlockExactly` | src/amlguard/evaluation/proofagent_adapter/compliance_validation.py:79-181 | The hard block holds if and only if some control claimed "met" without being backed |
| `ComplianceProperties.FailsExactly` | src/amlguard/evaluation/proofagent_adapter/compliance_validation.py:135-140 | Validation raises exactly when a listed control is not an object |
| `ComplianceProperties.EvidenceOnlyEvaluates` | src/amlguard/evaluation/proofagent_adapter/compliance_validation.py:67-76 | More evidence keeps a status or moves it out of "not_evaluated" |
| `ComplianceProperties.EvidenceNeverBlocks` | src/amlguard/evaluation/proofagent_adapter/compliance_validation.py:79-181 | More evidence never introduces a hard block |
| `ComplianceProperties.SecondPassChangesNothing` | src/amlguard/evaluation/proofagent_adapter/compliance_validation.py:79-181 | A second pass reports no issue and changes no status, grade or total |
| `ComplianceProperties.SecondPassIdenticalExactly` | src/amlguard/evaluation/proofagent_adapter/compliance_validation.py:113-134 | The two outputs coincide if and only if every listed control of every framework came with the status its last rule, the proof and the evidence cap it to |
| `ComplianceProperties.ReportsNothingExactly` | src/amlguard/evaluation/proofagent_adapter/compliance_validation.py:113-134 | Under just that condition no issue is reported |
| `ComplianceProperties.SecondPassCanDiffer` | src/amlguard/evaluation/proofagent_adapter/compliance_validation.py:113-134 | A "met" control without a rule: the second output differs from the first |
| `ComplianceProperties.TotalsCountControls` | src/amlguard/evaluation/proofagent_adapter/compliance_validation.py:135-181 | Totals count the controls of all frameworks by status |
| `ComplianceProperties.FrameworkGrades` | src/amlguard/evaluation/proofagent_adapter/compliance_validation.py:135-156 | Each framework's counts count its own controls, and its score lies in 0..100 |
| `ComplianceProperties.OverallScoreInRange` | src/amlguard/evaluation/proofagent_adapter/compliance_validation.py:157-181 | The overall score lies between 0 and 100 percent |
| `PolicyRetrieval.MakeIndex` | src/amlguard/policy/retrieval.py:41-65 | Duplicate alert rules and unknown policy ids are refused; otherwise the mappings by rule id |
| `PolicyRetrieval.Search` | src/amlguard/policy/retrieval.py:67-95 | The first `limit` of the ranking of all eligible chunks with a positive score |
| `PolicyRetrieval.SearchForAlert` | src/amlguard/policy/retrieval.py:97-178 | Mapped rules with an eligible policy, then contextual matches; each error case |
| `RetrievalProperties.RankingExactly` | src/amlguard/policy/retrieval.py:78-95 | The ranking is sorted by score and id and holds exactly the eligible chunks with a positive overlap |
| `RetrievalProperties.HitsAreInForce` | src/amlguard/policy/retrieval.py:67-95 | Each hit is approved, of the jurisdiction, EU or INTL, in force at the date and shares a word |
| `RetrievalProperties.HitsAreRanked` | src/amlguard/policy/retrieval.py:78-95 | Hits come by decreasing overlap, then by code point order of their ids |
| `RetrievalProperties.NothingIsMissed` | src/amlguard/policy/retrieval.py:67-95 | A chunk that satisfies these conditions is a hit, or the limit is used up by hits that precede it |
| `RetrievalProperties.CutLosesNothing` | src/amlguard/policy/retrieval.py:151-178 | Cutting at twenty before dropping the mapped policies equals dropping them from the whole ranking |
| `RetrievalProperties.SearchIsExact` | src/amlguard/policy/retrieval.py:97-178 | For unique ids: success exactly when the limit fits; then the applicable mapped rules in order and the first remaining places of all unmapped chunks |
| `RetrievalProperties.CorpusOrderIsIrrelevant` | src/amlguard/policy/retrieval.py:97-178 | Reordering a corpus with unique ids changes neither answer nor error |
| `RetrievalProperties.ReturnedAreEligible` | src/amlguard/policy/retrieval.py:97-178 | Everything returned is approved, of the jurisdiction, EU or INTL, effective from no later and to no earlier than the date, and within the limit |
| `RetrievalProperties.AskedExactly` | src/amlguard/policy/retrieval.py:112-130 | A rule is asked for if and only if it is an always-rule or a conditional one all or any of whose facts hold, and its policy is in force |
| `RetrievalProperties.MappedMeans` | src/amlguard/policy/retrieval.py:131-150 | A mapped match is that rule's policy, with the facts that support it |
| `RetrievalProperties.ContextualMeans` | src/amlguard/policy/retrieval.py:151-178 | The other matches are hits that no rule names |
| `RetrievalProperties.AddedInOrder` | src/amlguard/policy/retrieval.py:151-178 | They come in the order of the hits |
| `RetrievalProperties.RelevantIsReturned` | src/amlguard/policy/retrieval.py:151-178 | A chunk in force that shares a word and that no rule names is returned while there is room |
| `RetrievalProperties.AlwaysRulesReturned` | src/amlguard/policy/retrieval.py:112-150 | An always-rule whose policy satisfies these four conditions is always returned |
| `RetrievalProperties.FewerFactsFewerRules` | src/amlguard/policy/retrieval.py:112-135 | With fewer facts the mapped rules are a part of the earlier ones |
| `RetrievalProperties.CitationsKnownExactly` | src/amlguard/policy/retrieval.py:187-189 | No unknown citation if and only if every cited id was retrieved |
| `PolicyApplicability.Derive` | src/amlguard/policy/applicability.py:28-190 | The dictionary filled step by step holds exactly the facts that hold, each with its evidence; missing items and unreadable amounts raise |
| `FactMeanings.VarianceFact` | src/amlguard/policy/applicability.py:64-69 | Recorded if and only if the alert's rule is the variance rule |
| `FactMeanings.RapidFact` | src/amlguard/policy/applicability.py:70-75 | The same for rapid movement |
| `FactMeanings.RepeatedFact` | src/amlguard/policy/applicability.py:82-87 | The same for repeated credits |
| `FactMeanings.ExaminationFact` | src/amlguard/policy/applicability.py:76-93 | Recorded for these two rules and no other |
| `FactMeanings.RiskFact` | src/amlguard/policy/applicability.py:95-101 | Recorded if and only if the customer's risk level reads "high" in any case |
| `FactMeanings.BusinessFact` | src/amlguard/policy/applicability.py:102-107 | The same for a customer type "business" |
| `FactMeanings.OwnerFact` | src/amlguard/policy/applicability.py:108-119 | Recorded if and only if a business customer's owner is neither in the KYC record nor supplied |
| `FactMeanings.MissingKycFact` | src/amlguard/policy/applicability.py:121-126 | Recorded if and only if there is no KYC record or its status reads "missing" |
| `FactMeanings.StaleKycFact` | src/amlguard/policy/applicability.py:127-132 | Recorded if and only if there is one that reads neither "missing" nor "current" |
| `FactMeanings.PurposeFact` | src/amlguard/policy/applicability.py:133-144 | Recorded if and only if neither the KYC record nor the last supplied purpose says anything |
| `FactMeanings.PepFact` | src/amlguard/policy/applicability.py:146-154 | Recorded if and only if the assessment is neither in the profile nor supplied |
| `FactMeanings.SanctionsFact` | src/amlguard/policy/applicability.py:155-163 | The same for the screening result |
| `FactMeanings.TurnoverFact` | src/amlguard/policy/applicability.py:165-177 | Recorded if and only if the turnover is readable and positive and some causal transaction, all before it readable, exceeds it |
| `FactMeanings.GeographyFact` | src/amlguard/policy/applicability.py:179-188 | Recorded if and only if neither a causal transaction nor supplied information carries the country |
| `FactMeanings.DerivationFailsExactly` | src/amlguard/policy/applicability.py:35-36 | Missing items raise exactly when there is no alert or no customer profile |
| `FactMeanings.UnreadableAmountExactly` | src/amlguard/policy/applicability.py:165-172 | An unreadable amount raises exactly when it stands before the first excess under a positive turnover |
| `FactMeanings.PatternEvidence` | src/amlguard/policy/applicability.py:62-93 | The evidence of a pattern fact: the alert and its causal transactions, each once |
| `FactMeanings.TurnoverEvidence` | src/amlguard/policy/applicability.py:173-177 | The evidence of the turnover fact |
| `FactMeanings.MissingEvidenceNames` | src/amlguard/policy/applicability.py:111-144 | The evidence of the facts that miss something: customer, KYC record and all supplied items |
| `PolicySelection.SelectPolicies` | src/amlguard/graph/builder.py:128-171 | Facts, date and search over the evidence, and every error on the way |
| `FactMeanings.SelectionMeans` | src/amlguard/graph/builder.py:128-171 | The search is for the alert's rule, as of its date, in the service's jurisdiction, with the names of the derived facts |
| `PolicySelection.NoNewFacts` | src/amlguard/policy/applicability.py:42-46 | A supplemental item adds no fact, except the missing-purpose one when it blanks the purpose |
| `PolicySelection.PurposeReturnsExactly` | src/amlguard/policy/applicability.py:129-140 | Exactly when the missing-purpose fact comes back |
| `PolicySelection.ReselectionNarrows` | src/amlguard/graph/builder.py:441-447 | Otherwise a selection that succeeded succeeds again and its mapped rules are among the earlier ones |
| `PolicySelection.ReselectionFailsExactly` | src/amlguard/graph/builder.py:441-447 | After a selection that succeeded, the second one fails if and only if the new item blanks the purpose and the mapped rules no longer fit the limit |
| `PolicySelection.RoundsNarrow` | src/amlguard/graph/builder.py:441-447 | The same over any number of information rounds |
| `PurposeWitness.BlankedPurposeCanFail` | src/amlguard/policy/retrieval.py:131-135 | A blanked purpose can make the second selection fail at the limit |
| `CaseModel.GroundedExactly` | src/amlguard/graph/builder.py:261-360 | The two citation controls leave a draft unblocked if and only if every citation is known and a retrieved policy is cited when there is one |
| `CaseMeanings.ControlsMean` | src/amlguard/graph/builder.py:261-337 | The two results: which citations each lists, when it fails, blocks, passes or does not apply |
| `CaseMeanings.BlocksExactly` | src/amlguard/governance/hard_blocks.py:15-35 | The reasons are exactly the failed blocking controls and those of the eight critical events that occurred |
| `CaseMeanings.ObservedExactly` | src/amlguard/graph/builder.py:338-353 | The events are those recorded, a standing item of another case or customer, and a prohibited tool carried out for the case |
| `CaseModel.BlocksGrow` | src/amlguard/governance/hard_blocks.py:26-35 | More critical events never remove a hard block |
| `CaseModel.EvidenceLedger.Add` | src/amlguard/evidence/ledger.py:46-50 | An id keeps its content: another content under the same id is refused, and nothing changes |
| `CaseModel.EvidenceLedger.ValidateRecommendation` | src/amlguard/evidence/ledger.py:55-62 | An id is reported if and only if some finding or counter-indicator cites it and the ledger does not hold it |
| `CaseRepository.InMemoryInvestigationRepository.CreateCase` | src/amlguard/tools/repository.py:73-100 | The existing case of the alert and tenant for its own investigator, else a new one; at most one case per alert and tenant |
| `CaseMeanings.NewCaseMeans` | src/amlguard/tools/repository.py:88-99 | A new case is open, of the alert's customer and its investigator, without draft, version, review or reviewer |
| `CaseRepository.InMemoryInvestigationRepository.SaveReview` | src/amlguard/tools/repository.py:134-142 | One review per version and action |
| `CaseRepository.InMemoryInvestigationRepository.AssignReviewer` | src/amlguard/tools/repository.py:144-148 | The first reviewer keeps the assignment |
| `CaseRepository.InMemoryInvestigationRepository.Audit` | src/amlguard/tools/repository.py:153-178 | Appends one event linked to the last; the log keeps verifying |
| `CaseRepository.GrownLogVerifies` | src/amlguard/tools/repository.py:153-178 | The repository's log verifies in whatever order it is presented |
| `CaseRepository.ReadAllIsSafe` | src/amlguard/tools/service.py:31-120 | Whatever the bank holds, the tools return only records of the case's customer, and carry out nothing prohibited |
| `CaseMeanings.ReadsRecorded` | src/amlguard/tools/service.py:31-193 | A successful reading is recorded as four permitted calls with what each returned |
| `CaseMeanings.OtherCustomerIsRefused` | src/amlguard/tools/service.py:143-169 | Reading about another customer returns nothing and is recorded as refused |
| `CaseMeanings.TransactionsRead` | src/amlguard/tools/service.py:95-103 | Transactions are read within the scope, one to 500 of them |
| `CaseMeanings.ReadAllExactly` | src/amlguard/graph/builder.py:183-187 | Reading succeeds if and only if the first alert of the id is the customer's and a customer and a KYC record exist |
| `CaseMeanings.ReadAllMeans` | src/amlguard/tools/service.py:31-120 | It returns alert, customer, KYC record and the last 250 transactions of the customer, each under its id, type and hash |
| `CaseRepository.InvestigationTools.GetAlert` | src/amlguard/tools/service.py:31-46 | Looks the alert up before checking its customer; items and recorded executions |
| `CaseRepository.InvestigationTools.InvokeProhibited` | src/amlguard/tools/service.py:122-141 | A prohibited tool is recorded as refused and never carried out |
| `InvestigationStages.ValidateRests` | src/amlguard/graph/builder.py:261-396 | Validation puts a draft before people if and only if it is grounded; otherwise it blocks or fails |
| `CaseMeanings.LoadMeans` | src/amlguard/graph/builder.py:173-228 | Loading takes over what was read and selected for it, or fails and leaves the rest |
| `CaseMeanings.CollectMeans` | src/amlguard/graph/builder.py:398-473 | Supplied information takes over the evidence so far, the new item and what is selected for them |
| `CaseMeanings.DraftMeans` | src/amlguard/graph/builder.py:230-259 | A draft becomes the next version in case and checkpoint and uses up the feedback |
| `CaseMeanings.FailedDraftMeans` | src/amlguard/graph/builder.py:230-259 | When drafting fails the draft may be saved, but the checkpoint keeps the older version |
| `CaseMeanings.ValidationMeans` | src/amlguard/graph/builder.py:355-396 | The listed reasons are just what results and events amount to; without one the case waits for information if the draft asks for it and else for a reviewer |
| `InvestigationStages.RunEnds` | src/amlguard/graph/builder.py:173-396 | A run without faults ends as the model's answer asks: blocked if ungrounded, waiting for information if it asks for it, else for a reviewer |
| `InvestigationStages.RunRests` | src/amlguard/graph/builder.py:173-396 | A run from the start, failing anywhere, ends in the quiescent invariant |
| `InvestigationStages.HumanReviewKeeps` | src/amlguard/graph/builder.py:475-511 | A review completes the case, sends it back or fails the stage, and is recorded once at most |
| `CaseMeanings.BlockedReviewMeans` | src/amlguard/graph/builder.py:475-478 | A review of a blocked draft only ends the run |
| `CaseMeanings.ReviewMeans` | src/amlguard/graph/builder.py:475-511 | A review is kept under the version shown, an edited text becomes the next version, and the case is completed or its rationale handed to the next draft |
| `CaseMeanings.FailedReviewMeans` | src/amlguard/graph/builder.py:475-511 | When the stage fails, and what each point of failure leaves behind |
| `InvestigationStages.ResumeRests` | src/amlguard/graph/builder.py:398-511 | Resuming either interrupt keeps the invariant; evidence and reviews grow by at most one item |
| `InvestigationStages.SupplementIdsExactly` | src/amlguard/graph/builder.py:411-420 | Two submissions of a case get one evidence id if and only if they answer the same draft version under one submission id, or just their two names share an identifier |
| `CaseMeanings.SupplementMeans` | src/amlguard/graph/builder.py:411-428 | Supplied information becomes an item of the case's own scope under an id derived from version and submission |
| `CaseMeanings.InputMeans` | src/amlguard/graph/service.py:61-121 | A re-run forgets evidence, policies, results, events and errors, but keeps draft, version and feedback |
| `InvestigationStages.SecurityEventRests` | src/amlguard/graph/service.py:185-230 | A critical event blocks the case and adds to its reasons |
| `InvestigationProtocol.RunsStaySound` | src/amlguard/graph/service.py:61-230 | Every reachable system is sound, whatever the model, the people and the failures do |
| `InvestigationProtocol.KnownAlertStarts` | src/amlguard/graph/service.py:61-121 | Nobody else takes over an alert of the tenant; a case of one's own is run again only if it failed and is asked to |
| `InvestigationProtocol.NewAlertStarts` | src/amlguard/graph/service.py:61-121 | The first start of an alert creates and runs a case of its customer for the actor |
| `InvestigationProtocol.UnknownAlertStarts` | src/amlguard/graph/service.py:61-121 | An unknown alert starts nothing |
| `InvestigationProtocol.RefusedChangesNothing` | src/amlguard/graph/service.py:123-230 | Which reviews, submissions, claims and events are refused, and that they change nothing |
| `InvestigationProtocol.ResetMeans` | src/amlguard/graph/service.py:160-183 | A case that neither is open nor runs is deleted, its thread too unless that fails |
| `InvestigationProtocol.AssignMeans` | src/amlguard/tools/repository.py:144-148 | The first claim of a review is kept, and nothing else changes |
| `InvestigationProtocol.EventMeans` | src/amlguard/graph/service.py:185-230 | A critical event joins the others, is a reason and blocks the case whatever its status |
| `InvestigationProtocol.WaitingDraftsAreGrounded` | src/amlguard/graph/builder.py:230-396 | A waiting draft cites only evidence of its checkpoint and retrieved policies, one at least if any; repository and checkpoint agree on draft and version |
| `InvestigationProtocol.WaitsForWhatTheDraftAsks` | src/amlguard/graph/builder.py:362-366 | In every reachable system a waiting case waits for information if and only if its draft is a request for it |
| `InvestigationProtocol.ReviewsNeverRepeat` | src/amlguard/graph/service.py:123-131 | Review versions strictly increase, re-runs included, and a review of a waiting draft is never a duplicate |
| `InvestigationProtocol.CompletedCasesWereApproved` | src/amlguard/governance/readiness.py:62-66 | A completed case was approved in its last draft version, so release_gate_enforced is always true |
| `InvestigationProtocol.HardBlockedExactly` | src/amlguard/graph/builder.py:355-396 | HARD_BLOCKED holds exactly when hard blocks are listed |
| `InvestigationProtocol.BlocksLast` | src/amlguard/graph/service.py:160-230 | Only a reset ends a hard block; until then its reasons only grow |
| `InvestigationProtocol.ScopeChecksNeverFire` | src/amlguard/graph/builder.py:338-353 | The cross-scope and prohibited-execution checks never fire on their own |
| `InvestigationProtocol.HistoryIsAppended` | src/amlguard/graph/builder.py:441-473 | Within a thread evidence and reviews are only appended, one per call |
| `InvestigationProtocol.EditedTextIsReleasedAsWritten` | src/amlguard/graph/builder.py:494-505 | An edited text is released without validation, as the next version |
| `InvestigationProtocol.RejectionIsReworked` | src/amlguard/graph/builder.py:475-511 | A rejection without faults is recorded, and the case ends as the model's new answer asks |
| `InvestigationProtocol.EarlyReviewFailsTheCase` | src/amlguard/graph/service.py:123-131 | A review sent while information is awaited fails the case |
| `InvestigationProtocol.ReviewFailsExactly` | src/amlguard/graph/service.py:123-131 | An accepted review leaves the case FAILED if and only if it was FAILED, information was awaited instead, or a stage on the way raises |
| `InformationRounds.InformationRoundSucceeds` | src/amlguard/graph/builder.py:398-473 | In any reachable system a fault-free information round that does not blank the purpose appends its evidence and ends as the model's answer asks: hard blocked if the draft is not grounded, waiting for information if it asks for it, else for a reviewer |
| `InvestigationEngine.LangGraphInvestigationEngine.RecordFailure` | src/amlguard/graph/builder.py:74-105 | Case and checkpoint both become FAILED and the stage is recorded |
| `InvestigationEngine.LangGraphInvestigationEngine.EvaluateDraft` | src/amlguard/graph/builder.py:261-353 | The two control results and the observed critical events |
| `InvestigationEngine.LangGraphInvestigationEngine.ReviewStage` | src/amlguard/graph/builder.py:475-511 | Review, optional edited text and status, up to the point of failure |
| `InvestigationEngine.LangGraphInvestigationEngine.StartCase` | src/amlguard/graph/service.py:61-121 | Creates or locates the case and runs it when new, or failed and asked again |
| `InvestigationEngine.LangGraphInvestigationEngine.Review` | src/amlguard/graph/service.py:123-131 | Refuses blocked cases and stale versions, else resumes the thread |
| `InvestigationEngine.LangGraphInvestigationEngine.SupplyInformation` | src/amlguard/graph/service.py:133-155 | Resumes only a case that waits for information |
| `InvestigationEngine.LangGraphInvestigationEngine.Reset` | src/amlguard/graph/service.py:160-183 | Deletes case and thread unless the case runs; the log stays |
| `InvestigationEngine.LangGraphInvestigationEngine.RecordSecurityEvent` | src/amlguard/graph/service.py:185-230 | Adds the event to the checkpoint and blocks the case |
| `CaseAccess.OrdinaryRunsStaySeparated` | src/amlguard/auth/case_access.py:23-55 | Without administrators, every assigned reviewer is of the case's tenant, is not its investigator and wrote all its reviews |
| `CaseAccess.ServedSeparatesExactly` | src/amlguard/auth/case_access.py:23-55 | A call keeps reviewers separate if and only if a first claim comes from the case's tenant and not from its investigator, and a recorded review from the assigned reviewer |
| `CaseAccess.RunSeparatesExactly` | src/amlguard/auth/case_access.py:23-55 | A run, administrators included, is separated at every moment if and only if each of its calls is proper in that sense |
| `CaseAccess.ApproverIsIndependent` | src/amlguard/auth/case_access.py:23-55 | Without administrators, a completed case was approved by its assigned reviewer, of its tenant and not its investigator |
| `CaseAccess.AssignmentIsFixed` | src/amlguard/tools/repository.py:144-148 | Once made, an assignment stays until reset, and the investigator never changes |
| `CaseAccess.AdministratorsCanApproveTheirOwn` | src/amlguard/auth/case_access.py:25-26 | An administrator can claim and approve a case of their own |
| `CaseAccess.AccessMeans` | src/amlguard/auth/case_access.py:23-55 | For each action, who is let in: by role, by tenant and by being the investigator or the assigned reviewer |
| `CaseAccess.DenialMeans` | src/amlguard/auth/case_access.py:27-55 | The reason for each refusal |
| `CaseAccess.StartGranted` | src/amlguard/api/app.py:819-845 | Starting needs an analyst or reviewer; the case becomes the actor's in the actor's tenant |
| `CaseAccess.ReviewGranted` | src/amlguard/api/app.py:896-938 | When a claim and a review reach the engine, and that they name the actor |
| `CaseAccess.OtherGranted` | src/amlguard/api/app.py:693-742 | When information and a reset reach the engine |

## Left out

- describe and results_for of both queues: they only read.
- The runs of `RowProtocol` interleave claims to resumes; schedule calls are moves of `RowWorkers`, and `RowScheduling` states what they keep of the books.
- A worker that outlives its own lease while it works: in `WorkerSystem` and `RowWorkers` leases of live workers do not run out; what stale workers can do is the subject of `QueueProtocol` and `RowProtocol`.
- Evidence types, control ids, critical event types, tool names, error codes, roles and pattern families are enumerations, with a case for any other text where the program accepts any text.
- Numeric column rounding, and 32-bit or 64-bit limits: costs are integers of one common unit, counters are unbounded.
- The background heartbeat task of the worker, cancellation and `run_forever`'s semaphore: `WorkerSystem` and `RowWorkers` let a heartbeat happen at any moment of the handling instead.
- Experiment and case identifiers are numbers rendered in decimal where the program renders UUID text; both are colon-free and injective, which is all that is used.
- SHA-256, uuid5, JSON and AES-GCM: hash and name-based identifier are parameters, and statements that need more exhibit, among the very contents, texts or names in question, two that share a value or one that hashes to the genesis value.
- `CaseData` objects are values in the repository's map: a caller that keeps an old reference and sees later updates through it is not modelled.
- A case that is still OPEN or RUNNING between calls, security events during a run, and outages of the repository itself: a run between two interrupts is one step, at any stage of which an exception may occur.
- The language model, telemetry, trajectory and progress hooks appear only as arbitrary answers and as places where a stage can fail.
- The texts of explanations and summaries, policy retrieval records and the as-of date in the checkpoint: they are copied, never decided on.
- Tokenisation and the division that turns an overlap into a score: the denominator is the same for every chunk, so the order is that of the overlaps.
- Python's order of characters beyond code points, case folding beyond ASCII, and decimal NaN values.
- Binary floating point in the compliance scores: they are exact ratios rounded half to even.
- load_validation_policy, and controls that are objects but whose fields have other types than text: the rules are taken as loaded.
- The remaining runtime evidence of readiness.py: only the release gate and the validity of the audit chain are modelled.
- list_cases, the capability tiers, the coverage summary, the synthetic bank generator, configuration, templates and authentication: easy members or input and output.
- Drain: the loop of repeated `run_once` calls; `run_forever` itself never ends.
- Inject: the hidden ground truth, the injected record list and the check for unexpected rules, which can never fail because only the expected rule is evaluated.
- AlterationIsReported: alterations that keep an event's number and hashes; recomputed hashes are covered by `VerifiedLogsAgree`.
