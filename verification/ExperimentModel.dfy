/** Experiments, jobs and replies shared by the in-memory and the row-based queue. */
module ExperimentModel {
  import opened Prelude

  type ExperimentId = nat
  type JobId = nat

  /** A stored result. */
  type Document = string

  const SECOND: int := 1_000_000

  datatype Configuration = Configuration(configurationId: string, sessionCost: nat)

  /** Money is in one exact common unit; `evaluatorCost` is absent when no evaluator is configured. */
  datatype Manifest = Manifest(
    experimentId: ExperimentId,
    configurations: seq<Configuration>,
    repetitions: nat,
    evaluatorCost: Option<nat>,
    ceiling: nat)

  datatype JobStatus = Pending | Leased | Running | RetryWait | Succeeded | Failed | Cancelled

  datatype Job = Job(
    jobId: JobId,
    experimentId: ExperimentId,
    sessionKey: string,
    configurationId: string,
    scenarioId: string,
    repetition: nat,
    status: JobStatus,
    attempts: nat,
    maxAttempts: nat,
    owner: Option<string>,
    leaseUntil: Option<int>,
    notBefore: int,
    estimate: nat)

  datatype Error = UnknownId | NotLeaseOwner | CeilingExceeded | ExperimentStopped | ManifestConflict | DuplicateKey

  datatype Reply = Done | Granted(job: Job) | Nothing | Refused(error: Error)

  /** The exponential back-off base, 2**attempts. */
  function Pow2(n: nat): (r: nat)
    ensures n < r
  {
    if n == 0 then 1 else 2 * Pow2(n - 1)
  }

  /** Each further attempt doubles the wait of the one before, which starts at one second. */
  lemma WaitDoubles(attempts: nat)
    ensures Pow2(0) * SECOND == 1_000_000
    ensures Pow2(attempts + 1) * SECOND == 2 * (Pow2(attempts) * SECOND)
  {
  }

  /**
   * The job after a failure report by a worker that saw `attempts` of at most `limit`: it waits for a
   * retry if one is allowed and left, else it has failed; either way nobody holds it.
   */
  predicate Reported(before: Job, after: Job, retryable: bool, attempts: nat, limit: nat, now: int) {
    && SameIdentity(after, before) && after.attempts == before.attempts
    && (after.status.RetryWait? <==> retryable && attempts < limit)
    && (after.status.Failed? <==> !retryable || limit <= attempts)
    && after.owner.None? && after.leaseUntil.None?
    && after.notBefore == now + Pow2(attempts) * SECOND
  }

  /** Two snapshots of one job: everything but its progress agrees. */
  predicate SameIdentity(a: Job, b: Job) {
    && a.jobId == b.jobId
    && a.experimentId == b.experimentId
    && a.sessionKey == b.sessionKey
    && a.configurationId == b.configurationId
    && a.scenarioId == b.scenarioId
    && a.repetition == b.repetition
    && a.maxAttempts == b.maxAttempts
    && a.estimate == b.estimate
  }

  /** The job as a claim hands it out. */
  function Lease(job: Job, worker: string, seconds: int, now: int): Job {
    job.(status := Leased, owner := Some(worker), leaseUntil := Some(now + seconds * SECOND),
         attempts := job.attempts + 1)
  }

  function GetCost(costs: map<ExperimentId, int>, e: ExperimentId): int {
    if e in costs then costs[e] else 0
  }
}
