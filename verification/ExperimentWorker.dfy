/** One worker draining the in-memory queue job by job. */
module ExperimentWorker {
  import opened Prelude
  import opened ExperimentModel
  import opened SessionKeys
  import opened InMemoryQueue
  import opened WorkerStages
  import P = QueueProtocol

  /** The outside world of one processing: clock readings and the handler's outcome. */
  datatype Env = Env(claimAt: int, beatAt: int, failAt: int, handler: Handler)

  /** The handler charges the estimate read back from the manifest. */
  function HandlerCost(q: Queue, job: Job): Option<nat> {
    if job.experimentId in q.manifests then EstimatedCost(q.manifests[job.experimentId], job.configurationId) else None
  }

  /** The state in which the attempt is over, and how `fail` is then called, if it is. */
  ghost function AttemptSpec(q: Queue, worker: string, job: Job, env: Env): (Queue, Option<bool>) {
    var reserved := ReserveSpec(q, job, job.estimate);
    if reserved.reply.Refused? then (reserved.state, Some(false)) else
    var beaten := HeartbeatSpec(reserved.state, job.jobId, worker, LEASE_SECONDS, env.beatAt);
    if beaten.reply.Refused? then (beaten.state, Some(false)) else
    if env.handler.Raised? then (beaten.state, Some(env.handler.retryable)) else
    match HandlerCost(beaten.state, job)
    case None => (beaten.state, Some(false))
    case Some(cost) =>
      var completed := CompleteSpec(beaten.state, job, env.handler.result, cost);
      (completed.state, if completed.reply.Refused? || !env.handler.metricsOk then Some(false) else None)
  }

  ghost function ProcessSpec(q: Queue, worker: string, job: Job, env: Env): Queue {
    var (r, failure) := AttemptSpec(q, worker, job, env);
    match failure
    case None => r
    case Some(retryable) => FailSpec(r, job, retryable, env.failAt).state
  }

  ghost function RunOnceSpec(q: Queue, worker: string, env: Env): Queue
    requires WellFormed(q)
  {
    var claimed := ClaimSpec(q, worker, LEASE_SECONDS, env.claimAt);
    if claimed.reply.Granted? then ProcessSpec(claimed.state, worker, claimed.reply.job, env) else claimed.state
  }

  // ----- what becomes of a job that is processed -----

  /** The worker may work on the job: its cost is reserved or still fits, and the lease is its own. */
  ghost predicate MayWork(q: Queue, worker: string, job: Job, spent: int)
    requires job.jobId in q.jobs
  {
    && (job.sessionKey in q.reservations
        || (job.experimentId in q.manifests
            && spent + SumValues(Held(q, job.experimentId)) + job.estimate <= q.manifests[job.experimentId].ceiling))
    && q.jobs[job.jobId].owner == Some(worker)
  }

  /** The handler returned, and its cost is known and fits beside what was spent. */
  ghost predicate Charged(q: Queue, job: Job, handler: Handler, spent: int) {
    && handler.Returned? && job.experimentId in q.manifests
    && var cost := EstimatedCost(q.manifests[job.experimentId], job.configurationId);
    cost.Some? && spent + cost.value <= q.manifests[job.experimentId].ceiling
  }

  /**
   * The job has succeeded exactly if the worker was allowed to work on it, the handler returned, the cost was
   * charged and the metrics could be read. It waits for a retry exactly if the handler of a permitted worker
   * raised a retryable error with attempts left. Else it has failed. No reservation of its session is left.
   */
  lemma ProcessEnds(q: Queue, worker: string, job: Job, env: Env, spent: int)
    requires job.jobId in q.jobs && Spent(q, job.experimentId, spent)
    ensures var r, before := ProcessSpec(q, worker, job, env), q.jobs[job.jobId];
            job.jobId in r.jobs && job.sessionKey !in r.reservations
            && var after, may := r.jobs[job.jobId], MayWork(q, worker, job, spent);
            && (after.status == Succeeded <==> may && Charged(q, job, env.handler, spent) && env.handler.metricsOk)
            && (after.status == RetryWait <==>
                may && env.handler.Raised? && env.handler.retryable && before.attempts < before.maxAttempts)
            && after.status in {Succeeded, RetryWait, Failed}
            && (after.status != Succeeded ==>
                  after.owner.None? && after.notBefore == env.failAt + Pow2(before.attempts) * SECOND)
  {
    AttemptEnds(q, worker, job, env, spent);
    AttemptTouches(q, worker, job, env);
  }

  lemma AttemptEnds(q: Queue, worker: string, job: Job, env: Env, spent: int)
    requires job.jobId in q.jobs && Spent(q, job.experimentId, spent)
    ensures var (r, failure) := AttemptSpec(q, worker, job, env);
            var may := MayWork(q, worker, job, spent);
            && (failure == None <==> may && Charged(q, job, env.handler, spent) && env.handler.metricsOk)
            && (failure == Some(true) <==> may && env.handler.Raised? && env.handler.retryable)
            && (failure == None ==> job.sessionKey !in r.reservations)
            && (may && Charged(q, job, env.handler, spent) ==>
                  && Spent(r, job.experimentId,
                           spent + EstimatedCost(q.manifests[job.experimentId], job.configurationId).value)
                  && job.sessionKey in r.results
                  && r.results == (if job.sessionKey in q.results then q.results
                                   else q.results[job.sessionKey := env.handler.result]))
            && (!(may && Charged(q, job, env.handler, spent)) ==> r.costs == q.costs && r.results == q.results)
  {
    var e := job.experimentId;
    if job.experimentId in q.manifests {
      ReserveMeans(q, job, job.estimate, spent);
      var held := ReserveSpec(q, job, job.estimate).state;
      HeartbeatMeans(held, job.jobId, worker, LEASE_SECONDS, env.beatAt);
      var beaten := HeartbeatSpec(held, job.jobId, worker, LEASE_SECONDS, env.beatAt).state;
      var cost := EstimatedCost(q.manifests[e], job.configurationId);
      if env.handler.Returned? && cost.Some? {
        CompleteMeans(beaten, job, env.handler.result, cost.value, spent);
      }
    }
  }

  /** Money and results: charged and stored exactly for a permitted attempt whose cost fits, even if it fails later. */
  lemma ProcessCharges(q: Queue, worker: string, job: Job, env: Env, spent: int)
    requires job.jobId in q.jobs && Spent(q, job.experimentId, spent)
    ensures var r := ProcessSpec(q, worker, job, env);
            if MayWork(q, worker, job, spent) && Charged(q, job, env.handler, spent)
            then && Spent(r, job.experimentId,
                          spent + EstimatedCost(q.manifests[job.experimentId], job.configurationId).value)
                 && r.results == (if job.sessionKey in q.results then q.results
                                  else q.results[job.sessionKey := env.handler.result])
            else r.costs == q.costs && r.results == q.results
  {
    AttemptEnds(q, worker, job, env, spent);
  }

  // ----- why draining ends -----

  /** How many more times a job can be handed out to a worker that finishes what it claims. */
  function Potential(job: Job): (p: nat) {
    if job.status.Succeeded? || job.status.Failed? || job.status.Cancelled? then 0
    else if job.attempts < job.maxAttempts then job.maxAttempts - job.attempts else 1
  }

  ghost function Potentials(q: Queue): map<JobId, int> {
    map id | id in q.jobs :: Potential(q.jobs[id])
  }

  /** Only the progress of one job moved, and its attempt counter did not. */
  ghost predicate TouchesOnly(q: Queue, r: Queue, id: JobId) {
    && r.order == q.order && r.manifests == q.manifests && id in q.jobs
    && r.jobs.Keys == q.jobs.Keys
    && (forall j :: j in q.jobs && j != id ==> r.jobs[j] == q.jobs[j])
    && SameIdentity(r.jobs[id], q.jobs[id]) && r.jobs[id].attempts == q.jobs[id].attempts
  }

  lemma CompleteTouches(q: Queue, job: Job, result: Document, cost: int)
    requires job.jobId in q.jobs
    ensures TouchesOnly(q, CompleteSpec(q, job, result, cost).state, job.jobId)
    ensures !CompleteSpec(q, job, result, cost).reply.Refused? ==>
              CompleteSpec(q, job, result, cost).state.jobs[job.jobId].status.Succeeded?
  {
  }

  lemma BeatTouches(q: Queue, worker: string, job: Job, now: int)
    requires job.jobId in q.jobs
    ensures var reserved := ReserveSpec(q, job, job.estimate).state;
            TouchesOnly(q, reserved, job.jobId)
            && TouchesOnly(q, HeartbeatSpec(reserved, job.jobId, worker, LEASE_SECONDS, now).state, job.jobId)
  {
    var reserved := ReserveSpec(q, job, job.estimate).state;
    assert reserved.jobs == q.jobs && reserved.order == q.order && reserved.manifests == q.manifests;
  }

  lemma AttemptTouches(q: Queue, worker: string, job: Job, env: Env)
    requires job.jobId in q.jobs
    ensures var (r, failure) := AttemptSpec(q, worker, job, env);
            && TouchesOnly(q, r, job.jobId)
            && (failure.None? ==> r.jobs[job.jobId].status.Succeeded?)
  {
    BeatTouches(q, worker, job, env.beatAt);
    var reserved := ReserveSpec(q, job, job.estimate);
    if !reserved.reply.Refused? {
      var beaten := HeartbeatSpec(reserved.state, job.jobId, worker, LEASE_SECONDS, env.beatAt);
      if !beaten.reply.Refused? && env.handler.Returned? && HandlerCost(beaten.state, job).Some? {
        CompleteTouches(beaten.state, job, env.handler.result, HandlerCost(beaten.state, job).value);
      }
    }
  }

  /** Processing leaves every other job alone, and takes its own job out of the leased state. */
  lemma ProcessTouches(q: Queue, worker: string, job: Job, env: Env)
    requires job.jobId in q.jobs
    ensures var r, id := ProcessSpec(q, worker, job, env), job.jobId;
            && TouchesOnly(q, r, id)
            && (r.jobs[id].status.Succeeded? || r.jobs[id].status.Failed?
                || (r.jobs[id].status.RetryWait? && r.jobs[id].attempts < r.jobs[id].maxAttempts))
  {
    AttemptTouches(q, worker, job, env);
  }

  lemma ClaimPotentials(q: Queue, a: P.Action)
    requires WellFormed(q) && a.Claim? && P.Step(q, a).reply.Granted?
    ensures var r, id := P.Step(q, a).state, P.Step(q, a).reply.job.jobId;
            && WellFormed(r) && id in q.jobs && r.jobs.Keys == q.jobs.Keys && r.jobs[id] == P.Step(q, a).reply.job
            && r.jobs[id] == Lease(q.jobs[id], a.worker, a.seconds, a.now)
            && 1 <= Potential(q.jobs[id])
            && forall j :: j in q.jobs && j != id ==> Potential(r.jobs[j]) == Potential(q.jobs[j])
  {
    P.StepKeepsWellFormed(q, a);
    P.StepKeepsIdentity(q, a);
    var id := q.order[FirstReady(q, a.now)];
    P.GrantedReply(q, a, id);
    forall j | j in q.jobs && j != id ensures Potential(P.Step(q, a).state.jobs[j]) == Potential(q.jobs[j]) {
      P.ClaimJob(q, a, j);
    }
  }

  /** Each successful round uses up some potential, whatever the handler and the clock do. */
  lemma RunOnceDecreases(q: Queue, worker: string, env: Env)
    requires WellFormed(q)
    ensures WellFormed(RunOnceSpec(q, worker, env))
    ensures ClaimSpec(q, worker, LEASE_SECONDS, env.claimAt).reply.Granted? ==>
              SumValues(Potentials(RunOnceSpec(q, worker, env))) < SumValues(Potentials(q))
  {
    var a := P.Claim(worker, LEASE_SECONDS, env.claimAt);
    var claimed := P.Step(q, a);
    if claimed.reply.Granted? {
      ClaimPotentials(q, a);
      var job, c := claimed.reply.job, claimed.state;
      var r := ProcessSpec(c, worker, job, env);
      assert r == RunOnceSpec(q, worker, env);
      ProcessTouches(c, worker, job, env);
      PotentialDrops(q, c, r, job.jobId);
    } else {
      P.StepKeepsWellFormed(q, a);
    }
  }

  lemma PotentialDrops(q: Queue, c: Queue, r: Queue, id: JobId)
    requires WellFormed(c) && TouchesOnly(c, r, id) && id in q.jobs && c.jobs.Keys == q.jobs.Keys
    requires forall j :: j in q.jobs && j != id ==> Potential(c.jobs[j]) == Potential(q.jobs[j])
    requires Potential(r.jobs[id]) < Potential(q.jobs[id])
    ensures WellFormed(r) && SumValues(Potentials(r)) < SumValues(Potentials(q))
  {
    ProgressKeepsWellFormed(c, r);
    assert Potentials(r) == Potentials(q)[id := Potential(r.jobs[id])];
    SumUpdate(Potentials(q), id, Potential(r.jobs[id]));
  }

  // ----- the methods -----

  method Process(queue: InMemoryExperimentQueue, worker: string, job: Job, env: Env)
    modifies queue
    ensures queue.State() == ProcessSpec(old(queue.State()), worker, job, env)
  {
    var retryable := false;
    var reply := queue.ReserveCost(job, job.estimate);
    if !reply.Refused? {
      reply := queue.Heartbeat(job.jobId, worker, LEASE_SECONDS, env.beatAt);
      if !reply.Refused? {
        if env.handler.Raised? {
          retryable := env.handler.retryable;
        } else {
          var cost := HandlerCost(queue.State(), job);
          if cost.Some? {
            reply := queue.Complete(job, env.handler.result, cost.value);
            if !reply.Refused? && env.handler.metricsOk { return; }
          }
        }
      }
    }
    var failed := queue.Fail(job, retryable, env.failAt);
  }

  method RunOnce(queue: InMemoryExperimentQueue, worker: string, env: Env) returns (worked: bool)
    requires WellFormed(queue.State())
    modifies queue
    ensures WellFormed(queue.State())
    ensures queue.State() == RunOnceSpec(old(queue.State()), worker, env)
    ensures worked == ClaimSpec(old(queue.State()), worker, LEASE_SECONDS, env.claimAt).reply.Granted?
  {
    ghost var q := queue.State();
    RunOnceDecreases(q, worker, env);
    var reply := queue.Claim(worker, LEASE_SECONDS, env.claimAt);
    if !reply.Granted? { return false; }
    Process(queue, worker, reply.job, env);
    worked := true;
  }

  /** Nothing is leased past its time, and only jobs put back because their lease had expired can be ready. */
  ghost predicate Drained(q: Queue, now: int) {
    forall i :: 0 <= i < |q.order| && q.order[i] in q.jobs ==> DrainedJob(q.jobs[q.order[i]], q.stopped, now)
  }

  predicate DrainedJob(job: Job, stopped: set<ExperimentId>, now: int) {
    && !Expired(job, stopped, now)
    && (Ready(job, stopped, now) ==> job.status.Pending? && job.leaseUntil.Some? && job.leaseUntil.value < now)
  }

  lemma EmptyClaimDrains(q: Queue, a: P.Action)
    requires WellFormed(q) && a.Claim? && !P.Step(q, a).reply.Granted?
    ensures Drained(P.Step(q, a).state, a.now)
  {
    forall i | 0 <= i < |q.order| ensures DrainedJob(P.Step(q, a).state.jobs[q.order[i]], q.stopped, a.now) {
      P.ClaimJob(q, a, q.order[i]);
    }
  }

  lemma PotentialNonNegative(q: Queue)
    ensures 0 <= SumValues(Potentials(q))
  {
    SumNonNegative(Potentials(q));
  }

  ghost function AttemptLimits(q: Queue): map<JobId, int> {
    map id | id in q.jobs :: q.jobs[id].maxAttempts
  }

  ghost predicate NeverTried(q: Queue) {
    forall id :: id in q.jobs ==> q.jobs[id].attempts == 0 && 1 <= q.jobs[id].maxAttempts
  }

  /** For jobs never tried before, the potential is at most the sum of the attempt limits. */
  lemma FreshPotential(q: Queue)
    requires NeverTried(q)
    ensures SumValues(Potentials(q)) <= SumValues(AttemptLimits(q))
  {
    SumMonotone(Potentials(q), AttemptLimits(q));
  }

  /**
   * Repeating `RunOnce` until it finds nothing ends after at most as many jobs as the queue has
   * potential, for every clock, every handler and whatever dead leases other workers left behind.
   */
  method Drain(queue: InMemoryExperimentQueue, worker: string, envs: nat -> Env) returns (processed: nat)
    requires WellFormed(queue.State())
    modifies queue
    ensures WellFormed(queue.State())
    ensures processed <= SumValues(Potentials(old(queue.State())))
    ensures NeverTried(old(queue.State())) ==> processed <= SumValues(AttemptLimits(old(queue.State())))
    ensures Drained(queue.State(), envs(processed).claimAt)
  {
    processed := 0;
    ghost var budget := SumValues(Potentials(queue.State()));
    PotentialNonNegative(queue.State());
    if NeverTried(queue.State()) {
      FreshPotential(queue.State());
    }
    while true
      invariant WellFormed(queue.State())
      invariant 0 <= SumValues(Potentials(queue.State())) <= budget - processed
      decreases SumValues(Potentials(queue.State()))
    {
      ghost var q := queue.State();
      RunOnceDecreases(q, worker, envs(processed));
      var worked := RunOnce(queue, worker, envs(processed));
      if !worked {
        EmptyClaimDrains(q, P.Claim(worker, LEASE_SECONDS, envs(processed).claimAt));
        return;
      }
      PotentialNonNegative(queue.State());
      processed := processed + 1;
    }
  }
}
