/** One processing of a claimed job, statement by statement, whichever queue it runs on. */
module WorkerStages {
  import opened Prelude
  import opened ExperimentModel

  const LEASE_SECONDS: int := 120

  /** What the job handler does: raise, or return a result whose metrics may fail to convert. */
  datatype Handler = Raised(retryable: bool) | Returned(result: Document, metricsOk: bool)

  /** The statement a worker executes next. */
  datatype Stage =
    | AtReserve
    | AtHeartbeat
    | AtHandler
    | AtComplete(result: Document, metricsOk: bool, cost: nat)
    | AtFail(retryable: bool)

  datatype Task = Task(job: Job, worker: string, stage: Stage)

  /** The tasks that are being worked on, one per process. */
  type Tasks = map<nat, Task>

  /** What a task asks of its queue. */
  datatype Request =
    | Reserve(job: Job, amount: int)
    | Renew(id: JobId, worker: string, now: int)
    | Finish(job: Job, result: Document, cost: int)
    | GiveUp(job: Job, retryable: bool, now: int)

  /** Running the handler asks for nothing. */
  function RequestOf(t: Task, now: int): Option<Request> {
    var Task(job, worker, stage) := t;
    match stage
    case AtReserve => Some(Reserve(job, job.estimate))
    case AtHeartbeat => Some(Renew(job.jobId, worker, now))
    case AtHandler => None
    case AtComplete(result, _, cost) => Some(Finish(job, result, cost))
    case AtFail(retryable) => Some(GiveUp(job, retryable, now))
  }

  /**
   * The next stage of a task, or none when it is over. `refused` is the queue's answer, `cost` what
   * the handler charges if it can read the manifest.
   */
  function NextStage(stage: Stage, refused: bool, handler: Handler, cost: Option<nat>): Option<Stage> {
    match stage
    case AtReserve => Some(if refused then AtFail(false) else AtHeartbeat)
    case AtHeartbeat => Some(if refused then AtFail(false) else AtHandler)
    case AtHandler =>
      (match handler
       case Raised(retryable) => Some(AtFail(retryable))
       case Returned(result, metricsOk) =>
         match cost
         case None => Some(AtFail(false))
         case Some(c) => Some(AtComplete(result, metricsOk, c)))
    case AtComplete(_, metricsOk, _) => if refused || !metricsOk then Some(AtFail(false)) else None
    case AtFail(_) => None
  }

  function Moved(tasks: Tasks, p: nat, next: Option<Stage>): Tasks
    requires p in tasks
  {
    match next
    case None => tasks - {p}
    case Some(stage) => tasks[p := tasks[p].(stage := stage)]
  }

  lemma SameStage(tasks: Tasks, p: nat)
    requires p in tasks
    ensures Moved(tasks, p, Some(tasks[p].stage)) == tasks
  {
  }

  /** While these stages last, the task must hold a reservation. */
  predicate Holds(stage: Stage) {
    stage.AtHeartbeat? || stage.AtHandler? || stage.AtComplete?
  }

  ghost predicate OneTaskPerJob(tasks: Tasks) {
    forall p, r :: p in tasks && r in tasks && p != r ==> tasks[p].job.jobId != tasks[r].job.jobId
  }

  lemma MovedOnePerJob(tasks: Tasks, p: nat, next: Option<Stage>)
    requires OneTaskPerJob(tasks) && p in tasks
    ensures OneTaskPerJob(Moved(tasks, p, next))
  {
    var after := Moved(tasks, p, next);
    forall o, k | o in after && k in after && o != k ensures after[o].job.jobId != after[k].job.jobId {
      assert tasks[o].job.jobId != tasks[k].job.jobId;
    }
  }

  lemma AddedOnePerJob(tasks: Tasks, p: nat, t: Task)
    requires OneTaskPerJob(tasks) && forall o :: o in tasks ==> tasks[o].job.jobId != t.job.jobId
    ensures OneTaskPerJob(tasks[p := t])
  {
  }
}
