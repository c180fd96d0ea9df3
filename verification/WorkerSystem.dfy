/**
 * Any number of workers processing jobs side by side, their statements interleaved in any order,
 * while experiments are scheduled, stopped and resumed and workers crash. Leases of crashed workers
 * run out; those of live ones do not.
 */
module WorkerSystem {
  import opened Prelude
  import opened ExperimentModel
  import opened SessionKeys
  import opened InMemoryQueue
  import opened ExperimentWorker
  import opened WorkerStages
  import P = QueueProtocol

  datatype System = System(queue: Queue, tasks: Tasks)

  datatype Move =
    | Start(p: nat, worker: string, now: int)
    | Advance(p: nat, now: int, handler: Handler)
    | Beat(p: nat, now: int)
    | Crash(p: nat)
    | Schedule(manifest: Manifest, added: seq<Job>)
    | Halt(experiment: ExperimentId)
    | Continue(experiment: ExperimentId)

  /** No live task has outlived its lease. */
  ghost predicate LiveLeases(s: System, now: int) {
    forall p :: p in s.tasks && s.tasks[p].job.jobId in s.queue.jobs ==>
      !Expired(s.queue.jobs[s.tasks[p].job.jobId], s.queue.stopped, now)
  }

  /** New jobs of one manifest at its own estimates, under keys of their own. */
  ghost predicate NewJobsOf(q: Queue, m: Manifest, added: seq<Job>) {
    && P.Enabled(q, P.Schedule(m, added))
    && (forall i :: 0 <= i < |added| ==> EstimatedCost(m, added[i].configurationId) == Some(added[i].estimate))
    && (forall i, j :: 0 <= i < j < |added| ==> added[i].sessionKey != added[j].sessionKey)
    && (forall i, id :: 0 <= i < |added| && id in q.jobs ==> added[i].sessionKey != q.jobs[id].sessionKey)
  }

  ghost predicate Enabled(s: System, m: Move) {
    match m
    case Start(p, _, now) => p !in s.tasks && LiveLeases(s, now)
    case Advance(p, _, _) => p in s.tasks
    case Beat(p, _) => p in s.tasks && (s.tasks[p].stage.AtHandler? || s.tasks[p].stage.AtComplete?)
    case Crash(p) => p in s.tasks
    case Schedule(manifest, added) => NewJobsOf(s.queue, manifest, added)
    case _ => true
  }

  function ActionOf(request: Request): P.Action {
    match request
    case Reserve(job, amount) => P.ReserveCost(job, amount)
    case Renew(id, worker, now) => P.Heartbeat(id, worker, LEASE_SECONDS, now)
    case Finish(job, result, cost) => P.Complete(job, result, cost)
    case GiveUp(job, retryable, now) => P.Fail(job, retryable, now)
  }

  function CallOf(t: Task, now: int): Option<P.Action> {
    match RequestOf(t, now) case None => None case Some(request) => Some(ActionOf(request))
  }

  /** The queue call a move makes; running the handler and crashing make none. */
  function Call(s: System, m: Move): Option<P.Action>
    requires m.Advance? || m.Beat? ==> m.p in s.tasks
  {
    match m
    case Start(_, worker, now) => Some(P.Claim(worker, LEASE_SECONDS, now))
    case Advance(p, now, _) => CallOf(s.tasks[p], now)
    case Beat(p, now) => Some(P.Heartbeat(s.tasks[p].job.jobId, s.tasks[p].worker, LEASE_SECONDS, now))
    case Crash(_) => None
    case Schedule(manifest, added) => Some(P.Schedule(manifest, added))
    case Halt(e) => Some(P.Stop(e))
    case Continue(e) => Some(P.Resume(e))
  }

  ghost function Answer(q: Queue, call: Option<P.Action>): Stepped
    requires WellFormed(q)
  {
    match call case None => Stepped(q, Done) case Some(a) => P.Step(q, a)
  }

  ghost function Step(s: System, m: Move): System
    requires WellFormed(s.queue) && Enabled(s, m)
  {
    var done := Answer(s.queue, Call(s, m));
    match m
    case Start(p, worker, _) =>
      System(done.state, if done.reply.Granted? then s.tasks[p := Task(done.reply.job, worker, AtReserve)] else s.tasks)
    case Advance(p, _, handler) =>
      var t := s.tasks[p];
      var next := NextStage(t.stage, done.reply.Refused?, handler, HandlerCost(s.queue, t.job));
      System(done.state, Moved(s.tasks, p, next))
    case Crash(p) => System(done.state, s.tasks - {p})
    case _ => System(done.state, s.tasks)
  }

  // ----- the invariant -----

  ghost predicate KeysUnique(q: Queue) {
    forall i, j :: i in q.jobs && j in q.jobs && i != j ==> q.jobs[i].sessionKey != q.jobs[j].sessionKey
  }

  ghost predicate Estimated(q: Queue) {
    forall id :: id in q.jobs ==> HandlerCost(q, q.jobs[id]) == Some(q.jobs[id].estimate)
  }

  ghost predicate ReservedBy(q: Queue, key: string, id: JobId) {
    && key in q.reservations && id in q.jobs && q.jobs[id].sessionKey == key
    && q.reservations[key] == Reservation(q.jobs[id].experimentId, q.jobs[id].estimate)
  }

  /** Each reservation, left behind by a crash or not, is some job's, at that job's estimate. */
  ghost predicate ReservationsProper(q: Queue) {
    forall key :: key in q.reservations ==> exists id :: ReservedBy(q, key, id)
  }

  ghost predicate CostsKnown(q: Queue) {
    forall e :: e in q.costs ==> e in q.manifests
  }

  ghost predicate QueueInv(q: Queue) {
    WellFormed(q) && KeysUnique(q) && Estimated(q) && ReservationsProper(q) && CostsKnown(q)
  }

  ghost predicate Holding(q: Queue, job: Job) {
    job.sessionKey in q.reservations && q.reservations[job.sessionKey] == Reservation(job.experimentId, job.estimate)
  }

  ghost predicate TaskInv(q: Queue, t: Task) {
    var id := t.job.jobId;
    && id in q.jobs && SameIdentity(t.job, q.jobs[id])
    && (t.stage.AtFail? ==> q.jobs[id].status.Leased? || q.jobs[id].status.Succeeded?)
    && (!t.stage.AtFail? ==> q.jobs[id].status.Leased? && q.jobs[id].owner == Some(t.worker))
    && (Holds(t.stage) ==> Holding(q, t.job))
    && (t.stage.AtComplete? ==> t.stage.cost == t.job.estimate)
  }

  ghost predicate TasksInv(q: Queue, tasks: Tasks) {
    forall p :: p in tasks ==> TaskInv(q, tasks[p])
  }

  ghost predicate Inv(s: System) {
    QueueInv(s.queue) && TasksInv(s.queue, s.tasks) && OneTaskPerJob(s.tasks)
  }

  ghost predicate AllSolvent(q: Queue) {
    forall e :: e in q.manifests ==> P.Solvent(q, e)
  }

  // ----- what a call keeps of the queue -----

  lemma ManifestsSame(q: Queue, a: P.Action)
    requires WellFormed(q) && !a.Schedule?
    ensures P.Step(q, a).state.manifests == q.manifests
  {
    if a.Claim? {
      ClaimTouchesJobs(q, a);
    }
  }

  lemma CostsKept(q: Queue, a: P.Action)
    requires WellFormed(q) && !a.Schedule? && CostsKnown(q)
    ensures CostsKnown(P.Step(q, a).state)
  {
    if a.Claim? {
      ClaimTouchesJobs(q, a);
    }
  }

  lemma ClaimTouchesJobs(q: Queue, a: P.Action)
    requires WellFormed(q) && a.Claim?
    ensures P.Step(q, a).state.(jobs := q.jobs) == q
  {
  }

  lemma IdentityKeeps(q: Queue, r: Queue)
    requires KeysUnique(q) && Estimated(q) && r.manifests == q.manifests && r.jobs.Keys == q.jobs.Keys
    requires forall id :: id in q.jobs ==> SameIdentity(r.jobs[id], q.jobs[id])
    ensures KeysUnique(r) && Estimated(r)
  {
    forall id | id in r.jobs ensures HandlerCost(r, r.jobs[id]) == Some(r.jobs[id].estimate) {
      assert HandlerCost(q, q.jobs[id]) == Some(q.jobs[id].estimate);
    }
  }

  /** A call for a job reserves at most under that job's key, and at its estimate. */
  ghost predicate Asks(q: Queue, a: P.Action) {
    a.ReserveCost? ==>
      && a.job.jobId in q.jobs && SameIdentity(a.job, q.jobs[a.job.jobId]) && a.amount == a.job.estimate
  }

  /** Reservations only disappear, or one appears as asked. */
  lemma ReservationsMove(q: Queue, a: P.Action, key: string)
    requires WellFormed(q) && !a.Schedule? && Asks(q, a) && key in P.Step(q, a).state.reservations
    ensures key in q.reservations ==> P.Step(q, a).state.reservations[key] == q.reservations[key]
    ensures key !in q.reservations ==>
              a.ReserveCost? && key == a.job.sessionKey
              && P.Step(q, a).state.reservations[key] == Reservation(a.job.experimentId, a.job.estimate)
  {
  }

  lemma ReservationsStayProper(q: Queue, a: P.Action)
    requires WellFormed(q) && ReservationsProper(q) && !a.Schedule? && Asks(q, a)
    ensures ReservationsProper(P.Step(q, a).state)
  {
    var r := P.Step(q, a).state;
    P.StepKeepsIdentity(q, a);
    forall key | key in r.reservations ensures exists id :: ReservedBy(r, key, id) {
      ReservationsMove(q, a, key);
      if key in q.reservations {
        var id :| ReservedBy(q, key, id);
        assert ReservedBy(r, key, id);
      } else {
        assert ReservedBy(r, key, a.job.jobId);
      }
    }
  }

  lemma QueueKeeps(q: Queue, a: P.Action)
    requires QueueInv(q) && !a.Schedule? && Asks(q, a)
    ensures QueueInv(P.Step(q, a).state)
  {
    P.StepKeepsWellFormed(q, a);
    P.StepKeepsIdentity(q, a);
    ManifestsSame(q, a);
    CostsKept(q, a);
    ReservationsStayProper(q, a);
    IdentityKeeps(q, P.Step(q, a).state);
  }

  /** The reservation found under a job's key is the job's own. */
  lemma FoundIsOwn(q: Queue, job: Job)
    requires KeysUnique(q) && ReservationsProper(q) && job.jobId in q.jobs && SameIdentity(job, q.jobs[job.jobId])
    requires job.sessionKey in q.reservations
    ensures Holding(q, job)
  {
    var id :| ReservedBy(q, job.sessionKey, id);
    assert id == job.jobId;
  }

  // ----- a task's own steps -----

  /** Nothing but one job and one reservation moved. */
  ghost predicate Local(q: Queue, r: Queue, id: JobId, key: string) {
    && r.jobs.Keys == q.jobs.Keys
    && (forall j :: j in q.jobs && j != id ==> r.jobs[j] == q.jobs[j])
    && (forall k :: k != key && k in q.reservations ==> k in r.reservations && r.reservations[k] == q.reservations[k])
  }

  /** The step of a task touched its own job and reservation only, and left it as the next stage needs it. */
  ghost predicate GoodStep(q: Queue, r: Queue, t: Task, next: Option<Stage>) {
    && Local(q, r, t.job.jobId, t.job.sessionKey)
    && (next.Some? ==> TaskInv(r, t.(stage := next.value)))
  }

  lemma StaysGood(q: Queue, t: Task)
    requires TaskInv(q, t) && t.stage.AtReserve? && Holding(q, t.job)
    ensures GoodStep(q, q, t, Some(AtHeartbeat))
  {
  }

  lemma ReservedGood(q: Queue, t: Task)
    requires TaskInv(q, t) && t.stage.AtReserve?
    ensures var e := t.job.experimentId;
            GoodStep(q, q.(reservations := q.reservations[t.job.sessionKey := Reservation(e, t.job.estimate)]), t,
                     Some(AtHeartbeat))
  {
  }

  lemma RefusedGood(q: Queue, t: Task)
    requires TaskInv(q, t) && t.stage.AtReserve?
    ensures GoodStep(q, q.(stopped := q.stopped + {t.job.experimentId}), t, Some(AtFail(false)))
  {
  }

  lemma ReserveOwn(q: Queue, t: Task)
    requires QueueInv(q) && TaskInv(q, t) && t.stage.AtReserve?
    ensures var done := ReserveSpec(q, t.job, t.job.estimate);
            GoodStep(q, done.state, t, Some(if done.reply.Refused? then AtFail(false) else AtHeartbeat))
  {
    if t.job.sessionKey in q.reservations {
      FoundIsOwn(q, t.job);
      StaysGood(q, t);
    } else {
      ReservedGood(q, t);
      RefusedGood(q, t);
    }
  }

  lemma BeatOwn(q: Queue, t: Task, now: int)
    requires TaskInv(q, t) && Holds(t.stage)
    ensures var done := HeartbeatSpec(q, t.job.jobId, t.worker, LEASE_SECONDS, now);
            && done.reply == Done
            && GoodStep(q, done.state, t, Some(t.stage))
            && (t.stage.AtHeartbeat? ==> GoodStep(q, done.state, t, Some(AtHandler)))
  {
  }

  lemma HandlerOwn(q: Queue, t: Task, handler: Handler)
    requires TaskInv(q, t) && t.stage.AtHandler?
    ensures GoodStep(q, q, t, NextStage(t.stage, false, handler, Some(t.job.estimate)))
  {
  }

  lemma CompletionAccepted(q: Queue, t: Task)
    requires WellFormed(q) && TaskInv(q, t) && t.stage.AtComplete?
    requires t.job.experimentId in q.manifests && P.Solvent(q, t.job.experimentId)
    ensures CompleteSpec(q, t.job, t.stage.result, t.stage.cost).reply == Done
  {
    P.SolventStep(q, P.Complete(t.job, t.stage.result, t.stage.cost), t.job.experimentId);
  }

  lemma CompleteOwn(q: Queue, t: Task, next: Option<Stage>)
    requires TaskInv(q, t) && t.stage.AtComplete? && next in {None, Some(AtFail(false))}
    requires CompleteSpec(q, t.job, t.stage.result, t.stage.cost).reply == Done
    ensures GoodStep(q, CompleteSpec(q, t.job, t.stage.result, t.stage.cost).state, t, next)
  {
  }

  lemma FailOwn(q: Queue, t: Task, retryable: bool, now: int)
    requires TaskInv(q, t)
    ensures GoodStep(q, FailSpec(q, t.job, retryable, now).state, t, None)
  {
  }

  /** The call of a task left it as its next stage needs it, and a completion was accepted. */
  ghost predicate OwnGood(q: Queue, t: Task, now: int, handler: Handler)
    requires WellFormed(q)
  {
    var done := Answer(q, CallOf(t, now));
    && GoodStep(q, done.state, t, NextStage(t.stage, done.reply.Refused?, handler, Some(t.job.estimate)))
    && (t.stage.AtComplete? ==> done.reply == Done)
  }

  lemma ReserveGood(q: Queue, t: Task, now: int, handler: Handler)
    requires QueueInv(q) && TaskInv(q, t) && t.stage.AtReserve?
    ensures OwnGood(q, t, now, handler)
  {
    ReserveOwn(q, t);
  }

  lemma BeatGood(q: Queue, t: Task, now: int, handler: Handler)
    requires WellFormed(q) && TaskInv(q, t) && t.stage.AtHeartbeat?
    ensures OwnGood(q, t, now, handler)
  {
    BeatOwn(q, t, now);
  }

  lemma CompleteGood(q: Queue, t: Task, now: int, handler: Handler)
    requires WellFormed(q) && TaskInv(q, t) && t.stage.AtComplete?
    requires t.job.experimentId in q.manifests && P.Solvent(q, t.job.experimentId)
    ensures OwnGood(q, t, now, handler)
  {
    CompletionAccepted(q, t);
    var next := if t.stage.metricsOk then None else Some(AtFail(false));
    CompleteOwn(q, t, next);
    assert CallOf(t, now) == Some(P.Complete(t.job, t.stage.result, t.stage.cost));
    assert NextStage(t.stage, false, handler, Some(t.job.estimate)) == next;
  }

  lemma FailGood(q: Queue, t: Task, now: int, handler: Handler)
    requires WellFormed(q) && TaskInv(q, t) && t.stage.AtFail?
    ensures OwnGood(q, t, now, handler)
  {
    FailOwn(q, t, t.stage.retryable, now);
  }

  lemma OwnStep(q: Queue, t: Task, now: int, handler: Handler)
    requires QueueInv(q) && AllSolvent(q) && TaskInv(q, t)
    ensures OwnGood(q, t, now, handler)
  {
    match t.stage
    case AtReserve => ReserveGood(q, t, now, handler);
    case AtHeartbeat => BeatGood(q, t, now, handler);
    case AtHandler => HandlerOwn(q, t, handler);
    case AtComplete(_, _, _) =>
      assert HandlerCost(q, q.jobs[t.job.jobId]).Some?;
      CompleteGood(q, t, now, handler);
    case AtFail(_) => FailGood(q, t, now, handler);
  }

  lemma OwnAsks(q: Queue, t: Task, now: int)
    requires WellFormed(q) && TaskInv(q, t) && CallOf(t, now).Some?
    ensures !CallOf(t, now).value.Schedule? && Asks(q, CallOf(t, now).value)
  {
  }

  lemma CallKeepsQueue(q: Queue, t: Task, now: int)
    requires QueueInv(q) && TaskInv(q, t)
    ensures QueueInv(Answer(q, CallOf(t, now)).state)
  {
    if CallOf(t, now).Some? {
      OwnAsks(q, t, now);
      QueueKeeps(q, CallOf(t, now).value);
    }
  }

  // ----- the other tasks -----

  lemma OtherKeeps(q: Queue, r: Queue, t: Task, id: JobId, key: string)
    requires TaskInv(q, t) && Local(q, r, id, key) && t.job.jobId != id && t.job.sessionKey != key
    ensures TaskInv(r, t)
  {
  }

  lemma OthersKeep(s: System, r: Queue, p: nat, next: Option<Stage>)
    requires Inv(s) && p in s.tasks && GoodStep(s.queue, r, s.tasks[p], next)
    ensures TasksInv(r, Moved(s.tasks, p, next))
  {
    var t, after := s.tasks[p], Moved(s.tasks, p, next);
    assert TaskInv(s.queue, t);
    forall o | o in after ensures TaskInv(r, after[o]) {
      if o != p {
        assert TaskInv(s.queue, s.tasks[o]) && s.tasks[o].job.jobId != t.job.jobId;
        OtherKeeps(s.queue, r, s.tasks[o], t.job.jobId, t.job.sessionKey);
      }
    }
  }

  lemma Assemble(s: System, r: Queue, p: nat, next: Option<Stage>)
    requires Inv(s) && p in s.tasks && QueueInv(r) && GoodStep(s.queue, r, s.tasks[p], next)
    ensures Inv(System(r, Moved(s.tasks, p, next)))
  {
    OthersKeep(s, r, p, next);
    MovedOnePerJob(s.tasks, p, next);
  }

  // ----- every move keeps the invariant -----

  lemma AdvanceKeeps(s: System, m: Move)
    requires Inv(s) && AllSolvent(s.queue) && m.Advance? && Enabled(s, m)
    ensures Inv(Step(s, m))
    ensures s.tasks[m.p].stage.AtComplete? ==> Answer(s.queue, CallOf(s.tasks[m.p], m.now)).reply == Done
  {
    var q, t := s.queue, s.tasks[m.p];
    assert TaskInv(q, t);
    assert HandlerCost(q, q.jobs[t.job.jobId]) == Some(t.job.estimate);
    OwnStep(q, t, m.now, m.handler);
    CallKeepsQueue(q, t, m.now);
    var done := Answer(q, CallOf(t, m.now));
    Assemble(s, done.state, m.p, NextStage(t.stage, done.reply.Refused?, m.handler, HandlerCost(q, t.job)));
  }

  /** A beat in the middle of a stage keeps the stage. */
  lemma BeatStays(q: Queue, t: Task, now: int)
    requires QueueInv(q) && TaskInv(q, t) && Holds(t.stage)
    ensures var r := P.Step(q, P.Heartbeat(t.job.jobId, t.worker, LEASE_SECONDS, now)).state;
            QueueInv(r) && GoodStep(q, r, t, Some(t.stage))
  {
    BeatOwn(q, t, now);
    QueueKeeps(q, P.Heartbeat(t.job.jobId, t.worker, LEASE_SECONDS, now));
  }

  lemma BeatKeeps(s: System, m: Move)
    requires Inv(s) && m.Beat? && Enabled(s, m)
    ensures Inv(Step(s, m))
  {
    var t := s.tasks[m.p];
    assert TaskInv(s.queue, t);
    BeatStays(s.queue, t, m.now);
    Assemble(s, Answer(s.queue, Call(s, m)).state, m.p, Some(t.stage));
    SameStage(s.tasks, m.p);
  }

  /** A crash leaves job, lease and reservation as they are. */
  lemma CrashKeeps(s: System, m: Move)
    requires Inv(s) && m.Crash? && Enabled(s, m)
    ensures Inv(Step(s, m))
  {
  }

  lemma SwitchTouches(q: Queue, a: P.Action)
    requires WellFormed(q) && (a.Stop? || a.Resume?)
    ensures var r := P.Step(q, a).state; r.jobs == q.jobs && r.reservations == q.reservations && Asks(q, a)
  {
  }

  lemma SameQueueKeeps(s: System, r: Queue)
    requires Inv(s) && QueueInv(r) && r.jobs == s.queue.jobs && r.reservations == s.queue.reservations
    ensures Inv(System(r, s.tasks))
  {
    SameJobsKeep(s.queue, r, s.tasks);
  }

  lemma SwitchKeeps(s: System, m: Move)
    requires Inv(s) && (m.Halt? || m.Continue?)
    ensures Inv(Step(s, m))
  {
    var a := Call(s, m).value;
    SwitchTouches(s.queue, a);
    QueueKeeps(s.queue, a);
    SameQueueKeeps(s, P.Step(s.queue, a).state);
  }

  lemma SameJobsKeep(q: Queue, r: Queue, tasks: Tasks)
    requires TasksInv(q, tasks) && r.reservations == q.reservations
    requires forall p :: p in tasks && tasks[p].job.jobId in q.jobs ==>
               tasks[p].job.jobId in r.jobs && r.jobs[tasks[p].job.jobId] == q.jobs[tasks[p].job.jobId]
    ensures TasksInv(r, tasks)
  {
    forall p | p in tasks ensures TaskInv(r, tasks[p]) {
      assert TaskInv(q, tasks[p]);
    }
  }

  // ----- claims -----

  /** A claim passes over the jobs of live tasks: they are neither ready nor expired. */
  lemma ClaimPassesOver(q: Queue, a: P.Action, t: Task)
    requires WellFormed(q) && a.Claim? && TaskInv(q, t) && !Expired(q.jobs[t.job.jobId], q.stopped, a.now)
    ensures t.job.jobId in P.Step(q, a).state.jobs
    ensures P.Step(q, a).state.jobs[t.job.jobId] == q.jobs[t.job.jobId] && !P.Grants(q, a, t.job.jobId)
  {
    P.ClaimJob(q, a, t.job.jobId);
  }

  lemma NewTask(q: Queue, a: P.Action, worker: string)
    requires WellFormed(q) && a.Claim? && P.Step(q, a).reply.Granted? && a.worker == worker
    ensures TaskInv(P.Step(q, a).state, Task(P.Step(q, a).reply.job, worker, AtReserve))
    ensures P.Grants(q, a, P.Step(q, a).reply.job.jobId)
  {
    P.GrantedReply(q, a, q.order[FirstReady(q, a.now)]);
  }

  lemma ClaimPassesOverTasks(s: System, a: P.Action)
    requires Inv(s) && a.Claim? && LiveLeases(s, a.now)
    ensures forall p :: p in s.tasks ==>
              && s.tasks[p].job.jobId in P.Step(s.queue, a).state.jobs
              && P.Step(s.queue, a).state.jobs[s.tasks[p].job.jobId] == s.queue.jobs[s.tasks[p].job.jobId]
              && !P.Grants(s.queue, a, s.tasks[p].job.jobId)
  {
    forall p | p in s.tasks
      ensures s.tasks[p].job.jobId in P.Step(s.queue, a).state.jobs
      ensures P.Step(s.queue, a).state.jobs[s.tasks[p].job.jobId] == s.queue.jobs[s.tasks[p].job.jobId]
      ensures !P.Grants(s.queue, a, s.tasks[p].job.jobId)
    {
      assert TaskInv(s.queue, s.tasks[p]);
      ClaimPassesOver(s.queue, a, s.tasks[p]);
    }
  }

  lemma ClaimKeepsTasks(s: System, a: P.Action)
    requires Inv(s) && a.Claim? && LiveLeases(s, a.now)
    ensures TasksInv(P.Step(s.queue, a).state, s.tasks)
  {
    ClaimTouchesJobs(s.queue, a);
    ClaimPassesOverTasks(s, a);
    SameJobsKeep(s.queue, P.Step(s.queue, a).state, s.tasks);
  }

  lemma GrantAddsTask(s: System, a: P.Action, p: nat)
    requires Inv(s) && a.Claim? && LiveLeases(s, a.now) && P.Step(s.queue, a).reply.Granted?
    requires TasksInv(P.Step(s.queue, a).state, s.tasks)
    ensures var tasks := s.tasks[p := Task(P.Step(s.queue, a).reply.job, a.worker, AtReserve)];
            TasksInv(P.Step(s.queue, a).state, tasks) && OneTaskPerJob(tasks)
  {
    ClaimPassesOverTasks(s, a);
    NewTask(s.queue, a, a.worker);
    AddedOnePerJob(s.tasks, p, Task(P.Step(s.queue, a).reply.job, a.worker, AtReserve));
  }

  lemma StartKeeps(s: System, m: Move)
    requires Inv(s) && m.Start? && Enabled(s, m)
    ensures Inv(Step(s, m))
  {
    var a := P.Claim(m.worker, LEASE_SECONDS, m.now);
    QueueKeeps(s.queue, a);
    ClaimKeepsTasks(s, a);
    if P.Step(s.queue, a).reply.Granted? {
      GrantAddsTask(s, a, m.p);
    }
  }

  // ----- scheduling -----

  lemma ScheduledQueue(q: Queue, m: Manifest, added: seq<Job>)
    requires WellFormed(q) && NewJobsOf(q, m, added)
    ensures var r := P.Step(q, P.Schedule(m, added)).state;
            && WellFormed(r) && r.manifests == q.manifests[m.experimentId := m]
            && r.reservations == q.reservations && r.costs == q.costs
            && (forall id :: id in q.jobs ==> id in r.jobs && r.jobs[id] == q.jobs[id])
            && (forall id :: id in r.jobs && id !in q.jobs ==>
                exists i :: 0 <= i < |added| && r.jobs[id] == added[i] && added[i].jobId == id)
  {
    var base := q.(manifests := q.manifests[m.experimentId := m]);
    P.StepKeepsWellFormed(q, P.Schedule(m, added));
    P.AddAllKeeps(base, added);
    P.AddAllAdds(base, added);
    var r := AddAll(base, added);
    forall id | id in r.jobs && id !in q.jobs
      ensures exists i :: 0 <= i < |added| && r.jobs[id] == added[i] && added[i].jobId == id
    {
      P.AddAllOnly(base, added, id);
      var i :| 0 <= i < |added| && added[i].jobId == id;
      assert r.jobs[id] == added[i];
    }
  }

  lemma ScheduledKeysUnique(q: Queue, m: Manifest, added: seq<Job>)
    requires WellFormed(q) && KeysUnique(q) && NewJobsOf(q, m, added)
    ensures KeysUnique(P.Step(q, P.Schedule(m, added)).state)
  {
    ScheduledQueue(q, m, added);
    var r := P.Step(q, P.Schedule(m, added)).state;
    forall x, y | x in r.jobs && y in r.jobs && x != y ensures r.jobs[x].sessionKey != r.jobs[y].sessionKey {
      if x !in q.jobs {
        var i :| 0 <= i < |added| && r.jobs[x] == added[i] && added[i].jobId == x;
        if y !in q.jobs {
          var j :| 0 <= j < |added| && r.jobs[y] == added[j] && added[j].jobId == y;
          assert i < j || j < i;
        }
      } else if y !in q.jobs {
        var j :| 0 <= j < |added| && r.jobs[y] == added[j] && added[j].jobId == y;
      }
    }
  }

  lemma ScheduledEstimates(q: Queue, m: Manifest, added: seq<Job>)
    requires WellFormed(q) && Estimated(q) && NewJobsOf(q, m, added)
    ensures Estimated(P.Step(q, P.Schedule(m, added)).state)
  {
    ScheduledQueue(q, m, added);
    var r := P.Step(q, P.Schedule(m, added)).state;
    forall id | id in r.jobs ensures HandlerCost(r, r.jobs[id]) == Some(r.jobs[id].estimate) {
      if id in q.jobs {
        assert HandlerCost(q, q.jobs[id]) == Some(q.jobs[id].estimate);
      } else {
        var i :| 0 <= i < |added| && r.jobs[id] == added[i] && added[i].jobId == id;
        assert P.FreshJob(q, m, added[i]);
      }
    }
  }

  lemma ScheduledReservations(q: Queue, m: Manifest, added: seq<Job>)
    requires WellFormed(q) && ReservationsProper(q) && NewJobsOf(q, m, added)
    ensures ReservationsProper(P.Step(q, P.Schedule(m, added)).state)
  {
    ScheduledQueue(q, m, added);
    var r := P.Step(q, P.Schedule(m, added)).state;
    forall key | key in r.reservations ensures exists id :: ReservedBy(r, key, id) {
      var id :| ReservedBy(q, key, id);
      assert ReservedBy(r, key, id);
    }
  }

  lemma ScheduleKeeps(s: System, m: Move)
    requires Inv(s) && m.Schedule? && Enabled(s, m)
    ensures Inv(Step(s, m))
  {
    ScheduledQueue(s.queue, m.manifest, m.added);
    ScheduledKeysUnique(s.queue, m.manifest, m.added);
    ScheduledEstimates(s.queue, m.manifest, m.added);
    ScheduledReservations(s.queue, m.manifest, m.added);
    SameJobsKeep(s.queue, Step(s, m).queue, s.tasks);
  }

  /** A new experiment starts with nothing spent and nothing reserved. */
  lemma NewStartsSolvent(q: Queue, r: Queue, e: ExperimentId)
    requires QueueInv(q) && e !in q.manifests && e in r.manifests
    requires r.reservations == q.reservations && r.costs == q.costs
    ensures P.Solvent(r, e)
  {
    forall key | key in q.reservations ensures q.reservations[key].experiment != e {
      var id :| ReservedBy(q, key, id);
      assert HandlerCost(q, q.jobs[id]).Some?;
    }
    assert Held(r, e) == map[];
  }

  lemma ScheduleKeepsSolvent(q: Queue, m: Manifest, added: seq<Job>)
    requires QueueInv(q) && AllSolvent(q) && NewJobsOf(q, m, added)
    ensures AllSolvent(P.Step(q, P.Schedule(m, added)).state)
  {
    ScheduledQueue(q, m, added);
    var r := P.Step(q, P.Schedule(m, added)).state;
    forall e | e in r.manifests ensures P.Solvent(r, e) {
      if e in q.manifests {
        P.SolventStep(q, P.Schedule(m, added), e);
      } else {
        NewStartsSolvent(q, r, e);
      }
    }
  }

  // ----- runs -----

  lemma StepKeepsInv(s: System, m: Move)
    requires Inv(s) && AllSolvent(s.queue) && Enabled(s, m)
    ensures Inv(Step(s, m))
  {
    match m
    case Start(_, _, _) => StartKeeps(s, m);
    case Advance(_, _, _) => AdvanceKeeps(s, m);
    case Beat(_, _) => BeatKeeps(s, m);
    case Crash(_) => CrashKeeps(s, m);
    case Schedule(_, _) => ScheduleKeeps(s, m);
    case Halt(_) => SwitchKeeps(s, m);
    case Continue(_) => SwitchKeeps(s, m);
  }

  lemma StepQueue(s: System, m: Move)
    requires WellFormed(s.queue) && Enabled(s, m)
    ensures Step(s, m).queue == Answer(s.queue, Call(s, m)).state
  {
  }

  lemma SolventCall(q: Queue, a: P.Action)
    requires WellFormed(q) && AllSolvent(q) && !a.Schedule? && P.SaneAmounts(a) && P.HoldsReservation(q, a)
    ensures AllSolvent(P.Step(q, a).state)
  {
    ManifestsSame(q, a);
    forall e | e in q.manifests ensures P.Solvent(P.Step(q, a).state, e) {
      P.SolventStep(q, a, e);
    }
  }

  /** A completion is covered by the reservation its task holds. */
  lemma TaskCallHolds(q: Queue, t: Task, now: int)
    requires TaskInv(q, t) && CallOf(t, now).Some?
    ensures var a := CallOf(t, now).value; !a.Schedule? && P.SaneAmounts(a) && P.HoldsReservation(q, a)
  {
  }

  lemma CallKeepsSolvent(s: System, m: Move)
    requires Inv(s) && AllSolvent(s.queue) && Enabled(s, m) && Call(s, m).Some? && !m.Schedule?
    ensures AllSolvent(P.Step(s.queue, Call(s, m).value).state)
  {
    if m.Advance? {
      assert TaskInv(s.queue, s.tasks[m.p]);
      TaskCallHolds(s.queue, s.tasks[m.p], m.now);
    }
    SolventCall(s.queue, Call(s, m).value);
  }

  /** The next move of a task is its call to `complete`. */
  predicate Completes(s: System, m: Move) {
    m.Advance? && m.p in s.tasks && s.tasks[m.p].stage.AtComplete?
  }

  lemma StepSound(s: System, m: Move)
    requires Inv(s) && AllSolvent(s.queue) && Enabled(s, m)
    ensures Inv(Step(s, m)) && AllSolvent(Step(s, m).queue)
    ensures Completes(s, m) ==> Answer(s.queue, Call(s, m)).reply == Done
  {
    StepKeepsInv(s, m);
    StepQueue(s, m);
    if m.Schedule? {
      ScheduleKeepsSolvent(s.queue, m.manifest, m.added);
    } else if Call(s, m).Some? {
      CallKeepsSolvent(s, m);
    }
    if Completes(s, m) {
      AdvanceKeeps(s, m);
    }
  }

  ghost predicate Legal(s: System, run: seq<Move>)
    requires WellFormed(s.queue)
    decreases |run|, 0
  {
    run == [] || (Legal(s, run[..|run| - 1]) && Enabled(Run(s, run[..|run| - 1]), run[|run| - 1]))
  }

  ghost function Run(s: System, run: seq<Move>): (r: System)
    requires WellFormed(s.queue) && Legal(s, run)
    ensures WellFormed(r.queue)
    decreases |run|, 1
  {
    if run == [] then s else
      var before, m := Run(s, run[..|run| - 1]), run[|run| - 1];
      StepWellFormed(before, m);
      Step(before, m)
  }

  lemma StepWellFormed(s: System, m: Move)
    requires WellFormed(s.queue) && Enabled(s, m)
    ensures WellFormed(Step(s, m).queue)
  {
    if Call(s, m).Some? {
      P.StepKeepsWellFormed(s.queue, Call(s, m).value);
    }
  }

  /**
   * Whatever the interleaving, the crashes and the schedule calls: spent plus outstanding reservations
   * never pass any ceiling, and every completion by a live worker is accepted.
   */
  lemma {:induction false} RunsStaySound(s: System, run: seq<Move>)
    requires Inv(s) && AllSolvent(s.queue) && Legal(s, run)
    ensures Inv(Run(s, run)) && AllSolvent(Run(s, run).queue)
    ensures run != [] ==>
              var before, m := Run(s, run[..|run| - 1]), run[|run| - 1];
              Completes(before, m) ==> Answer(before.queue, Call(before, m)).reply == Done
  {
    if run != [] {
      RunsStaySound(s, run[..|run| - 1]);
      StepSound(Run(s, run[..|run| - 1]), run[|run| - 1]);
    }
  }

  /** An empty queue without workers is a sound start. */
  lemma EmptyIsSound()
    ensures Inv(System(EMPTY, map[])) && AllSolvent(EMPTY)
  {
  }

  /** In every state reachable from the empty queue no ceiling is passed. */
  lemma RunsFromEmptyStaySound(run: seq<Move>)
    requires WellFormed(EMPTY) && Legal(System(EMPTY, map[]), run)
    ensures Inv(Run(System(EMPTY, map[]), run)) && AllSolvent(Run(System(EMPTY, map[]), run).queue)
  {
    EmptyIsSound();
    RunsStaySound(System(EMPTY, map[]), run);
  }

  /** Halting stops the experiment, continuing clears its stop; the tasks go on. */
  lemma HaltMeans(s: System, e: ExperimentId)
    requires WellFormed(s.queue)
    ensures Step(s, Halt(e)) == s.(queue := s.queue.(stopped := s.queue.stopped + {e}))
    ensures Step(s, Continue(e)) == s.(queue := s.queue.(stopped := s.queue.stopped - {e}))
  {
  }

  // ----- a task that is left alone is one processing -----

  /** Process p executes up to n statements and nobody else moves. */
  ghost function Alone(s: System, p: nat, env: Env, n: nat): System
    requires WellFormed(s.queue)
    decreases n
  {
    if n == 0 || p !in s.tasks then s else
      var m := Advance(p, if s.tasks[p].stage.AtFail? then env.failAt else env.beatAt, env.handler);
      StepWellFormed(s, m);
      Alone(Step(s, m), p, env, n - 1)
  }

  /** The task is over, after a failure report if there was a failure. */
  ghost function Over(s: System, p: nat, failure: Option<bool>, env: Env): System
    requires p in s.tasks
  {
    match failure
    case None => System(s.queue, s.tasks - {p})
    case Some(retryable) =>
      System(FailSpec(s.queue, s.tasks[p].job, retryable, env.failAt).state, s.tasks - {p})
  }

  lemma OverAnyStage(s: System, q: Queue, p: nat, stage: Stage, failure: Option<bool>, env: Env)
    requires p in s.tasks
    ensures Over(System(q, s.tasks[p := s.tasks[p].(stage := stage)]), p, failure, env)
            == Over(System(q, s.tasks), p, failure, env)
  {
    assert s.tasks[p := s.tasks[p].(stage := stage)] - {p} == s.tasks - {p};
  }

  lemma AloneReports(s: System, p: nat, env: Env, n: nat)
    requires WellFormed(s.queue) && p in s.tasks && s.tasks[p].stage.AtFail? && n > 0
    ensures Alone(s, p, env, n) == Over(s, p, Some(s.tasks[p].stage.retryable), env)
  {
  }

  lemma AloneCompletes(s: System, p: nat, env: Env, n: nat)
    requires WellFormed(s.queue) && p in s.tasks && s.tasks[p].stage.AtComplete? && n > 1
    ensures var t := s.tasks[p];
            var done := CompleteSpec(s.queue, t.job, t.stage.result, t.stage.cost);
            var failure := if done.reply.Refused? || !t.stage.metricsOk then Some(false) else None;
            Alone(s, p, env, n) == Over(System(done.state, s.tasks), p, failure, env)
  {
    var m, t := Advance(p, env.beatAt, env.handler), s.tasks[p];
    StepWellFormed(s, m);
    var done := CompleteSpec(s.queue, t.job, t.stage.result, t.stage.cost);
    if done.reply.Refused? || !t.stage.metricsOk {
      AloneReports(Step(s, m), p, env, n - 1);
      OverAnyStage(s, done.state, p, AtFail(false), Some(false), env);
    }
  }

  lemma AloneHandles(s: System, p: nat, env: Env, n: nat)
    requires WellFormed(s.queue) && p in s.tasks && s.tasks[p].stage.AtHandler? && n > 2
    ensures var job, cost := s.tasks[p].job, HandlerCost(s.queue, s.tasks[p].job);
            Alone(s, p, env, n) ==
            if env.handler.Raised? then Over(s, p, Some(env.handler.retryable), env)
            else if cost.None? then Over(s, p, Some(false), env)
            else
              var done := CompleteSpec(s.queue, job, env.handler.result, cost.value);
              var failure := if done.reply.Refused? || !env.handler.metricsOk then Some(false) else None;
              Over(System(done.state, s.tasks), p, failure, env)
  {
    var m := Advance(p, env.beatAt, env.handler);
    StepWellFormed(s, m);
    var next := NextStage(AtHandler, false, env.handler, HandlerCost(s.queue, s.tasks[p].job));
    var r := Step(s, m);
    assert r == System(s.queue, s.tasks[p := s.tasks[p].(stage := next.value)]);
    if next.value.AtFail? {
      AloneReports(r, p, env, n - 1);
      OverAnyStage(s, s.queue, p, next.value, Some(next.value.retryable), env);
    } else {
      AloneCompletes(r, p, env, n - 1);
      var done := CompleteSpec(s.queue, s.tasks[p].job, env.handler.result, next.value.cost);
      var failure := if done.reply.Refused? || !env.handler.metricsOk then Some(false) else None;
      OverAnyStage(s, done.state, p, next.value, failure, env);
    }
  }

  /** From a heartbeat on. */
  lemma AloneBeats(s: System, p: nat, env: Env, n: nat)
    requires WellFormed(s.queue) && p in s.tasks && s.tasks[p].stage.AtHeartbeat? && n > 3
    ensures var t := s.tasks[p];
            var beaten := HeartbeatSpec(s.queue, t.job.jobId, t.worker, LEASE_SECONDS, env.beatAt);
            WellFormed(beaten.state)
            && Alone(s, p, env, n) ==
            if beaten.reply.Refused? then Over(System(beaten.state, s.tasks), p, Some(false), env)
            else Alone(System(beaten.state, s.tasks[p := t.(stage := AtHandler)]), p, env, n - 1)
  {
    var m := Advance(p, env.beatAt, env.handler);
    StepWellFormed(s, m);
    var r := Step(s, m);
    if r.tasks[p].stage.AtFail? {
      AloneReports(r, p, env, n - 1);
      OverAnyStage(s, r.queue, p, AtFail(false), Some(false), env);
    }
  }

  /** Executed without interference, the statements of a task do what `ProcessSpec` says of one processing. */
  lemma AloneIsProcess(s: System, p: nat, env: Env)
    requires WellFormed(s.queue) && p in s.tasks && s.tasks[p].stage.AtReserve?
    ensures var t := s.tasks[p];
            Alone(s, p, env, 5) == System(ProcessSpec(s.queue, t.worker, t.job, env), s.tasks - {p})
  {
    var t, m := s.tasks[p], Advance(p, env.beatAt, env.handler);
    StepWellFormed(s, m);
    var r := Step(s, m);
    if r.tasks[p].stage.AtFail? {
      AloneReports(r, p, env, 4);
      OverAnyStage(s, r.queue, p, AtFail(false), Some(false), env);
    } else {
      AloneBeats(r, p, env, 4);
      var beaten := HeartbeatSpec(r.queue, t.job.jobId, t.worker, LEASE_SECONDS, env.beatAt);
      OverAnyStage(s, beaten.state, p, AtHeartbeat, Some(false), env);
      if !beaten.reply.Refused? {
        var h := System(beaten.state, r.tasks[p := r.tasks[p].(stage := AtHandler)]);
        AloneHandles(h, p, env, 3);
        HandledOver(s, h, p, env);
      }
    }
  }

  lemma HandledOver(s: System, h: System, p: nat, env: Env)
    requires WellFormed(h.queue) && p in s.tasks && h.tasks == s.tasks[p := s.tasks[p].(stage := AtHandler)]
    ensures forall q, failure :: Over(System(q, h.tasks), p, failure, env) == Over(System(q, s.tasks), p, failure, env)
  {
    forall q, failure ensures Over(System(q, h.tasks), p, failure, env) == Over(System(q, s.tasks), p, failure, env) {
      OverAnyStage(s, q, p, AtHandler, failure, env);
    }
  }
}
