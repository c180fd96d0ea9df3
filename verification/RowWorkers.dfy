/**
 * Any number of workers on the row-based queue, their sessions interleaved in any order, while
 * experiments are scheduled, stopped and resumed and workers crash. Leases of crashed workers run out
 * and their rows are handed out again; those of live ones do not.
 */
module RowWorkers {
  import opened Prelude
  import opened ExperimentModel
  import opened RowQueue
  import opened WorkerStages
  import SessionKeys
  import P = RowProtocol
  import RS = RowScheduling

  datatype System = System(db: Database, tasks: Tasks)

  /** The background heartbeat beats until the processing is over, a failure report included. */
  datatype Move =
    | Start(p: nat, worker: string, now: int, locked: set<JobId>)
    | Advance(p: nat, now: int, handler: Handler)
    | Beat(p: nat, now: int)
    | Crash(p: nat)
    | Schedule(manifest: Manifest, added: seq<Job>)
    | Halt(experiment: ExperimentId)
    | Continue(experiment: ExperimentId)

  predicate Live(status: JobStatus) {
    status.Leased? || status.Running?
  }

  predicate RunOut(job: Job, now: int) {
    Live(job.status) && job.leaseUntil.Some? && job.leaseUntil.value < now
  }

  /** No live task has outlived its lease. */
  ghost predicate LiveLeases(s: System, now: int) {
    forall p :: p in s.tasks && s.tasks[p].job.jobId in s.db.jobs ==> !RunOut(s.db.jobs[s.tasks[p].job.jobId].job, now)
  }

  ghost predicate Enabled(s: System, m: Move) {
    match m
    case Start(p, _, now, _) => p !in s.tasks && LiveLeases(s, now)
    case Advance(p, _, _) => p in s.tasks
    case Beat(p, _) => p in s.tasks && !s.tasks[p].stage.AtReserve? && !s.tasks[p].stage.AtHeartbeat?
    case Crash(p) => p in s.tasks
    case Schedule(manifest, added) => RS.NewRowsOf(s.db, manifest, added)
    case _ => true
  }

  function ActionOf(request: Request): P.Action {
    match request
    case Reserve(job, amount) => P.ReserveCost(job, amount)
    case Renew(id, worker, now) => P.Heartbeat(id, worker, LEASE_SECONDS, now)
    case Finish(job, result, cost) => P.Complete(job, result, cost)
    case GiveUp(job, retryable, now) => P.Fail(job, retryable, now)
  }

  function CallOf(t: Task, now: int): Option<P.Action> {
    match RequestOf(t, now) case None => None case Some(request) => Some(ActionOf(request))
  }

  /** The session a move opens; running the handler, crashing and scheduling open none of these. */
  function Call(s: System, m: Move): Option<P.Action>
    requires m.Advance? || m.Beat? ==> m.p in s.tasks
  {
    match m
    case Start(_, worker, now, locked) => Some(P.Claim(worker, LEASE_SECONDS, now, locked))
    case Advance(p, now, _) => CallOf(s.tasks[p], now)
    case Beat(p, now) => Some(P.Heartbeat(s.tasks[p].job.jobId, s.tasks[p].worker, LEASE_SECONDS, now))
    case Crash(_) => None
    case Schedule(_, _) => None
    case Halt(e) => Some(P.Stop(e))
    case Continue(e) => Some(P.Resume(e))
  }

  ghost function Answer(db: Database, call: Option<P.Action>): Stepped {
    match call case None => Stepped(db, Done) case Some(a) => P.Step(db, a)
  }

  /** The handler charges the estimate read back from the manifest row. */
  function RowCost(db: Database, job: Job): Option<nat> {
    if job.experimentId in db.manifests
    then SessionKeys.EstimatedCost(db.manifests[job.experimentId].payload, job.configurationId) else None
  }

  ghost function Step(s: System, m: Move): System
    requires Enabled(s, m)
  {
    var done := Answer(s.db, Call(s, m));
    match m
    case Start(p, worker, _, _) =>
      System(done.state, if done.reply.Granted? then s.tasks[p := Task(done.reply.job, worker, AtReserve)] else s.tasks)
    case Advance(p, _, handler) =>
      var t := s.tasks[p];
      System(done.state, Moved(s.tasks, p, NextStage(t.stage, done.reply.Refused?, handler, RowCost(s.db, t.job))))
    case Crash(p) => System(s.db, s.tasks - {p})
    case Schedule(manifest, added) => System(ScheduleSpec(s.db, manifest, added).state, s.tasks)
    case _ => System(done.state, s.tasks)
  }

  // ----- the invariant -----

  /** The row of a task is leased to its worker and holds what the stage says. */
  predicate RowInv(row: JobRow, t: Task) {
    && SameIdentity(row.job, t.job) && row.job.owner == Some(t.worker)
    && (Live(row.job.status) || (t.stage.AtFail? && row.job.status.Succeeded?))
    && (Holds(t.stage) ==> row.reserved == t.job.estimate)
    && (t.stage.AtComplete? ==> t.stage.cost == t.job.estimate)
  }

  ghost predicate TaskInv(db: Database, t: Task) {
    t.job.jobId in db.jobs && RowInv(db.jobs[t.job.jobId], t)
  }

  ghost predicate TasksInv(db: Database, tasks: Tasks) {
    forall p :: p in tasks ==> TaskInv(db, tasks[p])
  }

  predicate ProperRow(row: JobRow) {
    row.reserved == 0 || row.reserved == row.job.estimate
  }

  /** What a row reserves, left behind by a crash or not, is nothing or its estimate. */
  ghost predicate ReservedProper(db: Database) {
    forall id :: id in db.jobs ==> ProperRow(db.jobs[id])
  }

  ghost predicate Estimated(db: Database) {
    forall id :: id in db.jobs ==> RowCost(db, db.jobs[id].job) == Some(db.jobs[id].job.estimate)
  }

  ghost predicate DatabaseInv(db: Database) {
    WellFormed(db) && Estimated(db) && ReservedProper(db)
  }

  ghost predicate Inv(s: System) {
    DatabaseInv(s.db) && TasksInv(s.db, s.tasks) && OneTaskPerJob(s.tasks)
  }

  ghost predicate AllSolvent(db: Database) {
    forall e :: e in db.manifests ==> P.Solvent(db, e)
  }

  // ----- what a session leaves alone -----

  /** Only one row moved, the identities of rows and the payloads of manifests stayed. */
  ghost predicate Local(db: Database, r: Database, id: JobId) {
    && P.SameRows(db, r)
    && (forall j :: j in db.jobs && j != id ==> r.jobs[j] == db.jobs[j])
    && (forall e :: e in db.manifests ==> r.manifests[e].payload == db.manifests[e].payload)
  }

  lemma HeartbeatIsLocal(db: Database, a: P.Action)
    requires WellFormed(db) && a.Heartbeat?
    ensures Local(db, P.Step(db, a).state, a.id)
  {
    P.StepKeepsRows(db, a);
  }

  lemma CompleteIsLocal(db: Database, a: P.Action)
    requires WellFormed(db) && a.Complete?
    ensures Local(db, P.Step(db, a).state, a.job.jobId)
  {
    P.StepKeepsRows(db, a);
  }

  lemma ReserveOrFailIsLocal(db: Database, a: P.Action)
    requires WellFormed(db) && (a.ReserveCost? || a.Fail?)
    ensures Local(db, P.Step(db, a).state, a.job.jobId)
  {
    P.StepKeepsRows(db, a);
  }

  lemma SessionIsLocal(db: Database, a: P.Action)
    requires WellFormed(db) && (P.UsesJob(a) || a.Heartbeat?)
    ensures Local(db, P.Step(db, a).state, if a.Heartbeat? then a.id else a.job.jobId)
  {
    if a.Heartbeat? {
      HeartbeatIsLocal(db, a);
    } else if a.Complete? {
      CompleteIsLocal(db, a);
    } else {
      ReserveOrFailIsLocal(db, a);
    }
  }

  lemma LocalEstimated(db: Database, r: Database)
    requires WellFormed(db) && Estimated(db) && P.SameRows(db, r)
    requires forall e :: e in db.manifests ==> r.manifests[e].payload == db.manifests[e].payload
    ensures Estimated(r)
  {
    forall id | id in r.jobs ensures RowCost(r, r.jobs[id].job) == Some(r.jobs[id].job.estimate) {
      assert RowCost(db, db.jobs[id].job) == Some(db.jobs[id].job.estimate);
    }
  }

  lemma LocalKeepsDatabase(db: Database, r: Database, id: JobId)
    requires DatabaseInv(db) && WellFormed(r) && Local(db, r, id)
    requires id in r.jobs ==> ProperRow(r.jobs[id])
    ensures DatabaseInv(r)
  {
    LocalEstimated(db, r);
    forall j | j in r.jobs ensures ProperRow(r.jobs[j]) {
      if j != id {
        assert ProperRow(db.jobs[j]);
      }
    }
  }

  // ----- a task's own steps -----

  /** The row is proper, and as the next stage needs it. */
  ghost predicate GoodRow(r: Database, t: Task, next: Option<Stage>) {
    && t.job.jobId in r.jobs && ProperRow(r.jobs[t.job.jobId])
    && (next.Some? ==> RowInv(r.jobs[t.job.jobId], t.(stage := next.value)))
  }

  lemma ReserveOwn(db: Database, t: Task)
    requires WellFormed(db) && TaskInv(db, t) && ProperRow(db.jobs[t.job.jobId]) && t.stage.AtReserve?
    ensures var done := ReserveSpec(db, t.job, t.job.estimate);
            GoodRow(done.state, t, Some(if done.reply.Refused? then AtFail(false) else AtHeartbeat))
  {
  }

  lemma BeatOwn(db: Database, t: Task, now: int)
    requires TaskInv(db, t) && ProperRow(db.jobs[t.job.jobId]) && !t.stage.AtReserve?
    ensures var done := HeartbeatSpec(db, t.job.jobId, t.worker, LEASE_SECONDS, now);
            && done.reply == Done && GoodRow(done.state, t, Some(t.stage))
            && (t.stage.AtHeartbeat? ==> GoodRow(done.state, t, Some(AtHandler)))
  {
  }

  /** A completion always holds its reservation, so only a stop can refuse it. */
  lemma CompletionAnswer(db: Database, t: Task)
    requires WellFormed(db) && TaskInv(db, t) && t.stage.AtComplete?
    requires t.job.experimentId in db.manifests && P.Solvent(db, t.job.experimentId)
    ensures CompleteSpec(db, t.job, t.stage.result, t.stage.cost).reply
            == if db.manifests[t.job.experimentId].stopRequested then Refused(ExperimentStopped) else Done
  {
    P.SolventStep(db, P.Complete(t.job, t.stage.result, t.stage.cost), t.job.experimentId);
  }

  lemma CompleteOwn(db: Database, t: Task)
    requires WellFormed(db) && TaskInv(db, t) && ProperRow(db.jobs[t.job.jobId]) && t.stage.AtComplete?
    ensures var done := CompleteSpec(db, t.job, t.stage.result, t.stage.cost);
            && GoodRow(done.state, t, None) && GoodRow(done.state, t, Some(AtFail(false)))
  {
  }

  lemma FailOwn(db: Database, t: Task, retryable: bool, now: int)
    requires WellFormed(db) && TaskInv(db, t)
    ensures GoodRow(FailSpec(db, t.job, retryable, now).state, t, None)
  {
  }

  ghost predicate OnlyStopRefuses(db: Database, t: Task, reply: Reply) {
    t.stage.AtComplete? && t.job.experimentId in db.manifests ==>
      reply == if db.manifests[t.job.experimentId].stopRequested then Refused(ExperimentStopped) else Done
  }

  /** The session of a task left its row as its next stage needs it, and only a stop refused a completion. */
  ghost predicate OwnGood(db: Database, t: Task, now: int, handler: Handler) {
    var done := Answer(db, CallOf(t, now));
    && GoodRow(done.state, t, NextStage(t.stage, done.reply.Refused?, handler, Some(t.job.estimate)))
    && OnlyStopRefuses(db, t, done.reply)
  }

  lemma CompleteGood(db: Database, t: Task, now: int, handler: Handler)
    requires WellFormed(db) && TaskInv(db, t) && ProperRow(db.jobs[t.job.jobId]) && t.stage.AtComplete?
    requires t.job.experimentId in db.manifests && P.Solvent(db, t.job.experimentId)
    ensures OwnGood(db, t, now, handler)
  {
    CompletionAnswer(db, t);
    CompleteOwn(db, t);
  }

  lemma ReserveGood(db: Database, t: Task, now: int, handler: Handler)
    requires WellFormed(db) && TaskInv(db, t) && ProperRow(db.jobs[t.job.jobId]) && t.stage.AtReserve?
    ensures OwnGood(db, t, now, handler)
  {
    ReserveOwn(db, t);
  }

  lemma BeatGood(db: Database, t: Task, now: int, handler: Handler)
    requires TaskInv(db, t) && ProperRow(db.jobs[t.job.jobId]) && t.stage.AtHeartbeat?
    ensures OwnGood(db, t, now, handler)
  {
    BeatOwn(db, t, now);
  }

  lemma HandlerGood(db: Database, t: Task, now: int, handler: Handler)
    requires TaskInv(db, t) && ProperRow(db.jobs[t.job.jobId]) && t.stage.AtHandler?
    ensures OwnGood(db, t, now, handler)
  {
  }

  lemma FailGood(db: Database, t: Task, now: int, handler: Handler)
    requires WellFormed(db) && TaskInv(db, t) && t.stage.AtFail?
    ensures OwnGood(db, t, now, handler)
  {
    FailOwn(db, t, t.stage.retryable, now);
  }

  lemma OwnStep(db: Database, t: Task, now: int, handler: Handler)
    requires WellFormed(db) && AllSolvent(db) && TaskInv(db, t) && ProperRow(db.jobs[t.job.jobId])
    ensures OwnGood(db, t, now, handler)
  {
    match t.stage
    case AtReserve => ReserveGood(db, t, now, handler);
    case AtHeartbeat => BeatGood(db, t, now, handler);
    case AtHandler => HandlerGood(db, t, now, handler);
    case AtComplete(_, _, _) => CompleteGood(db, t, now, handler);
    case AtFail(_) => FailGood(db, t, now, handler);
  }

  // ----- every move keeps the invariant -----

  lemma OthersKeep(s: System, r: Database, p: nat, next: Option<Stage>)
    requires TasksInv(s.db, s.tasks) && OneTaskPerJob(s.tasks) && p in s.tasks
    requires Local(s.db, r, s.tasks[p].job.jobId) && GoodRow(r, s.tasks[p], next)
    ensures TasksInv(r, Moved(s.tasks, p, next))
  {
    var after := Moved(s.tasks, p, next);
    forall o | o in after ensures TaskInv(r, after[o]) {
      if o != p {
        assert TaskInv(s.db, s.tasks[o]);
      }
    }
  }

  lemma Assemble(s: System, r: Database, p: nat, next: Option<Stage>)
    requires Inv(s) && p in s.tasks && WellFormed(r)
    requires Local(s.db, r, s.tasks[p].job.jobId) && GoodRow(r, s.tasks[p], next)
    ensures Inv(System(r, Moved(s.tasks, p, next)))
  {
    LocalKeepsDatabase(s.db, r, s.tasks[p].job.jobId);
    OthersKeep(s, r, p, next);
    MovedOnePerJob(s.tasks, p, next);
  }

  lemma CallIsLocal(db: Database, t: Task, now: int)
    requires WellFormed(db) && t.job.jobId in db.jobs
    ensures WellFormed(Answer(db, CallOf(t, now)).state)
    ensures Local(db, Answer(db, CallOf(t, now)).state, t.job.jobId)
  {
    if CallOf(t, now).Some? {
      SessionIsLocal(db, CallOf(t, now).value);
      P.StepKeepsRows(db, CallOf(t, now).value);
    }
  }

  lemma AdvanceKeeps(s: System, m: Move)
    requires Inv(s) && AllSolvent(s.db) && m.Advance? && Enabled(s, m)
    ensures Inv(Step(s, m))
    ensures OnlyStopRefuses(s.db, s.tasks[m.p], Answer(s.db, CallOf(s.tasks[m.p], m.now)).reply)
  {
    var db, t := s.db, s.tasks[m.p];
    assert TaskInv(db, t) && ProperRow(db.jobs[t.job.jobId]);
    assert RowCost(db, db.jobs[t.job.jobId].job) == Some(t.job.estimate);
    OwnStep(db, t, m.now, m.handler);
    CallIsLocal(db, t, m.now);
    var done := Answer(db, CallOf(t, m.now));
    Assemble(s, done.state, m.p, NextStage(t.stage, done.reply.Refused?, m.handler, RowCost(db, t.job)));
  }

  lemma BeatKeeps(s: System, m: Move)
    requires Inv(s) && m.Beat? && Enabled(s, m)
    ensures Inv(Step(s, m))
  {
    var t, a := s.tasks[m.p], Call(s, m).value;
    assert TaskInv(s.db, t) && ProperRow(s.db.jobs[t.job.jobId]);
    BeatOwn(s.db, t, m.now);
    SessionIsLocal(s.db, a);
    P.StepKeepsRows(s.db, a);
    Assemble(s, P.Step(s.db, a).state, m.p, Some(t.stage));
    SameStage(s.tasks, m.p);
  }

  /** A crash leaves row, lease and reservation as they are. */
  lemma CrashKeeps(s: System, m: Move)
    requires Inv(s) && m.Crash? && Enabled(s, m)
    ensures Inv(Step(s, m))
  {
  }

  lemma SameRowsKeep(db: Database, r: Database, tasks: Tasks)
    requires TasksInv(db, tasks) && forall id :: id in db.jobs ==> id in r.jobs && r.jobs[id] == db.jobs[id]
    ensures TasksInv(r, tasks)
  {
    forall p | p in tasks ensures TaskInv(r, tasks[p]) {
      assert TaskInv(db, tasks[p]);
    }
  }

  lemma SwitchKeeps(s: System, m: Move)
    requires Inv(s) && (m.Halt? || m.Continue?)
    ensures Inv(Step(s, m))
  {
    var a := Call(s, m).value;
    P.StepKeepsRows(s.db, a);
    LocalEstimated(s.db, P.Step(s.db, a).state);
    SameRowsKeep(s.db, P.Step(s.db, a).state, s.tasks);
  }

  // ----- claims -----

  /** The row of the job carries the new lease. */
  function WithLease(db: Database, job: Job): Database
    requires job.jobId in db.jobs
  {
    db.(jobs := db.jobs[job.jobId := db.jobs[job.jobId].(job := job)])
  }

  /** A claim hands out a row that no live task works on: a free one, or one whose worker crashed. */
  lemma ClaimTakesFree(s: System, a: P.Action)
    requires Inv(s) && a.Claim? && LiveLeases(s, a.now) && P.Step(s.db, a).reply.Granted?
    ensures var job := P.Step(s.db, a).reply.job;
            && job.jobId in s.db.jobs && P.Step(s.db, a).state == WithLease(s.db, job)
            && job == Lease(s.db.jobs[job.jobId].job, a.worker, a.seconds, a.now)
            && forall p :: p in s.tasks ==> s.tasks[p].job.jobId != job.jobId
  {
    var job := P.Step(s.db, a).reply.job;
    var id := GrantedRow(s.db, a);
    forall p | p in s.tasks ensures s.tasks[p].job.jobId != id {
      assert TaskInv(s.db, s.tasks[p]);
    }
  }

  lemma GrantedRow(db: Database, a: P.Action) returns (id: JobId)
    requires WellFormed(db) && a.Claim? && P.Step(db, a).reply.Granted?
    ensures Claimable(db, id, a.now, a.locked)
    ensures P.Step(db, a).reply.job == Lease(db.jobs[id].job, a.worker, a.seconds, a.now)
    ensures P.Step(db, a).reply.job.jobId == id && P.Step(db, a).state == WithLease(db, P.Step(db, a).reply.job)
  {
    var job := P.Step(db, a).reply.job;
    id :| IsNext(db, id, a.now, a.locked) && job == Lease(db.jobs[id].job, a.worker, a.seconds, a.now)
          && P.Step(db, a).state == db.(jobs := db.jobs[id := db.jobs[id].(job := job)]);
  }

  lemma LeaseKeepsDatabase(db: Database, job: Job)
    requires DatabaseInv(db) && job.jobId in db.jobs && SameIdentity(job, db.jobs[job.jobId].job)
    ensures DatabaseInv(WithLease(db, job))
  {
    assert ProperRow(db.jobs[job.jobId]);
    LocalKeepsDatabase(db, WithLease(db, job), job.jobId);
  }

  lemma LeaseKeepsTasks(s: System, p: nat, job: Job, worker: string)
    requires TasksInv(s.db, s.tasks) && job.jobId in s.db.jobs
    requires SameIdentity(job, s.db.jobs[job.jobId].job) && Live(job.status) && job.owner == Some(worker)
    requires forall o :: o in s.tasks ==> s.tasks[o].job.jobId != job.jobId
    ensures TasksInv(WithLease(s.db, job), s.tasks[p := Task(job, worker, AtReserve)])
  {
    var tasks := s.tasks[p := Task(job, worker, AtReserve)];
    forall o | o in tasks ensures TaskInv(WithLease(s.db, job), tasks[o]) {
      if o != p {
        assert TaskInv(s.db, s.tasks[o]);
      }
    }
  }

  lemma NewTaskKeeps(s: System, p: nat, job: Job, worker: string)
    requires Inv(s) && job.jobId in s.db.jobs
    requires SameIdentity(job, s.db.jobs[job.jobId].job) && Live(job.status) && job.owner == Some(worker)
    requires forall o :: o in s.tasks ==> s.tasks[o].job.jobId != job.jobId
    ensures Inv(System(WithLease(s.db, job), s.tasks[p := Task(job, worker, AtReserve)]))
  {
    LeaseKeepsDatabase(s.db, job);
    LeaseKeepsTasks(s, p, job, worker);
    AddedOnePerJob(s.tasks, p, Task(job, worker, AtReserve));
  }

  lemma StartKeeps(s: System, m: Move)
    requires Inv(s) && m.Start? && Enabled(s, m)
    ensures Inv(Step(s, m))
  {
    var a := Call(s, m).value;
    if P.Step(s.db, a).reply.Granted? {
      ClaimTakesFree(s, a);
      NewTaskKeeps(s, m.p, P.Step(s.db, a).reply.job, m.worker);
    } else {
      assert P.Step(s.db, a).state == s.db;
    }
  }

  // ----- scheduling -----

  lemma ScheduledEstimates(db: Database, m: Manifest, added: seq<Job>)
    requires WellFormed(db) && Estimated(db) && RS.NewRowsOf(db, m, added) && ScheduleSpec(db, m, added).reply == Done
    ensures Estimated(ScheduleSpec(db, m, added).state)
  {
    RS.ScheduledRows(db, m, added);
    var r := ScheduleSpec(db, m, added).state;
    forall id | id in r.jobs ensures RowCost(r, r.jobs[id].job) == Some(r.jobs[id].job.estimate) {
      if id in db.jobs {
        assert RowCost(db, db.jobs[id].job) == Some(db.jobs[id].job.estimate);
      }
    }
  }

  lemma ScheduleKeeps(s: System, m: Move)
    requires Inv(s) && m.Schedule? && Enabled(s, m)
    ensures Inv(Step(s, m))
  {
    var done := ScheduleSpec(s.db, m.manifest, m.added);
    if done.reply == Done {
      RS.ScheduledRows(s.db, m.manifest, m.added);
      ScheduledEstimates(s.db, m.manifest, m.added);
      SameRowsKeep(s.db, done.state, s.tasks);
      forall id | id in done.state.jobs ensures ProperRow(done.state.jobs[id]) {
        assert id in s.db.jobs ==> ProperRow(s.db.jobs[id]);
      }
    }
  }

  lemma ScheduleKeepsSolvent(db: Database, m: Manifest, added: seq<Job>)
    requires WellFormed(db) && AllSolvent(db) && RS.NewRowsOf(db, m, added)
    ensures AllSolvent(ScheduleSpec(db, m, added).state)
  {
    var r := ScheduleSpec(db, m, added).state;
    forall e | e in r.manifests ensures P.Solvent(r, e) {
      RS.ScheduleKeepsBooks(db, m, added, e);
    }
  }

  // ----- runs -----

  lemma SolventCall(db: Database, a: P.Action)
    requires WellFormed(db) && AllSolvent(db) && P.Grounded(db, a) && P.Sane(a) && P.HoldsReservation(db, a)
    ensures AllSolvent(P.Step(db, a).state)
  {
    P.StepKeepsRows(db, a);
    forall e | e in db.manifests ensures P.Solvent(P.Step(db, a).state, e) {
      P.SolventStep(db, a, e);
    }
  }

  /** A completion is covered by the reservation its task holds. */
  lemma TaskCallHolds(db: Database, t: Task, now: int)
    requires TaskInv(db, t) && CallOf(t, now).Some?
    ensures var a := CallOf(t, now).value; P.Grounded(db, a) && P.Sane(a) && P.HoldsReservation(db, a)
  {
  }

  lemma CallKeepsSolvent(s: System, m: Move)
    requires Inv(s) && AllSolvent(s.db) && Enabled(s, m) && Call(s, m).Some?
    ensures AllSolvent(P.Step(s.db, Call(s, m).value).state)
  {
    if m.Advance? {
      assert TaskInv(s.db, s.tasks[m.p]);
      TaskCallHolds(s.db, s.tasks[m.p], m.now);
    }
    SolventCall(s.db, Call(s, m).value);
  }

  lemma StepKeepsInv(s: System, m: Move)
    requires Inv(s) && AllSolvent(s.db) && Enabled(s, m)
    ensures Inv(Step(s, m))
  {
    match m
    case Start(_, _, _, _) => StartKeeps(s, m);
    case Advance(_, _, _) => AdvanceKeeps(s, m);
    case Beat(_, _) => BeatKeeps(s, m);
    case Crash(_) => CrashKeeps(s, m);
    case Schedule(_, _) => ScheduleKeeps(s, m);
    case Halt(_) => SwitchKeeps(s, m);
    case Continue(_) => SwitchKeeps(s, m);
  }

  lemma StepDatabase(s: System, m: Move)
    requires Enabled(s, m)
    ensures Step(s, m).db == if m.Schedule? then ScheduleSpec(s.db, m.manifest, m.added).state
            else Answer(s.db, Call(s, m)).state
  {
  }

  lemma StepSound(s: System, m: Move)
    requires Inv(s) && AllSolvent(s.db) && Enabled(s, m)
    ensures Inv(Step(s, m)) && AllSolvent(Step(s, m).db)
    ensures m.Advance? ==> OnlyStopRefuses(s.db, s.tasks[m.p], Answer(s.db, CallOf(s.tasks[m.p], m.now)).reply)
  {
    StepKeepsInv(s, m);
    StepDatabase(s, m);
    if m.Advance? {
      AdvanceKeeps(s, m);
    }
    if m.Schedule? {
      ScheduleKeepsSolvent(s.db, m.manifest, m.added);
    } else if Call(s, m).Some? {
      CallKeepsSolvent(s, m);
    }
  }

  ghost predicate Legal(s: System, run: seq<Move>)
    decreases |run|, 0
  {
    run == [] || (Legal(s, run[..|run| - 1]) && Enabled(Run(s, run[..|run| - 1]), run[|run| - 1]))
  }

  ghost function Run(s: System, run: seq<Move>): System
    requires Legal(s, run)
    decreases |run|, 1
  {
    if run == [] then s else Step(Run(s, run[..|run| - 1]), run[|run| - 1])
  }

  /**
   * Whatever the interleaving, the crashes and the schedule calls: each completion by a live worker
   * holds its reservation, spent plus reserved never pass a ceiling, and nothing but a stop refuses a
   * completion.
   */
  lemma {:induction false} RunsStaySound(s: System, run: seq<Move>)
    requires Inv(s) && AllSolvent(s.db) && Legal(s, run)
    ensures Inv(Run(s, run)) && AllSolvent(Run(s, run).db)
    ensures run != [] && run[|run| - 1].Advance? ==>
              var before, m := Run(s, run[..|run| - 1]), run[|run| - 1];
              OnlyStopRefuses(before.db, before.tasks[m.p], Answer(before.db, CallOf(before.tasks[m.p], m.now)).reply)
  {
    if run != [] {
      RunsStaySound(s, run[..|run| - 1]);
      StepSound(Run(s, run[..|run| - 1]), run[|run| - 1]);
    }
  }

  /** An empty database without workers is a sound start. */
  lemma EmptyIsSound()
    ensures Inv(System(EMPTY, map[])) && AllSolvent(EMPTY)
  {
  }

  /** In every state reachable from the empty database the books balance and no ceiling is passed. */
  lemma RunsFromEmptyStaySound(run: seq<Move>)
    requires Legal(System(EMPTY, map[]), run)
    ensures Inv(Run(System(EMPTY, map[]), run)) && AllSolvent(Run(System(EMPTY, map[]), run).db)
  {
    EmptyIsSound();
    RunsStaySound(System(EMPTY, map[]), run);
  }

  /** Halting sets the stop flag of the experiment's manifest, continuing clears it; the tasks go on. */
  lemma HaltMeans(s: System, e: ExperimentId)
    requires e in s.db.manifests
    ensures var halted, continued := Step(s, Halt(e)), Step(s, Continue(e));
            && e in halted.db.manifests && halted.db.manifests[e].stopRequested
            && e in continued.db.manifests && !continued.db.manifests[e].stopRequested
            && halted.tasks == s.tasks && continued.tasks == s.tasks
  {
    P.SwitchMeans(s.db, e, true);
    P.SwitchMeans(s.db, e, false);
  }

  // ----- what becomes of a row whose task is left alone -----

  /** Process p executes up to n statements and nobody else moves. */
  ghost function Alone(s: System, p: nat, now: int, handler: Handler, n: nat): System
    decreases n
  {
    if n == 0 || p !in s.tasks then s
    else Alone(Step(s, Advance(p, now, handler)), p, now, handler, n - 1)
  }

  /** The row of the task has this status and money charged, and the task is over. */
  ghost predicate Ended(r: System, s: System, p: nat, status: JobStatus, charged: int)
    requires p in s.tasks
  {
    var id, e := s.tasks[p].job.jobId, s.tasks[p].job.experimentId;
    && p !in r.tasks && id in r.db.jobs && r.db.jobs[id].job.status == status && r.db.jobs[id].reserved == 0
    && e in s.db.manifests && e in r.db.manifests
    && r.db.manifests[e].spent == s.db.manifests[e].spent + charged
  }

  /** The handler returned, and its cost is known and fits beside what a running experiment spent. */
  ghost predicate Charged(db: Database, job: Job, handler: Handler) {
    && handler.Returned? && job.experimentId in db.manifests && !db.manifests[job.experimentId].stopRequested
    && var m := db.manifests[job.experimentId];
    var cost := SessionKeys.EstimatedCost(m.payload, job.configurationId);
    cost.Some? && m.spent + cost.value <= m.ceiling
  }

  ghost predicate Known(s: System, p: nat) {
    p in s.tasks && s.tasks[p].job.jobId in s.db.jobs && s.tasks[p].job.experimentId in s.db.manifests
  }

  ghost function AfterReport(retryable: bool, job: Job): (status: JobStatus)
    ensures status == RetryWait <==> retryable && job.attempts < job.maxAttempts
    ensures status in {RetryWait, Failed}
  {
    if retryable && job.attempts < job.maxAttempts then RetryWait else Failed
  }

  lemma ReportEnds(s: System, p: nat, now: int, handler: Handler, n: nat)
    requires Known(s, p) && s.tasks[p].stage.AtFail? && n > 0
    ensures Ended(Alone(s, p, now, handler, n), s, p, AfterReport(s.tasks[p].stage.retryable, s.tasks[p].job), 0)
  {
    P.FailMeans(s.db, s.tasks[p].job, s.tasks[p].stage.retryable, now);
  }

  lemma CompleteEnds(s: System, p: nat, now: int, handler: Handler, n: nat)
    requires Known(s, p) && s.tasks[p].stage.AtComplete? && n > 1
    ensures var t, m := s.tasks[p], s.db.manifests[s.tasks[p].job.experimentId];
            var fits := !m.stopRequested && m.spent + t.stage.cost <= m.ceiling;
            Ended(Alone(s, p, now, handler, n), s, p, if fits && t.stage.metricsOk then Succeeded else Failed,
                  if fits then t.stage.cost else 0)
  {
    var t := s.tasks[p];
    P.CompleteMeans(s.db, t.job, t.stage.result, t.stage.cost);
    var r := Step(s, Advance(p, now, handler));
    if p in r.tasks {
      ReportEnds(r, p, now, handler, n - 1);
    }
  }

  lemma HandlerEnds(s: System, p: nat, now: int, handler: Handler, n: nat)
    requires Known(s, p) && s.tasks[p].stage.AtHandler? && n > 2
    ensures var job := s.tasks[p].job;
            var charged := Charged(s.db, job, handler);
            Ended(Alone(s, p, now, handler, n), s, p,
                  if handler.Raised? then AfterReport(handler.retryable, job)
                  else if charged && handler.metricsOk then Succeeded else Failed,
                  if charged
                  then SessionKeys.EstimatedCost(s.db.manifests[job.experimentId].payload, job.configurationId).value
                  else 0)
  {
    var r := Step(s, Advance(p, now, handler));
    if r.tasks[p].stage.AtFail? {
      ReportEnds(r, p, now, handler, n - 1);
    } else {
      CompleteEnds(r, p, now, handler, n - 1);
    }
  }

  lemma HeartbeatEnds(s: System, p: nat, now: int, handler: Handler, n: nat)
    requires Known(s, p) && s.tasks[p].stage.AtHeartbeat? && n > 3
    ensures var t := s.tasks[p];
            var owned := s.db.jobs[t.job.jobId].job.owner == Some(t.worker);
            var charged := owned && Charged(s.db, t.job, handler);
            Ended(Alone(s, p, now, handler, n), s, p,
                  if owned && handler.Raised? then AfterReport(handler.retryable, t.job)
                  else if charged && handler.metricsOk then Succeeded else Failed,
                  if charged
                  then SessionKeys.EstimatedCost(s.db.manifests[t.job.experimentId].payload,
                                                 t.job.configurationId).value
                  else 0)
  {
    P.HeartbeatMeans(s.db, s.tasks[p].job.jobId, s.tasks[p].worker, LEASE_SECONDS, now);
    var r := Step(s, Advance(p, now, handler));
    if r.tasks[p].stage.AtFail? {
      ReportEnds(r, p, now, handler, n - 1);
    } else {
      HandlerEnds(r, p, now, handler, n - 1);
    }
  }

  /** The worker may work on the row: its cost is reserved or still fits, and the lease is its own. */
  ghost predicate MayWork(s: System, p: nat)
    requires Known(s, p)
  {
    var t := s.tasks[p];
    var m, row := s.db.manifests[t.job.experimentId], s.db.jobs[t.job.jobId];
    && (row.reserved != 0 || (!m.stopRequested && m.spent + m.reserved + t.job.estimate <= m.ceiling))
    && row.job.owner == Some(t.worker)
  }

  /**
   * The row has succeeded exactly if the worker was allowed to work on it, its cost was charged and the metrics
   * could be read; it waits for a retry exactly if the handler of a permitted worker raised a retryable error
   * and the worker saw attempts left; else it has failed. The cost is charged even if the metrics are unreadable.
   */
  lemma TaskEnds(s: System, p: nat, now: int, handler: Handler)
    requires Known(s, p) && s.tasks[p].stage.AtReserve?
    ensures var r, job, may := Alone(s, p, now, handler, 5), s.tasks[p].job, MayWork(s, p);
            && p !in r.tasks && job.jobId in r.db.jobs && r.db.jobs[job.jobId].reserved == 0
            && var status := r.db.jobs[job.jobId].job.status;
            && (status == Succeeded <==> may && Charged(s.db, job, handler) && handler.metricsOk)
            && (status == RetryWait <==>
                  may && handler.Raised? && handler.retryable && job.attempts < job.maxAttempts)
            && status in {Succeeded, RetryWait, Failed}
            && job.experimentId in r.db.manifests
            && r.db.manifests[job.experimentId].spent - s.db.manifests[job.experimentId].spent ==
               if may && Charged(s.db, job, handler)
               then SessionKeys.EstimatedCost(s.db.manifests[job.experimentId].payload, job.configurationId).value
                 else 0
  {
    P.ReserveMeans(s.db, s.tasks[p].job, s.tasks[p].job.estimate);
    var r := Step(s, Advance(p, now, handler));
    if r.tasks[p].stage.AtFail? {
      ReportEnds(r, p, now, handler, 4);
    } else {
      HeartbeatEnds(r, p, now, handler, 4);
    }
  }
}
