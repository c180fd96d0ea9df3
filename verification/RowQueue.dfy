/**
 * The row-based experiment queue. Each operation is one database session: it commits as a whole,
 * or, when it raises, leaves every row as it was.
 */
module RowQueue {
  import opened Prelude
  import opened ExperimentModel
  import opened SessionKeys
  import IQ = InMemoryQueue

  datatype ExperimentStatus = Created | RunningExperiment | StoppedExperiment | PausedCostCeiling

  /** `payload` is the manifest as it was first scheduled. */
  datatype ManifestRow = ManifestRow(
    payload: Manifest, ceiling: int, spent: int, reserved: int, stopRequested: bool, status: ExperimentStatus)

  datatype JobRow = JobRow(job: Job, reserved: int, actual: Option<int>)

  datatype Database = Database(
    manifests: map<ExperimentId, ManifestRow>,
    jobs: map<JobId, JobRow>,
    sessions: map<string, Document>)

  const EMPTY: Database := Database(map[], map[], map[])

  datatype Stepped = Stepped(state: Database, reply: Reply)

  /** Rows are keyed by their id and refer to an existing manifest. */
  ghost predicate WellFormed(db: Database) {
    forall id :: id in db.jobs ==> db.jobs[id].job.jobId == id && db.jobs[id].job.experimentId in db.manifests
  }

  // ----- claim -----

  predicate Claimable(db: Database, id: JobId, now: int, locked: set<JobId>) {
    && id in db.jobs && id !in locked
    && var job := db.jobs[id].job;
    && job.experimentId in db.manifests && !db.manifests[job.experimentId].stopRequested
    && (((job.status.Pending? || job.status.RetryWait?) && job.notBefore <= now)
        || ((job.status.Leased? || job.status.Running?) && job.leaseUntil.Some? && job.leaseUntil.value < now))
  }

  /** ORDER BY not_before, id */
  predicate Precedes(a: Job, b: Job) {
    a.notBefore < b.notBefore || (a.notBefore == b.notBefore && a.jobId <= b.jobId)
  }

  ghost predicate IsNext(db: Database, id: JobId, now: int, locked: set<JobId>) {
    && Claimable(db, id, now, locked)
    && forall j :: Claimable(db, j, now, locked) ==> Precedes(db.jobs[id].job, db.jobs[j].job)
  }

  lemma NextIsUnique(db: Database, i: JobId, j: JobId, now: int, locked: set<JobId>)
    requires WellFormed(db) && IsNext(db, i, now, locked) && IsNext(db, j, now, locked)
    ensures i == j
  {
  }

  /** `locked` are the jobs whose own row or manifest row another session holds. */
  ghost function ClaimSpec(db: Database, worker: string, seconds: int, now: int, locked: set<JobId>): Stepped {
    if id :| IsNext(db, id, now, locked) then
      var row := db.jobs[id].(job := Lease(db.jobs[id].job, worker, seconds, now));
      Stepped(db.(jobs := db.jobs[id := row]), Granted(row.job))
    else Stepped(db, Nothing)
  }

  // ----- the other operations -----

  ghost function HeartbeatSpec(db: Database, id: JobId, worker: string, seconds: int, now: int): Stepped {
    if id !in db.jobs || db.jobs[id].job.owner != Some(worker) then Stepped(db, Refused(NotLeaseOwner))
    else
      var row := db.jobs[id];
      var job := row.job.(leaseUntil := Some(now + seconds * SECOND), status := Running);
      Stepped(db.(jobs := db.jobs[id := row.(job := job)]), Done)
  }

  ghost function ReserveSpec(db: Database, job: Job, amount: int): Stepped {
    var e := job.experimentId;
    if e !in db.manifests || job.jobId !in db.jobs then Stepped(db, Refused(UnknownId)) else
    var m, row := db.manifests[e], db.jobs[job.jobId];
    if row.reserved != 0 then Stepped(db, Done)
    else if m.stopRequested then Stepped(db, Refused(ExperimentStopped))
    else if m.spent + m.reserved + amount > m.ceiling then Stepped(db, Refused(CeilingExceeded))
    else
      Stepped(db.(manifests := db.manifests[e := m.(reserved := m.reserved + amount)],
                  jobs := db.jobs[job.jobId := row.(reserved := amount)]), Done)
  }

  ghost function CompleteSpec(db: Database, job: Job, result: Document, cost: int): Stepped {
    var e := job.experimentId;
    if e !in db.manifests then Stepped(db, Refused(UnknownId)) else
    var m := db.manifests[e];
    if m.stopRequested then Stepped(db, Refused(ExperimentStopped))
    else if job.jobId !in db.jobs then Stepped(db, Refused(UnknownId))
    else if m.spent + cost > m.ceiling then Stepped(db, Refused(CeilingExceeded))
    else
      var row := db.jobs[job.jobId];
      Stepped(Database(
                db.manifests[e := m.(reserved := m.reserved - row.reserved, spent := m.spent + cost)],
                db.jobs[job.jobId := JobRow(row.job.(status := Succeeded), 0, Some(cost))],
                if job.sessionKey in db.sessions then db.sessions else db.sessions[job.sessionKey := result]),
              Done)
  }

  /** The retry decision and the back-off use the attempt count of the caller's snapshot. */
  function Retire(row: JobRow, snapshot: Job, retryable: bool, now: int): JobRow {
    row.(
      reserved := 0,
      job := row.job.(
        status := if retryable && snapshot.attempts < snapshot.maxAttempts then RetryWait else Failed,
        notBefore := now + Pow2(snapshot.attempts) * SECOND,
        owner := None,
        leaseUntil := None))
  }

  ghost function FailSpec(db: Database, job: Job, retryable: bool, now: int): Stepped {
    var e := job.experimentId;
    if e !in db.manifests || job.jobId !in db.jobs then Stepped(db, Refused(UnknownId)) else
    var m, row := db.manifests[e], db.jobs[job.jobId];
    Stepped(db.(manifests := db.manifests[e := m.(reserved := m.reserved - row.reserved)],
                jobs := db.jobs[job.jobId := Retire(row, job, retryable, now)]), Done)
  }

  ghost function SwitchSpec(db: Database, e: ExperimentId, stop: bool): Database {
    if e !in db.manifests then db else
    var m := db.manifests[e].(stopRequested := stop, status := if stop then StoppedExperiment else RunningExperiment);
    db.(manifests := db.manifests[e := m])
  }

  // ----- schedule -----

  function KeysOfExperiment(db: Database, e: ExperimentId): set<string> {
    set id | id in db.jobs && db.jobs[id].job.experimentId == e :: db.jobs[id].job.sessionKey
  }

  /** The unique constraint on the session key: new rows clash neither with each other nor with old ones. */
  predicate KeysFree(jobs: map<JobId, JobRow>, added: seq<Job>) {
    && (forall i, j :: 0 <= i < j < |added| ==> added[i].sessionKey != added[j].sessionKey)
    && (forall i, id :: 0 <= i < |added| && id in jobs ==> added[i].sessionKey != jobs[id].job.sessionKey)
  }

  function AddRows(jobs: map<JobId, JobRow>, added: seq<Job>): map<JobId, JobRow> {
    if added == [] then jobs else
      var job := added[|added| - 1];
      AddRows(jobs, added[..|added| - 1])[job.jobId := JobRow(job, 0, None)]
  }

  function NewManifest(m: Manifest): ManifestRow {
    ManifestRow(m, m.ceiling, 0, 0, false, Created)
  }

  function Registered(manifests: map<ExperimentId, ManifestRow>, m: Manifest): map<ExperimentId, ManifestRow> {
    if m.experimentId in manifests then manifests else manifests[m.experimentId := NewManifest(m)]
  }

  /** Another manifest under the same id is refused; so is a duplicate key, and then nothing is added. */
  function ScheduleSpec(db: Database, m: Manifest, added: seq<Job>): Stepped {
    if m.experimentId in db.manifests && db.manifests[m.experimentId].payload != m
      then Stepped(db, Refused(ManifestConflict))
    else if !KeysFree(db.jobs, added) then Stepped(db, Refused(DuplicateKey))
    else Stepped(db.(manifests := Registered(db.manifests, m), jobs := AddRows(db.jobs, added)), Done)
  }

  method NewRows(existing: set<string>, hash: string -> string, m: Manifest, cells: seq<Cell>, ids: seq<JobId>,
                 now: int)
    returns (rows: seq<Job>)
    requires |cells| <= |ids| && forall x :: x in cells ==> Configured(m.configurations, x.configurationId)
    ensures rows == IQ.NewJobs(existing, hash, m, cells, ids, now)
  {
    rows := [];
    for k := 0 to |cells|
      invariant rows == IQ.NewJobs(existing, hash, m, cells[..k], ids, now)
    {
      IQ.NewJobsSnoc(existing, hash, m, cells, ids, now, k);
      var key := SessionKey(hash, m.experimentId, cells[k]);
      if key !in existing {
        rows := rows + [IQ.NewJob(ids[k], m, key, cells[k], now)];
      }
    }
    assert cells[..|cells|] == cells;
  }

  // ----- the class -----

  class PostgresExperimentQueue {
    var manifests: map<ExperimentId, ManifestRow>
    var jobs: map<JobId, JobRow>
    var sessions: map<string, Document>

    function State(): Database
      reads this
    {
      Database(manifests, jobs, sessions)
    }

    /** `ids` are the identifiers the new rows draw; `order` reports the shuffle that was made. */
    method Schedule(hash: string -> string, m: Manifest, scenarios: seq<string>, ids: seq<JobId>, now: int)
      returns (reply: Reply, count: nat, ghost order: seq<Cell>)
      requires |DesignCells(m.configurations, scenarios, m.repetitions)| <= |ids|
      modifies this`manifests, this`jobs
      ensures multiset(order) == multiset(DesignCells(m.configurations, scenarios, m.repetitions))
      ensures |order| <= |ids| && forall x :: x in order ==> Configured(m.configurations, x.configurationId)
      ensures var added := IQ.NewJobs(KeysOfExperiment(old(State()), m.experimentId), hash, m, order, ids, now);
              && Stepped(State(), reply) == ScheduleSpec(old(State()), m, added)
              && count == if reply == Done then |added| else 0
    {
      var built := IQ.BuildCells(m, scenarios);
      var cells := IQ.Shuffle(built);
      order := cells;
      IQ.ShuffledConfigured(m, scenarios, cells);
      if m.experimentId in manifests && manifests[m.experimentId].payload != m {
        return Refused(ManifestConflict), 0, order;
      }
      var rows := NewRows(KeysOfExperiment(State(), m.experimentId), hash, m, cells, ids, now);
      if !KeysFree(jobs, rows) { return Refused(DuplicateKey), 0, order; }
      if m.experimentId !in manifests {
        manifests := manifests[m.experimentId := NewManifest(m)];
      }
      jobs := AddRows(jobs, rows);
      reply, count := Done, |rows|;
    }

    method Claim(worker: string, seconds: int, now: int, locked: set<JobId>) returns (reply: Reply)
      requires WellFormed(State())
      modifies this`jobs
      ensures Stepped(State(), reply) == ClaimSpec(old(State()), worker, seconds, now, locked)
    {
      ghost var db := State();
      var pending := jobs.Keys;
      var best: Option<JobId> := None;
      while pending != {}
        invariant pending <= db.jobs.Keys
        invariant best.Some? ==> Claimable(db, best.value, now, locked) && best.value !in pending
        invariant forall j :: Claimable(db, j, now, locked) && j !in pending ==>
          best.Some? && Precedes(db.jobs[best.value].job, db.jobs[j].job)
        decreases |pending|
      {
        var id :| id in pending;
        if Claimable(State(), id, now, locked) && (best.None? || !Precedes(jobs[best.value].job, jobs[id].job)) {
          best := Some(id);
        }
        pending := pending - {id};
      }
      if best.None? { return Nothing; }
      var id := best.value;
      assert IsNext(db, id, now, locked);
      forall j | IsNext(db, j, now, locked) ensures j == id {
        NextIsUnique(db, id, j, now, locked);
      }
      jobs := jobs[id := jobs[id].(job := Lease(jobs[id].job, worker, seconds, now))];
      reply := Granted(jobs[id].job);
    }

    method Heartbeat(id: JobId, worker: string, seconds: int, now: int) returns (reply: Reply)
      modifies this`jobs
      ensures Stepped(State(), reply) == HeartbeatSpec(old(State()), id, worker, seconds, now)
    {
      if id !in jobs || jobs[id].job.owner != Some(worker) { return Refused(NotLeaseOwner); }
      var job := jobs[id].job.(leaseUntil := Some(now + seconds * SECOND), status := Running);
      jobs := jobs[id := jobs[id].(job := job)];
      reply := Done;
    }

    /** The session works on copies of the rows; only the last lines commit them. */
    method ReserveCost(job: Job, amount: int) returns (reply: Reply)
      modifies this`manifests, this`jobs
      ensures Stepped(State(), reply) == ReserveSpec(old(State()), job, amount)
    {
      if job.experimentId !in manifests || job.jobId !in jobs { return Refused(UnknownId); }
      var manifest, record := manifests[job.experimentId], jobs[job.jobId];
      if record.reserved != 0 { return Done; }
      if manifest.stopRequested { return Refused(ExperimentStopped); }
      if manifest.spent + manifest.reserved + amount > manifest.ceiling {
        manifest := manifest.(stopRequested := true, status := PausedCostCeiling);
        return Refused(CeilingExceeded);
      }
      manifest := manifest.(reserved := manifest.reserved + amount);
      record := record.(reserved := amount);
      manifests, jobs := manifests[job.experimentId := manifest], jobs[job.jobId := record];
      reply := Done;
    }

    method Complete(job: Job, result: Document, cost: int) returns (reply: Reply)
      modifies this`manifests, this`jobs, this`sessions
      ensures Stepped(State(), reply) == CompleteSpec(old(State()), job, result, cost)
    {
      if job.experimentId !in manifests { return Refused(UnknownId); }
      var manifest := manifests[job.experimentId];
      if manifest.stopRequested { return Refused(ExperimentStopped); }
      if job.jobId !in jobs { return Refused(UnknownId); }
      var record := jobs[job.jobId];
      var reserved := record.reserved;
      if manifest.spent + cost > manifest.ceiling {
        manifest := manifest.(stopRequested := true);
        return Refused(CeilingExceeded);
      }
      manifest := manifest.(reserved := manifest.reserved - reserved, spent := manifest.spent + cost);
      record := JobRow(record.job.(status := Succeeded), 0, Some(cost));
      if job.sessionKey !in sessions {
        sessions := sessions[job.sessionKey := result];
      }
      manifests, jobs := manifests[job.experimentId := manifest], jobs[job.jobId := record];
      reply := Done;
    }

    method Fail(job: Job, retryable: bool, now: int) returns (reply: Reply)
      modifies this`manifests, this`jobs
      ensures Stepped(State(), reply) == FailSpec(old(State()), job, retryable, now)
      ensures reply == Done ==>
                && job.jobId in old(jobs) && job.jobId in jobs && jobs[job.jobId].reserved == 0
                && Reported(old(jobs)[job.jobId].job, jobs[job.jobId].job, retryable, job.attempts, job.maxAttempts,
                            now)
    {
      if job.experimentId !in manifests || job.jobId !in jobs { return Refused(UnknownId); }
      var manifest, record := manifests[job.experimentId], jobs[job.jobId];
      manifest := manifest.(reserved := manifest.reserved - record.reserved);
      manifests := manifests[job.experimentId := manifest];
      jobs := jobs[job.jobId := Retire(record, job, retryable, now)];
      reply := Done;
    }

    method Stop(e: ExperimentId)
      modifies this`manifests
      ensures State() == SwitchSpec(old(State()), e, true)
    {
      if e in manifests {
        manifests := manifests[e := manifests[e].(stopRequested := true, status := StoppedExperiment)];
      }
    }

    method Resume(e: ExperimentId)
      modifies this`manifests
      ensures State() == SwitchSpec(old(State()), e, false)
    {
      if e in manifests {
        manifests := manifests[e := manifests[e].(stopRequested := false, status := RunningExperiment)];
      }
    }
  }
}
