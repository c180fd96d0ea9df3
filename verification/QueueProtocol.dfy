/**
 * Runs of the in-memory queue: any interleaving of scheduling, claims, heartbeats, reservations,
 * completions and failures by any workers, stale ones included.
 */
module QueueProtocol {
  import opened Prelude
  import opened ExperimentModel
  import opened InMemoryQueue
  import L = CostLedger

  datatype Action =
    | Schedule(manifest: Manifest, added: seq<Job>)
    | Claim(worker: string, seconds: int, now: int)
    | Heartbeat(id: JobId, worker: string, seconds: int, now: int)
    | ReserveCost(job: Job, amount: int)
    | Complete(job: Job, result: Document, cost: int)
    | Fail(job: Job, retryable: bool, now: int)
    | Stop(experiment: ExperimentId)
    | Resume(experiment: ExperimentId)

  /** A manifest is only ever rescheduled unchanged, and new jobs draw new ids. */
  ghost predicate Enabled(q: Queue, a: Action) {
    a.Schedule? ==>
      var m := a.manifest;
      && (m.experimentId in q.manifests ==> q.manifests[m.experimentId] == m)
      && (forall i, j :: 0 <= i < j < |a.added| ==> a.added[i].jobId != a.added[j].jobId)
      && (forall i :: 0 <= i < |a.added| ==> FreshJob(q, m, a.added[i]))
  }

  ghost predicate FreshJob(q: Queue, m: Manifest, job: Job) {
    && job.jobId !in q.jobs && job.experimentId == m.experimentId
    && job.status.Pending? && job.attempts == 0 && 1 <= job.maxAttempts
    && job.owner.None? && job.leaseUntil.None?
  }

  ghost function Step(q: Queue, a: Action): Stepped
    requires WellFormed(q)
  {
    match a
    case Schedule(m, added) => Stepped(ScheduleSpec(q, m, added), Done)
    case Claim(worker, seconds, now) => ClaimSpec(q, worker, seconds, now)
    case Heartbeat(id, worker, seconds, now) => HeartbeatSpec(q, id, worker, seconds, now)
    case ReserveCost(job, amount) => ReserveSpec(q, job, amount)
    case Complete(job, result, cost) => CompleteSpec(q, job, result, cost)
    case Fail(job, retryable, now) => FailSpec(q, job, retryable, now)
    case Stop(e) => Stepped(q.(stopped := q.stopped + {e}), Done)
    case Resume(e) => Stepped(q.(stopped := q.stopped - {e}), Done)
  }

  ghost predicate Legal(q: Queue, run: seq<Action>)
    requires WellFormed(q)
    decreases |run|, 0
  {
    run == [] || (Legal(q, Front(run)) && Enabled(Run(q, Front(run)), Last(run)))
  }

  ghost function Run(q: Queue, run: seq<Action>): (r: Queue)
    requires WellFormed(q) && Legal(q, run)
    ensures WellFormed(r)
    decreases |run|, 1
  {
    if run == [] then q else
      StepKeepsWellFormed(Run(q, Front(run)), Last(run));
      Step(Run(q, Front(run)), Last(run)).state
  }

  function Front(run: seq<Action>): seq<Action>
    requires run != []
  {
    run[..|run| - 1]
  }

  function Last(run: seq<Action>): Action
    requires run != []
  {
    run[|run| - 1]
  }

  // ----- what each step does to the jobs -----

  ghost predicate NewIds(q: Queue, added: seq<Job>) {
    && (forall i, j :: 0 <= i < j < |added| ==> added[i].jobId != added[j].jobId)
    && (forall i :: 0 <= i < |added| ==> added[i].jobId !in q.jobs && 1 <= added[i].maxAttempts)
  }

  lemma {:induction false} AddAllKeeps(q: Queue, added: seq<Job>)
    requires NewIds(q, added)
    ensures AddAll(q, added).(jobs := q.jobs, order := q.order) == q
    ensures forall id :: id in q.jobs ==> id in AddAll(q, added).jobs && AddAll(q, added).jobs[id] == q.jobs[id]
  {
    if added != [] {
      AddAllKeeps(q, added[..|added| - 1]);
    }
  }

  lemma {:induction false} AddAllAdds(q: Queue, added: seq<Job>)
    requires NewIds(q, added)
    ensures forall i :: 0 <= i < |added| ==>
              added[i].jobId in AddAll(q, added).jobs && AddAll(q, added).jobs[added[i].jobId] == added[i]
  {
    if added != [] {
      AddAllAdds(q, added[..|added| - 1]);
    }
  }

  lemma {:induction false} AddAllOnly(q: Queue, added: seq<Job>, id: JobId)
    requires NewIds(q, added) && id in AddAll(q, added).jobs && id !in q.jobs
    ensures exists i :: 0 <= i < |added| && added[i].jobId == id
  {
    var n := |added| - 1;
    if added[n].jobId != id {
      AddAllOnly(q, added[..n], id);
      var i :| 0 <= i < n && added[..n][i].jobId == id;
      assert added[i].jobId == id;
    }
  }

  lemma {:induction false} AddAllWellFormed(q: Queue, added: seq<Job>)
    requires WellFormed(q) && NewIds(q, added)
    ensures WellFormed(AddAll(q, added))
  {
    if added != [] {
      var before, job := added[..|added| - 1], added[|added| - 1];
      AddAllWellFormed(q, before);
      if job.jobId in AddAll(q, before).jobs {
        AddAllOnly(q, before, job.jobId);
        assert false;
      }
    }
  }

  ghost predicate Grants(q: Queue, a: Action, id: JobId)
    requires WellFormed(q)
  {
    a.Claim? && FirstReady(q, a.now) < |q.order| && q.order[FirstReady(q, a.now)] == id
  }

  ghost predicate Recovers(q: Queue, a: Action, id: JobId)
    requires WellFormed(q)
  {
    && a.Claim? && id in q.jobs && Expired(q.jobs[id], q.stopped, a.now)
    && exists i :: 0 <= i < FirstReady(q, a.now) && q.order[i] == id
  }

  lemma GrantedReply(q: Queue, a: Action, id: JobId)
    requires WellFormed(q) && Grants(q, a, id)
    ensures id in q.jobs && Step(q, a).state.jobs[id] == Lease(q.jobs[id], a.worker, a.seconds, a.now)
    ensures Step(q, a).reply == Granted(Step(q, a).state.jobs[id])
    ensures Ready(q.jobs[id], q.stopped, a.now)
  {
  }

  /** A claim grants one job, recovers the expired ones it passes, and leaves the rest alone. */
  lemma ClaimJob(q: Queue, a: Action, id: JobId)
    requires WellFormed(q) && a.Claim? && id in q.jobs
    ensures id in Step(q, a).state.jobs
    ensures Step(q, a).state.jobs[id] ==
            if Grants(q, a, id) then Lease(q.jobs[id], a.worker, a.seconds, a.now)
            else if Recovers(q, a, id) then Recover(q.jobs[id])
            else q.jobs[id]
  {
    var k := FirstReady(q, a.now);
    if id in q.order {
      var i :| 0 <= i < |q.order| && q.order[i] == id;
      ScannedAt(q, k, i, a.now);
    } else {
      ScannedUnlisted(q, k, id, a.now);
    }
  }

  lemma {:induction false} ScannedUnlisted(q: Queue, n: nat, id: JobId, now: int)
    requires WellFormed(q) && n <= |q.order| && id in q.jobs && id !in q.order
    ensures Scanned(q, n, now)[id] == q.jobs[id]
  {
    if n != 0 {
      ScannedUnlisted(q, n - 1, id, now);
    }
  }

  /** What a step makes of one job that was there before. */
  ghost function JobAfter(q: Queue, a: Action, id: JobId): Job
    requires WellFormed(q) && id in q.jobs
  {
    var job := q.jobs[id];
    match a
    case Claim(worker, seconds, now) =>
      if Grants(q, a, id) then Lease(job, worker, seconds, now)
      else if Recovers(q, a, id) then Recover(job)
      else job
    case Heartbeat(k, worker, seconds, now) =>
      if k == id && job.owner == Some(worker) then job.(leaseUntil := Some(now + seconds * SECOND)) else job
    case Complete(done, _, cost) =>
      var e := done.experimentId;
      if done.jobId == id && e in q.manifests && GetCost(q.costs, e) + cost <= q.manifests[e].ceiling
      then job.(status := Succeeded) else job
    case Fail(failed, retryable, now) => if failed.jobId == id then Retire(job, retryable, now) else job
    case _ => job
  }

  lemma CompleteJob(q: Queue, a: Action, id: JobId)
    requires WellFormed(q) && a.Complete? && id in q.jobs
    ensures id in Step(q, a).state.jobs && Step(q, a).state.jobs[id] == JobAfter(q, a, id)
  {
  }

  lemma ScheduleJob(q: Queue, a: Action, id: JobId)
    requires WellFormed(q) && a.Schedule? && Enabled(q, a) && id in q.jobs
    ensures id in Step(q, a).state.jobs && Step(q, a).state.jobs[id] == JobAfter(q, a, id)
  {
    AddAllKeeps(q.(manifests := q.manifests[a.manifest.experimentId := a.manifest]), a.added);
  }

  lemma JobStep(q: Queue, a: Action, id: JobId)
    requires WellFormed(q) && Enabled(q, a) && id in q.jobs
    ensures id in Step(q, a).state.jobs && Step(q, a).state.jobs[id] == JobAfter(q, a, id)
  {
    if a.Schedule? {
      ScheduleJob(q, a, id);
    } else if a.Claim? {
      ClaimJob(q, a, id);
    } else if a.Complete? {
      CompleteJob(q, a, id);
    }
  }

  lemma JobKeepsIdentity(q: Queue, a: Action, id: JobId)
    requires WellFormed(q) && id in q.jobs
    ensures SameIdentity(JobAfter(q, a, id), q.jobs[id])
  {
  }

  lemma ClaimKeepsOrder(q: Queue, a: Action)
    requires WellFormed(q) && a.Claim?
    ensures Step(q, a).state.order == q.order && Step(q, a).state.jobs.Keys == q.jobs.Keys
  {
    ClaimKeepsIdentity(q, a.worker, a.seconds, a.now);
  }

  lemma CompleteKeepsOrder(q: Queue, a: Action)
    requires WellFormed(q) && a.Complete?
    ensures Step(q, a).state.order == q.order && Step(q, a).state.jobs.Keys == q.jobs.Keys
  {
  }

  lemma StepKeepsOrder(q: Queue, a: Action)
    requires WellFormed(q) && !a.Schedule?
    ensures Step(q, a).state.order == q.order && Step(q, a).state.jobs.Keys == q.jobs.Keys
  {
    if a.Claim? {
      ClaimKeepsOrder(q, a);
    } else if a.Complete? {
      CompleteKeepsOrder(q, a);
    }
  }

  lemma StepKeepsIdentity(q: Queue, a: Action)
    requires WellFormed(q) && Enabled(q, a)
    ensures !a.Schedule? ==> Step(q, a).state.order == q.order && Step(q, a).state.jobs.Keys == q.jobs.Keys
    ensures forall id :: id in q.jobs ==>
              id in Step(q, a).state.jobs && SameIdentity(Step(q, a).state.jobs[id], q.jobs[id])
  {
    if !a.Schedule? {
      StepKeepsOrder(q, a);
    }
    forall id | id in q.jobs
      ensures id in Step(q, a).state.jobs && SameIdentity(Step(q, a).state.jobs[id], q.jobs[id])
    {
      JobStep(q, a, id);
      JobKeepsIdentity(q, a, id);
    }
  }

  lemma StepKeepsWellFormed(q: Queue, a: Action)
    requires WellFormed(q) && Enabled(q, a)
    ensures WellFormed(Step(q, a).state)
  {
    if a.Schedule? {
      AddAllWellFormed(q.(manifests := q.manifests[a.manifest.experimentId := a.manifest]), a.added);
    } else {
      StepKeepsIdentity(q, a);
      ProgressKeepsWellFormed(q, Step(q, a).state);
    }
  }

  // ----- money -----

  ghost function LedgerOf(q: Queue, e: ExperimentId): L.Ledger<string>
    requires e in q.manifests
  {
    L.Ledger(q.manifests[e].ceiling, GetCost(q.costs, e), Held(q, e))
  }

  ghost function OpOf(q: Queue, a: Action, e: ExperimentId): L.Op<string>
    requires e in q.manifests
  {
    match a
    case ReserveCost(job, amount) =>
      if job.experimentId == e && job.sessionKey !in q.reservations then L.Reserve(job.sessionKey, amount) else L.Idle
    case Complete(job, _, cost) =>
      if job.experimentId !in q.manifests then L.Idle
      else if job.experimentId == e && GetCost(q.costs, e) + cost <= q.manifests[e].ceiling
      then L.Settle(job.sessionKey, cost)
      else L.Release(job.sessionKey)
    case Fail(job, _, _) => L.Release(job.sessionKey)
    case _ => L.Idle
  }

  ghost function OpsOf(q: Queue, run: seq<Action>, e: ExperimentId): seq<L.Op<string>>
    requires WellFormed(q) && Legal(q, run)
    requires e in q.manifests
  {
    if run == [] then [] else
      ManifestsPersist(q, Front(run), e);
      OpsOf(q, Front(run), e) + [OpOf(Run(q, Front(run)), Last(run), e)]
  }

  lemma {:induction false} ManifestsPersist(q: Queue, run: seq<Action>, e: ExperimentId)
    requires WellFormed(q) && Legal(q, run) && e in q.manifests
    ensures e in Run(q, run).manifests && Run(q, run).manifests[e] == q.manifests[e]
  {
    if run != [] {
      ManifestsPersist(q, Front(run), e);
      ManifestStep(Run(q, Front(run)), Last(run), e);
    }
  }

  lemma ManifestStep(q: Queue, a: Action, e: ExperimentId)
    requires WellFormed(q) && Enabled(q, a) && e in q.manifests
    ensures e in Step(q, a).state.manifests && Step(q, a).state.manifests[e] == q.manifests[e]
  {
    if a.Schedule? {
      AddAllKeeps(q.(manifests := q.manifests[a.manifest.experimentId := a.manifest]), a.added);
    }
  }

  lemma HeldRemoved(q: Queue, r: Queue, key: string, e: ExperimentId)
    requires r.reservations == q.reservations - {key}
    ensures Held(r, e) == Held(q, e) - {key}
  {
  }

  lemma HeldAdded(q: Queue, r: Queue, key: string, amount: int, f: ExperimentId, e: ExperimentId)
    requires key !in q.reservations && r.reservations == q.reservations[key := Reservation(f, amount)]
    ensures Held(r, e) == if f == e then Held(q, e)[key := amount] else Held(q, e)
  {
  }

  lemma ReserveLedgerStep(q: Queue, a: Action, e: ExperimentId)
    requires WellFormed(q) && a.ReserveCost? && e in q.manifests
    ensures LedgerOf(Step(q, a).state, e) == L.Apply(LedgerOf(q, e), OpOf(q, a, e))
  {
    var r := Step(q, a).state;
    if r.reservations != q.reservations {
      HeldAdded(q, r, a.job.sessionKey, a.amount, a.job.experimentId, e);
    }
  }

  lemma CompleteLedgerStep(q: Queue, a: Action, e: ExperimentId)
    requires WellFormed(q) && a.Complete? && e in q.manifests
    ensures LedgerOf(Step(q, a).state, e) == L.Apply(LedgerOf(q, e), OpOf(q, a, e))
  {
    if a.job.experimentId in q.manifests {
      HeldRemoved(q, Step(q, a).state, a.job.sessionKey, e);
    }
  }

  lemma LedgerStep(q: Queue, a: Action, e: ExperimentId)
    requires WellFormed(q) && Enabled(q, a) && e in q.manifests
    ensures e in Step(q, a).state.manifests
    ensures LedgerOf(Step(q, a).state, e) == L.Apply(LedgerOf(q, e), OpOf(q, a, e))
  {
    ManifestStep(q, a, e);
    if a.Schedule? {
      AddAllKeeps(q.(manifests := q.manifests[a.manifest.experimentId := a.manifest]), a.added);
    } else if a.ReserveCost? {
      ReserveLedgerStep(q, a, e);
    } else if a.Complete? {
      CompleteLedgerStep(q, a, e);
    } else if a.Fail? {
      HeldRemoved(q, Step(q, a).state, a.job.sessionKey, e);
    }
  }

  /** Every run of the queue is, for each experiment, a run of the abstract cost ledger. */
  lemma {:induction false} RunRefinesLedger(q: Queue, run: seq<Action>, e: ExperimentId)
    requires WellFormed(q) && Legal(q, run) && e in q.manifests
    ensures e in Run(q, run).manifests
    ensures LedgerOf(Run(q, run), e) == L.Run(LedgerOf(q, e), OpsOf(q, run, e))
  {
    ManifestsPersist(q, run, e);
    if run != [] {
      RunRefinesLedger(q, Front(run), e);
      LedgerStep(Run(q, Front(run)), Last(run), e);
      var ops := OpsOf(q, Front(run), e);
      var op := OpOf(Run(q, Front(run)), Last(run), e);
      assert (ops + [op])[..|ops + [op]| - 1] == ops;
    }
  }

  /** Spending never passes the ceiling, whatever stale workers do. */
  lemma SpentNeverPassesCeiling(q: Queue, run: seq<Action>, e: ExperimentId)
    requires WellFormed(q) && Legal(q, run) && e in q.manifests
    requires GetCost(q.costs, e) <= q.manifests[e].ceiling
    ensures GetCost(Run(q, run).costs, e) <= q.manifests[e].ceiling
  {
    RunRefinesLedger(q, run, e);
    L.SpentWithinCeiling(LedgerOf(q, e), OpsOf(q, run, e));
  }

  ghost predicate SaneAmounts(a: Action) {
    (a.ReserveCost? ==> 0 <= a.amount) && (a.Complete? ==> 0 <= a.cost)
  }

  /** The completing worker charges no more than the reservation of its own job holds, if there is one. */
  ghost predicate HoldsReservation(q: Queue, a: Action) {
    a.Complete? ==>
      var held := Held(q, a.job.experimentId);
      a.cost <= if a.job.sessionKey in held then held[a.job.sessionKey] else 0
  }

  ghost predicate AllHold(q: Queue, run: seq<Action>)
    requires WellFormed(q) && Legal(q, run)
  {
    run == [] || (AllHold(q, Front(run)) && HoldsReservation(Run(q, Front(run)), Last(run)))
  }

  ghost predicate Solvent(q: Queue, e: ExperimentId)
    requires e in q.manifests
  {
    && L.Committed(LedgerOf(q, e)) <= q.manifests[e].ceiling
    && L.NonNegative(LedgerOf(q, e))
  }

  lemma SolventStep(q: Queue, a: Action, e: ExperimentId)
    requires WellFormed(q) && Enabled(q, a) && e in q.manifests
    requires Solvent(q, e) && SaneAmounts(a) && HoldsReservation(q, a)
    ensures e in Step(q, a).state.manifests && Solvent(Step(q, a).state, e)
    ensures a.Complete? && a.job.experimentId == e ==> Step(q, a).reply != Refused(CeilingExceeded)
  {
    LedgerStep(q, a, e);
    ManifestStep(q, a, e);
    if a.Complete? && a.job.experimentId == e {
      L.BackedStep(LedgerOf(q, e), L.Settle(a.job.sessionKey, a.cost));
    } else {
      L.BackedStep(LedgerOf(q, e), OpOf(q, a, e));
    }
  }

  /**
   * As long as each completion holds its reservation, spent plus outstanding reservations stay
   * within the ceiling, and no completion is ever refused for the ceiling.
   */
  lemma {:induction false} HeldRunsStaySolvent(q: Queue, run: seq<Action>, e: ExperimentId)
    requires WellFormed(q) && Legal(q, run) && e in q.manifests && Solvent(q, e)
    requires (forall a :: a in run ==> SaneAmounts(a)) && AllHold(q, run)
    ensures e in Run(q, run).manifests && Solvent(Run(q, run), e)
    ensures run != [] && Last(run).Complete? && Last(run).job.experimentId == e ==>
              Step(Run(q, Front(run)), Last(run)).reply != Refused(CeilingExceeded)
  {
    if run != [] {
      HeldRunsStaySolvent(q, Front(run), e);
      assert Last(run) in run;
      SolventStep(Run(q, Front(run)), Last(run), e);
    }
  }

  /** What an accepted completion takes beyond its reservation fits the headroom below the ceiling. */
  ghost predicate FitsHeadroom(q: Queue, a: Action, e: ExperimentId)
    requires e in q.manifests
  {
    var l := LedgerOf(q, e);
    a.Complete? && a.job.experimentId == e && l.spent + a.cost <= l.ceiling ==>
      a.cost - L.HeldFor(l, a.job.sessionKey) <= l.ceiling - L.Committed(l)
  }

  /** A step leaves a solvent experiment solvent exactly when it fits the headroom. */
  lemma SolventStepExactly(q: Queue, a: Action, e: ExperimentId)
    requires WellFormed(q) && Enabled(q, a) && e in q.manifests && Solvent(q, e) && SaneAmounts(a)
    ensures e in Step(q, a).state.manifests
    ensures Solvent(Step(q, a).state, e) <==> FitsHeadroom(q, a, e)
  {
    LedgerStep(q, a, e);
    ManifestStep(q, a, e);
    L.StepSolventExactly(LedgerOf(q, e), OpOf(q, a, e));
  }

  /** The experiment is solvent at every moment of the run. */
  ghost predicate AlwaysSolvent(q: Queue, run: seq<Action>, e: ExperimentId)
    requires WellFormed(q) && Legal(q, run)
  {
    && e in Run(q, run).manifests && Solvent(Run(q, run), e)
    && (run == [] || AlwaysSolvent(q, Front(run), e))
  }

  ghost predicate AllFit(q: Queue, run: seq<Action>, e: ExperimentId)
    requires WellFormed(q) && Legal(q, run)
  {
    run == []
    || (AllFit(q, Front(run), e)
        && e in Run(q, Front(run)).manifests && FitsHeadroom(Run(q, Front(run)), Last(run), e))
  }

  /**
   * Every moment of a run is solvent if and only if what each accepted completion takes beyond its
   * reservation fits the headroom of its moment.
   */
  lemma {:induction false} RunSolventExactly(q: Queue, run: seq<Action>, e: ExperimentId)
    requires WellFormed(q) && Legal(q, run) && e in q.manifests && Solvent(q, e)
    requires forall a :: a in run ==> SaneAmounts(a)
    ensures AlwaysSolvent(q, run, e) <==> AllFit(q, run, e)
  {
    if run != [] {
      RunSolventExactly(q, Front(run), e);
      ManifestsPersist(q, Front(run), e);
      assert Last(run) in run;
      if AlwaysSolvent(q, Front(run), e) {
        SolventStepExactly(Run(q, Front(run)), Last(run), e);
      }
    }
  }

  /** Without that hypothesis the overshoot is at most what settlements took beyond reservations. */
  lemma OvercommitBounded(q: Queue, run: seq<Action>, e: ExperimentId)
    requires WellFormed(q) && Legal(q, run) && e in q.manifests && Solvent(q, e)
    requires forall a :: a in run ==> SaneAmounts(a)
    ensures e in Run(q, run).manifests
    ensures L.Committed(LedgerOf(Run(q, run), e)) <=
            q.manifests[e].ceiling + L.TotalExcess(LedgerOf(q, e), OpsOf(q, run, e))
  {
    RunRefinesLedger(q, run, e);
    SaneOps(q, run, e);
    L.OvercommitBoundedByExcess(LedgerOf(q, e), OpsOf(q, run, e));
  }

  lemma {:induction false} SaneOps(q: Queue, run: seq<Action>, e: ExperimentId)
    requires WellFormed(q) && Legal(q, run) && e in q.manifests
    requires forall a :: a in run ==> SaneAmounts(a)
    ensures forall op :: op in OpsOf(q, run, e) ==> L.Sane(op)
  {
    if run != [] {
      SaneOps(q, Front(run), e);
      assert Last(run) in run;
      ManifestsPersist(q, Front(run), e);
    }
  }

  // ----- results -----

  lemma ResultStep(q: Queue, a: Action, key: string)
    requires WellFormed(q) && Enabled(q, a) && key in q.results
    ensures key in Step(q, a).state.results && Step(q, a).state.results[key] == q.results[key]
  {
    if a.Schedule? {
      AddAllKeeps(q.(manifests := q.manifests[a.manifest.experimentId := a.manifest]), a.added);
    }
  }

  /** A stored result is never replaced or removed. */
  lemma {:induction false} ResultsPersist(q: Queue, run: seq<Action>, key: string)
    requires WellFormed(q) && Legal(q, run) && key in q.results
    ensures key in Run(q, run).results && Run(q, run).results[key] == q.results[key]
  {
    if run != [] {
      ResultsPersist(q, Front(run), key);
      ResultStep(Run(q, Front(run)), Last(run), key);
    }
  }

  // ----- extending a run -----

  lemma RunSnoc(q: Queue, run: seq<Action>, a: Action)
    requires WellFormed(q) && Legal(q, run) && Enabled(Run(q, run), a)
    ensures Legal(q, run + [a]) && Run(q, run + [a]) == Step(Run(q, run), a).state
  {
    assert Front(run + [a]) == run && Last(run + [a]) == a;
  }
}
