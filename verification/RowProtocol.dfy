/**
 * Runs of the row-based queue: sessions of any workers in any order. Workers act on the snapshots
 * that claims handed out, however stale those have become.
 */
module RowProtocol {
  import opened Prelude
  import opened ExperimentModel
  import opened RowQueue
  import L = CostLedger

  datatype Action =
    | Claim(worker: string, seconds: int, now: int, locked: set<JobId>)
    | Heartbeat(id: JobId, worker: string, seconds: int, now: int)
    | ReserveCost(job: Job, amount: int)
    | Complete(job: Job, result: Document, cost: int)
    | Fail(job: Job, retryable: bool, now: int)
    | Stop(experiment: ExperimentId)
    | Resume(experiment: ExperimentId)

  ghost function Step(db: Database, a: Action): Stepped {
    match a
    case Claim(worker, seconds, now, locked) => ClaimSpec(db, worker, seconds, now, locked)
    case Heartbeat(id, worker, seconds, now) => HeartbeatSpec(db, id, worker, seconds, now)
    case ReserveCost(job, amount) => ReserveSpec(db, job, amount)
    case Complete(job, result, cost) => CompleteSpec(db, job, result, cost)
    case Fail(job, retryable, now) => FailSpec(db, job, retryable, now)
    case Stop(e) => Stepped(SwitchSpec(db, e, true), Done)
    case Resume(e) => Stepped(SwitchSpec(db, e, false), Done)
  }

  ghost function Run(db: Database, run: seq<Action>): Database {
    if run == [] then db else Step(Run(db, Front(run)), Last(run)).state
  }

  function Front(run: seq<Action>): seq<Action>
    requires run != []
  {
    run[..|run| - 1]
  }

  function Last(run: seq<Action>): Action
    requires run != []
  {
    run[|run| - 1]
  }

  /** Some claim of the run handed out this snapshot. */
  ghost predicate Issued(db: Database, run: seq<Action>, job: Job) {
    run != [] && (Issued(db, Front(run), job) || Step(Run(db, Front(run)), Last(run)).reply == Granted(job))
  }

  predicate UsesJob(a: Action) {
    a.ReserveCost? || a.Complete? || a.Fail?
  }

  /** Reservations, completions and failures come from workers holding a snapshot. */
  ghost predicate Legal(db: Database, run: seq<Action>) {
    run == [] || (Legal(db, Front(run)) && (UsesJob(Last(run)) ==> Issued(db, Front(run), Last(run).job)))
  }

  // ----- identity of rows -----

  ghost predicate Matches(db: Database, job: Job) {
    job.jobId in db.jobs && SameIdentity(db.jobs[job.jobId].job, job)
  }

  /** No row appears, disappears or changes identity, and ceilings are fixed. */
  ghost predicate SameRows(db: Database, r: Database) {
    && r.jobs.Keys == db.jobs.Keys && r.manifests.Keys == db.manifests.Keys
    && (forall id :: id in db.jobs ==> SameIdentity(r.jobs[id].job, db.jobs[id].job))
    && (forall e :: e in db.manifests ==> r.manifests[e].ceiling == db.manifests[e].ceiling)
  }

  lemma ClaimRows(db: Database, worker: string, seconds: int, now: int, locked: set<JobId>)
    requires WellFormed(db)
    ensures var r := ClaimSpec(db, worker, seconds, now, locked).state;
            SameRows(db, r) && r.manifests == db.manifests
            && forall id :: id in db.jobs ==> r.jobs[id].reserved == db.jobs[id].reserved
  {
  }

  lemma ReserveRows(db: Database, job: Job, amount: int)
    ensures SameRows(db, ReserveSpec(db, job, amount).state)
  {
  }

  lemma CompleteRows(db: Database, job: Job, result: Document, cost: int)
    ensures SameRows(db, CompleteSpec(db, job, result, cost).state)
  {
  }

  lemma FailRows(db: Database, job: Job, retryable: bool, now: int)
    ensures SameRows(db, FailSpec(db, job, retryable, now).state)
  {
  }

  lemma StepKeepsRows(db: Database, a: Action)
    requires WellFormed(db)
    ensures SameRows(db, Step(db, a).state) && WellFormed(Step(db, a).state)
  {
    match a
    case Claim(worker, seconds, now, locked) => ClaimRows(db, worker, seconds, now, locked);
    case ReserveCost(job, amount) => ReserveRows(db, job, amount);
    case Complete(job, result, cost) => CompleteRows(db, job, result, cost);
    case Fail(job, retryable, now) => FailRows(db, job, retryable, now);
    case _ => assert SameRows(db, Step(db, a).state);
  }

  lemma GrantMatches(db: Database, a: Action)
    requires WellFormed(db) && Step(db, a).reply.Granted?
    ensures Matches(Step(db, a).state, Step(db, a).reply.job)
  {
  }

  lemma {:induction false} RunKeepsRows(db: Database, run: seq<Action>)
    requires WellFormed(db)
    ensures WellFormed(Run(db, run)) && Run(db, run).manifests.Keys == db.manifests.Keys
    ensures forall e :: e in db.manifests ==> Run(db, run).manifests[e].ceiling == db.manifests[e].ceiling
  {
    if run != [] {
      RunKeepsRows(db, Front(run));
      StepKeepsRows(Run(db, Front(run)), Last(run));
    }
  }

  /** A snapshot never disagrees with its row about identity, however old it is. */
  lemma {:induction false} IssuedMatches(db: Database, run: seq<Action>, job: Job)
    requires WellFormed(db) && Issued(db, run, job)
    ensures Matches(Run(db, run), job)
  {
    var before := Run(db, Front(run));
    RunKeepsRows(db, Front(run));
    StepKeepsRows(before, Last(run));
    if Issued(db, Front(run), job) {
      IssuedMatches(db, Front(run), job);
    } else {
      GrantMatches(before, Last(run));
    }
  }

  // ----- conservation -----

  ghost function ReservedOf(db: Database, e: ExperimentId): map<JobId, int> {
    map id | id in db.jobs && db.jobs[id].job.experimentId == e :: db.jobs[id].reserved
  }

  /** The manifest's reserved total is the sum over its jobs. */
  ghost predicate Balanced(db: Database, e: ExperimentId) {
    e in db.manifests && db.manifests[e].reserved == SumValues(ReservedOf(db, e))
  }

  ghost predicate Grounded(db: Database, a: Action) {
    UsesJob(a) ==> Matches(db, a.job)
  }

  /** One row and the total of its experiment moved by the same amount, and nothing else. */
  ghost predicate OneMoved(db: Database, r: Database, id: JobId, e: ExperimentId) {
    && SameRows(db, r) && id in db.jobs && e in db.manifests && db.jobs[id].job.experimentId == e
    && r.manifests[e].reserved - db.manifests[e].reserved == r.jobs[id].reserved - db.jobs[id].reserved
    && (forall j :: j in db.jobs && j != id ==> r.jobs[j] == db.jobs[j])
    && (forall f :: f in db.manifests && f != e ==> r.manifests[f] == db.manifests[f])
  }

  /** No money moved. */
  ghost predicate NoneMoved(db: Database, r: Database) {
    && SameRows(db, r)
    && (forall j :: j in db.jobs ==> r.jobs[j].reserved == db.jobs[j].reserved)
    && (forall f :: f in db.manifests ==>
          r.manifests[f].reserved == db.manifests[f].reserved && r.manifests[f].spent == db.manifests[f].spent)
  }

  lemma ReservedSame(db: Database, r: Database, e: ExperimentId)
    requires SameRows(db, r)
    requires forall j :: j in db.jobs && db.jobs[j].job.experimentId == e ==> r.jobs[j].reserved == db.jobs[j].reserved
    ensures ReservedOf(r, e) == ReservedOf(db, e)
  {
  }

  lemma ReservedChanged(db: Database, r: Database, id: JobId, e: ExperimentId)
    requires OneMoved(db, r, id, e)
    ensures ReservedOf(r, e) == ReservedOf(db, e)[id := r.jobs[id].reserved]
  {
  }

  lemma MovedBalanced(db: Database, r: Database, id: JobId, own: ExperimentId, e: ExperimentId)
    requires OneMoved(db, r, id, own) && Balanced(db, e)
    ensures Balanced(r, e)
  {
    if own == e {
      ReservedChanged(db, r, id, e);
      SumUpdate(ReservedOf(db, e), id, r.jobs[id].reserved);
    } else {
      ReservedSame(db, r, e);
    }
  }

  lemma SameBalanced(db: Database, r: Database, e: ExperimentId)
    requires NoneMoved(db, r) && Balanced(db, e)
    ensures Balanced(r, e)
  {
    ReservedSame(db, r, e);
  }

  /** A session moves the manifest's total by just what it moves in its own row. */
  lemma SnapshotMoves(db: Database, a: Action)
    requires WellFormed(db) && UsesJob(a) && Matches(db, a.job)
    ensures OneMoved(db, Step(db, a).state, a.job.jobId, a.job.experimentId)
  {
    StepKeepsRows(db, a);
  }

  lemma OthersMoveNothing(db: Database, a: Action)
    requires WellFormed(db) && !UsesJob(a)
    ensures NoneMoved(db, Step(db, a).state)
  {
    StepKeepsRows(db, a);
    if a.Claim? {
      ClaimRows(db, a.worker, a.seconds, a.now, a.locked);
    }
  }

  lemma BalancedStep(db: Database, a: Action, e: ExperimentId)
    requires WellFormed(db) && Grounded(db, a) && Balanced(db, e)
    ensures Balanced(Step(db, a).state, e)
  {
    if UsesJob(a) {
      SnapshotMoves(db, a);
      MovedBalanced(db, Step(db, a).state, a.job.jobId, a.job.experimentId, e);
    } else {
      OthersMoveNothing(db, a);
      SameBalanced(db, Step(db, a).state, e);
    }
  }

  /** Whatever the order of sessions, lost leases and rollbacks, reservations add up. */
  lemma {:induction false} ReservationsAddUp(db: Database, run: seq<Action>, e: ExperimentId)
    requires WellFormed(db) && Legal(db, run) && Balanced(db, e)
    ensures Balanced(Run(db, run), e)
  {
    if run != [] {
      ReservationsAddUp(db, Front(run), e);
      RunKeepsRows(db, Front(run));
      if UsesJob(Last(run)) {
        IssuedMatches(db, Front(run), Last(run).job);
      }
      BalancedStep(Run(db, Front(run)), Last(run), e);
    }
  }

  // ----- refinement of the cost ledger -----

  ghost function NonZero(m: map<JobId, int>): map<JobId, int> {
    map k | k in m && m[k] != 0 :: m[k]
  }

  lemma NonZeroWithout(m: map<JobId, int>, k: JobId)
    requires k in m
    ensures if m[k] != 0 then NonZero(m) - {k} == NonZero(m - {k}) else NonZero(m) == NonZero(m - {k})
  {
  }

  lemma {:induction false} NonZeroSum(m: map<JobId, int>)
    ensures SumValues(NonZero(m)) == SumValues(m)
    decreases |m.Keys|
  {
    if m.Keys == {} {
      assert NonZero(m) == m;
    } else {
      var k :| k in m;
      SumWithout(m, k);
      assert (m - {k}).Keys == m.Keys - {k};
      NonZeroSum(m - {k});
      NonZeroWithout(m, k);
      if m[k] != 0 {
        SumWithout(NonZero(m), k);
      }
    }
  }

  ghost function LedgerOf(db: Database, e: ExperimentId): L.Ledger<JobId>
    requires e in db.manifests
  {
    L.Ledger(db.manifests[e].ceiling, db.manifests[e].spent, NonZero(ReservedOf(db, e)))
  }

  ghost function OpOf(db: Database, a: Action, e: ExperimentId): L.Op<JobId> {
    if !UsesJob(a) || a.job.experimentId != e || Step(db, a).reply != Done then L.Idle else
    match a
    case ReserveCost(job, amount) =>
      if db.jobs[job.jobId].reserved != 0 || amount == 0 then L.Idle else L.Reserve(job.jobId, amount)
    case Complete(job, _, cost) => L.Settle(job.jobId, cost)
    case Fail(job, _, _) => L.Release(job.jobId)
  }

  lemma NonZeroUpdate(m: map<JobId, int>, k: JobId, v: int)
    ensures NonZero(m[k := v]) == if v != 0 then NonZero(m)[k := v] else NonZero(m) - {k}
  {
  }

  /** The ledger of the experiment whose job and total moved. */
  ghost predicate LedgerMoved(db: Database, r: Database, id: JobId, e: ExperimentId, l: L.Ledger<JobId>) {
    && id in r.jobs && e in r.manifests && e in db.manifests
    && l.ceiling == db.manifests[e].ceiling && l.spent == r.manifests[e].spent
    && l.held == NonZero(ReservedOf(db, e)[id := r.jobs[id].reserved])
  }

  lemma HeldTotal(db: Database, e: ExperimentId)
    requires Balanced(db, e)
    ensures SumValues(LedgerOf(db, e).held) == db.manifests[e].reserved
  {
    NonZeroSum(ReservedOf(db, e));
  }

  lemma ReserveMovesLedger(db: Database, a: Action)
    requires WellFormed(db) && a.ReserveCost? && Matches(db, a.job) && Balanced(db, a.job.experimentId)
    ensures var id, e := a.job.jobId, a.job.experimentId;
            LedgerMoved(db, Step(db, a).state, id, e, L.Apply(LedgerOf(db, e), OpOf(db, a, e)))
  {
    var m, id := ReservedOf(db, a.job.experimentId), a.job.jobId;
    HeldTotal(db, a.job.experimentId);
    if Step(db, a).reply == Done && db.jobs[id].reserved == 0 {
      NonZeroUpdate(m, id, a.amount);
    } else {
      assert m[id := m[id]] == m;
    }
  }

  lemma CompleteMovesLedger(db: Database, a: Action)
    requires WellFormed(db) && a.Complete? && Matches(db, a.job) && Balanced(db, a.job.experimentId)
    ensures var id, e := a.job.jobId, a.job.experimentId;
            LedgerMoved(db, Step(db, a).state, id, e, L.Apply(LedgerOf(db, e), OpOf(db, a, e)))
  {
    var m, id := ReservedOf(db, a.job.experimentId), a.job.jobId;
    assert m[id := m[id]] == m;
    NonZeroUpdate(m, id, 0);
  }

  lemma FailMovesLedger(db: Database, a: Action)
    requires WellFormed(db) && a.Fail? && Matches(db, a.job) && Balanced(db, a.job.experimentId)
    ensures var id, e := a.job.jobId, a.job.experimentId;
            LedgerMoved(db, Step(db, a).state, id, e, L.Apply(LedgerOf(db, e), OpOf(db, a, e)))
  {
    NonZeroUpdate(ReservedOf(db, a.job.experimentId), a.job.jobId, 0);
  }

  /** What a session does to the ledger of its own experiment. */
  lemma OwnLedgerStep(db: Database, a: Action)
    requires WellFormed(db) && UsesJob(a) && Matches(db, a.job) && Balanced(db, a.job.experimentId)
    ensures var id, e := a.job.jobId, a.job.experimentId;
            LedgerMoved(db, Step(db, a).state, id, e, L.Apply(LedgerOf(db, e), OpOf(db, a, e)))
  {
    match a
    case ReserveCost(_, _) => ReserveMovesLedger(db, a);
    case Complete(_, _, _) => CompleteMovesLedger(db, a);
    case Fail(_, _, _) => FailMovesLedger(db, a);
  }

  lemma MovedLedger(db: Database, r: Database, id: JobId, e: ExperimentId, l: L.Ledger<JobId>)
    requires OneMoved(db, r, id, e) && LedgerMoved(db, r, id, e, l)
    ensures LedgerOf(r, e) == l
  {
    ReservedChanged(db, r, id, e);
  }

  lemma SameLedger(db: Database, r: Database, e: ExperimentId)
    requires e in db.manifests
    requires NoneMoved(db, r) || exists id, own :: own != e && OneMoved(db, r, id, own)
    ensures e in r.manifests && LedgerOf(r, e) == LedgerOf(db, e)
  {
    ReservedSame(db, r, e);
  }

  lemma LedgerStep(db: Database, a: Action, e: ExperimentId)
    requires WellFormed(db) && Grounded(db, a) && Balanced(db, e)
    ensures e in Step(db, a).state.manifests
    ensures LedgerOf(Step(db, a).state, e) == L.Apply(LedgerOf(db, e), OpOf(db, a, e))
  {
    var r := Step(db, a).state;
    if UsesJob(a) {
      SnapshotMoves(db, a);
      if a.job.experimentId == e {
        OwnLedgerStep(db, a);
        MovedLedger(db, r, a.job.jobId, e, L.Apply(LedgerOf(db, e), OpOf(db, a, e)));
      } else {
        SameLedger(db, r, e);
      }
    } else {
      OthersMoveNothing(db, a);
      SameLedger(db, r, e);
    }
  }

  ghost function OpsOf(db: Database, run: seq<Action>, e: ExperimentId): seq<L.Op<JobId>> {
    if run == [] then [] else OpsOf(db, Front(run), e) + [OpOf(Run(db, Front(run)), Last(run), e)]
  }

  lemma LegalGrounded(db: Database, run: seq<Action>)
    requires WellFormed(db) && Legal(db, run) && run != []
    ensures WellFormed(Run(db, Front(run))) && Grounded(Run(db, Front(run)), Last(run))
  {
    RunKeepsRows(db, Front(run));
    if UsesJob(Last(run)) {
      IssuedMatches(db, Front(run), Last(run).job);
    }
  }

  /** Every legal run of the row-based queue is, for each experiment, a run of the cost ledger. */
  lemma {:induction false} RunRefinesLedger(db: Database, run: seq<Action>, e: ExperimentId)
    requires WellFormed(db) && Legal(db, run) && Balanced(db, e)
    ensures Balanced(Run(db, run), e)
    ensures LedgerOf(Run(db, run), e) == L.Run(LedgerOf(db, e), OpsOf(db, run, e))
  {
    ReservationsAddUp(db, run, e);
    if run != [] {
      RunRefinesLedger(db, Front(run), e);
      LegalGrounded(db, run);
      LedgerStep(Run(db, Front(run)), Last(run), e);
      var ops := OpsOf(db, Front(run), e);
      var op := OpOf(Run(db, Front(run)), Last(run), e);
      assert (ops + [op])[..|ops + [op]| - 1] == ops;
    }
  }

  /** Spending never passes the ceiling, whatever stale workers do. */
  lemma SpentNeverPassesCeiling(db: Database, run: seq<Action>, e: ExperimentId)
    requires WellFormed(db) && Legal(db, run) && Balanced(db, e)
    requires db.manifests[e].spent <= db.manifests[e].ceiling
    ensures e in Run(db, run).manifests && Run(db, run).manifests[e].spent <= db.manifests[e].ceiling
  {
    RunRefinesLedger(db, run, e);
    L.SpentWithinCeiling(LedgerOf(db, e), OpsOf(db, run, e));
  }

  ghost predicate Sane(a: Action) {
    (a.ReserveCost? ==> 0 <= a.amount) && (a.Complete? ==> 0 <= a.cost)
  }

  /** The job's reservation, zero included, still covers the cost of completing it. */
  ghost predicate HoldsReservation(db: Database, a: Action) {
    a.Complete? ==> a.job.jobId in db.jobs && a.cost <= db.jobs[a.job.jobId].reserved
  }

  ghost predicate AllHold(db: Database, run: seq<Action>) {
    run == [] || (AllHold(db, Front(run)) && HoldsReservation(Run(db, Front(run)), Last(run)))
  }

  ghost predicate Solvent(db: Database, e: ExperimentId) {
    && Balanced(db, e)
    && db.manifests[e].spent + db.manifests[e].reserved <= db.manifests[e].ceiling
    && forall id :: id in db.jobs && db.jobs[id].job.experimentId == e ==> 0 <= db.jobs[id].reserved
  }

  lemma SolventLedger(db: Database, e: ExperimentId)
    requires Balanced(db, e)
    ensures Solvent(db, e) <==>
            L.Committed(LedgerOf(db, e)) <= db.manifests[e].ceiling && L.NonNegative(LedgerOf(db, e))
  {
    NonZeroSum(ReservedOf(db, e));
    forall id | id in db.jobs && db.jobs[id].job.experimentId == e && L.NonNegative(LedgerOf(db, e))
      ensures 0 <= db.jobs[id].reserved
    {
      if db.jobs[id].reserved != 0 {
        assert id in LedgerOf(db, e).held;
      }
    }
  }

  lemma SolventStep(db: Database, a: Action, e: ExperimentId)
    requires WellFormed(db) && Grounded(db, a) && Sane(a) && HoldsReservation(db, a) && Solvent(db, e)
    ensures Solvent(Step(db, a).state, e)
    ensures a.Complete? && a.job.experimentId == e ==> Step(db, a).reply != Refused(CeilingExceeded)
  {
    SolventLedger(db, e);
    LedgerStep(db, a, e);
    BalancedStep(db, a, e);
    SolventLedger(Step(db, a).state, e);
    if a.Complete? && a.job.experimentId == e {
      L.BackedStep(LedgerOf(db, e), L.Settle(a.job.jobId, a.cost));
    }
    L.BackedStep(LedgerOf(db, e), OpOf(db, a, e));
  }

  /** While completions hold their reservations, the manifest row stays within its ceiling. */
  lemma {:induction false} HeldRunsStaySolvent(db: Database, run: seq<Action>, e: ExperimentId)
    requires WellFormed(db) && Legal(db, run) && Solvent(db, e)
    requires (forall a :: a in run ==> Sane(a)) && AllHold(db, run)
    ensures Solvent(Run(db, run), e)
    ensures run != [] && Last(run).Complete? && Last(run).job.experimentId == e ==>
              Step(Run(db, Front(run)), Last(run)).reply != Refused(CeilingExceeded)
  {
    if run != [] {
      HeldRunsStaySolvent(db, Front(run), e);
      LegalGrounded(db, run);
      assert Last(run) in run;
      SolventStep(Run(db, Front(run)), Last(run), e);
    }
  }

  /** What an accepted completion takes beyond its reservation fits the headroom below the ceiling. */
  ghost predicate FitsHeadroom(db: Database, a: Action, e: ExperimentId) {
    a.Complete? && a.job.experimentId == e && Step(db, a).reply == Done
    && e in db.manifests && a.job.jobId in db.jobs ==>
      var m := db.manifests[e];
      a.cost - db.jobs[a.job.jobId].reserved <= m.ceiling - (m.spent + m.reserved)
  }

  /** A session leaves a solvent manifest solvent exactly when it fits the headroom. */
  lemma SolventStepExactly(db: Database, a: Action, e: ExperimentId)
    requires WellFormed(db) && Grounded(db, a) && Sane(a) && Solvent(db, e)
    ensures Solvent(Step(db, a).state, e) <==> FitsHeadroom(db, a, e)
  {
    SolventLedger(db, e);
    LedgerStep(db, a, e);
    StepKeepsRows(db, a);
    BalancedStep(db, a, e);
    SolventLedger(Step(db, a).state, e);
    L.StepSolventExactly(LedgerOf(db, e), OpOf(db, a, e));
    FitsExactly(db, a, e);
  }

  lemma FitsExactly(db: Database, a: Action, e: ExperimentId)
    requires WellFormed(db) && Grounded(db, a) && Balanced(db, e)
    ensures L.Fits(LedgerOf(db, e), OpOf(db, a, e)) <==> FitsHeadroom(db, a, e)
  {
    NonZeroSum(ReservedOf(db, e));
    if a.Complete? && a.job.experimentId == e {
      assert ReservedOf(db, e)[a.job.jobId] == db.jobs[a.job.jobId].reserved;
    }
  }

  /** The manifest is solvent at every moment of the run. */
  ghost predicate AlwaysSolvent(db: Database, run: seq<Action>, e: ExperimentId) {
    Solvent(Run(db, run), e) && (run == [] || AlwaysSolvent(db, Front(run), e))
  }

  ghost predicate AllFit(db: Database, run: seq<Action>, e: ExperimentId) {
    run == [] || (AllFit(db, Front(run), e) && FitsHeadroom(Run(db, Front(run)), Last(run), e))
  }

  /**
   * Every moment of a run is solvent if and only if what each accepted completion takes beyond its
   * reservation fits the headroom of its moment.
   */
  lemma {:induction false} RunSolventExactly(db: Database, run: seq<Action>, e: ExperimentId)
    requires WellFormed(db) && Legal(db, run) && Solvent(db, e) && forall a :: a in run ==> Sane(a)
    ensures AlwaysSolvent(db, run, e) <==> AllFit(db, run, e)
  {
    if run != [] {
      RunSolventExactly(db, Front(run), e);
      LegalGrounded(db, run);
      assert Last(run) in run;
      if AlwaysSolvent(db, Front(run), e) {
        SolventStepExactly(Run(db, Front(run)), Last(run), e);
      }
    }
  }

  // ----- leases -----

  ghost predicate Grants(db: Database, a: Action, id: JobId) {
    a.Claim? && Step(db, a).reply.Granted? && Step(db, a).reply.job.jobId == id
  }

  /** The end of the current grant, read off the history: set by grants and heartbeats, released by failures. */
  ghost function LeaseEnd(db: Database, run: seq<Action>, id: JobId): Option<int> {
    if run == [] then None
    else LeaseEndAfter(Run(db, Front(run)), Last(run), LeaseEnd(db, Front(run), id), id)
  }

  ghost function LeaseEndAfter(db: Database, a: Action, earlier: Option<int>, id: JobId): Option<int> {
    match a
    case Claim(_, seconds, now, _) => if Grants(db, a, id) then Some(now + seconds * SECOND) else earlier
    case Heartbeat(j, _, seconds, now) =>
      if j == id && Step(db, a).reply == Done then Some(now + seconds * SECOND) else earlier
    case Fail(job, _, _) => if job.jobId == id && Step(db, a).reply == Done then None else earlier
    case _ => earlier
  }

  ghost predicate LeaseInv(job: Job, end: Option<int>) {
    && job.leaseUntil == end
    && (job.status.Pending? || job.status.RetryWait? ==> job.owner.None? && end.None?)
  }

  lemma ClaimEffect(db: Database, a: Action, id: JobId)
    requires WellFormed(db) && a.Claim? && id in db.jobs
    ensures Step(db, a).state.jobs.Keys == db.jobs.Keys
    ensures Grants(db, a, id) ==>
              Claimable(db, id, a.now, a.locked)
              && Step(db, a).state.jobs[id].job == Lease(db.jobs[id].job, a.worker, a.seconds, a.now)
    ensures !Grants(db, a, id) ==> Step(db, a).state.jobs[id] == db.jobs[id]
  {
  }

  lemma LeaseStep(db: Database, a: Action, id: JobId, end: Option<int>)
    requires WellFormed(db) && id in db.jobs && LeaseInv(db.jobs[id].job, end)
    ensures id in Step(db, a).state.jobs && LeaseInv(Step(db, a).state.jobs[id].job, LeaseEndAfter(db, a, end, id))
  {
    if a.Claim? {
      ClaimEffect(db, a, id);
    }
  }

  lemma {:induction false} LeaseInvHolds(db: Database, run: seq<Action>, id: JobId)
    requires WellFormed(db) && id in db.jobs && LeaseInv(db.jobs[id].job, None)
    ensures id in Run(db, run).jobs && LeaseInv(Run(db, run).jobs[id].job, LeaseEnd(db, run, id))
  {
    if run != [] {
      LeaseInvHolds(db, Front(run), id);
      RunKeepsRows(db, Front(run));
      LeaseStep(Run(db, Front(run)), Last(run), id, LeaseEnd(db, Front(run), id));
    }
  }

  /** Two grants of one row never overlap; here no assumption on the clock is needed. */
  lemma GrantsNeverOverlap(db: Database, run: seq<Action>, id: JobId)
    requires WellFormed(db) && id in db.jobs && LeaseInv(db.jobs[id].job, None) && run != []
    requires Grants(Run(db, Front(run)), Last(run), id)
    ensures LeaseEnd(db, Front(run), id).Some? ==> LeaseEnd(db, Front(run), id).value < Last(run).now
  {
    LeaseInvHolds(db, Front(run), id);
    RunKeepsRows(db, Front(run));
    ClaimEffect(Run(db, Front(run)), Last(run), id);
  }

  // ----- finished jobs -----

  /** A call by which a finished row becomes unfinished: a late heartbeat or a failure report. */
  ghost predicate Reopens(db: Database, a: Action, id: JobId)
    requires id in db.jobs
  {
    || (a.Heartbeat? && a.id == id && db.jobs[id].job.owner == Some(a.worker))
    || (a.Fail? && a.job.jobId == id)
  }

  /**
   * SUCCEEDED is not final: a step leaves it exactly when the recorded owner sends a heartbeat or
   * some holder of a snapshot reports a failure. No claim ever does.
   */
  lemma SucceededEndsExactly(db: Database, a: Action, id: JobId)
    requires WellFormed(db) && Grounded(db, a) && id in db.jobs && db.jobs[id].job.status.Succeeded?
    ensures id in Step(db, a).state.jobs
    ensures Step(db, a).state.jobs[id].job.status.Succeeded? <==> !Reopens(db, a, id)
  {
    if a.Claim? {
      ClaimEffect(db, a, id);
    }
  }

  /** A stored session result is never replaced or removed. */
  lemma {:induction false} ResultsPersist(db: Database, run: seq<Action>, key: string)
    requires key in db.sessions
    ensures key in Run(db, run).sessions && Run(db, run).sessions[key] == db.sessions[key]
  {
    if run != [] {
      ResultsPersist(db, Front(run), key);
    }
  }

  // ----- what a claim hands out -----

  /** The job is due, or was left by a worker whose lease ran out. */
  predicate Takeable(job: Job, now: int) {
    || (job.status in {Pending, RetryWait} && job.notBefore <= now)
    || (job.status in {Leased, Running} && job.leaseUntil.Some? && job.leaseUntil.value < now)
  }

  /** A row that no other session holds, of an experiment that is not stopped, can be taken. */
  ghost predicate CanTake(db: Database, id: JobId, now: int, locked: set<JobId>)
    requires WellFormed(db)
  {
    id in db.jobs && id !in locked && Takeable(db.jobs[id].job, now)
    && !db.manifests[db.jobs[id].job.experimentId].stopRequested
  }

  /** A claim grants the oldest row that can be taken, and of several as old the one with the smallest id. */
  lemma ClaimGrantsOldest(db: Database, worker: string, seconds: int, now: int, locked: set<JobId>)
    requires WellFormed(db) && ClaimSpec(db, worker, seconds, now, locked).reply.Granted?
    ensures var done := ClaimSpec(db, worker, seconds, now, locked);
            var id := done.reply.job.jobId;
            && CanTake(db, id, now, locked)
            && (forall j :: CanTake(db, j, now, locked) ==>
                  || db.jobs[id].job.notBefore < db.jobs[j].job.notBefore
                  || (db.jobs[id].job.notBefore == db.jobs[j].job.notBefore && id <= j))
            && done.state == db.(jobs := db.jobs[id := db.jobs[id].(job := done.reply.job)])
  {
    var done := ClaimSpec(db, worker, seconds, now, locked);
    var id :| IsNext(db, id, now, locked) && done.reply.job == Lease(db.jobs[id].job, worker, seconds, now)
              && done.state == db.(jobs := db.jobs[id := db.jobs[id].(job := done.reply.job)]);
    forall j | CanTake(db, j, now, locked)
      ensures db.jobs[id].job.notBefore < db.jobs[j].job.notBefore
           || (db.jobs[id].job.notBefore == db.jobs[j].job.notBefore && id <= j)
    {
      assert Claimable(db, j, now, locked);
    }
  }

  /** The row as it was, but under a new lease, for one more attempt. */
  lemma ClaimLeases(db: Database, worker: string, seconds: int, now: int, locked: set<JobId>)
    requires WellFormed(db) && ClaimSpec(db, worker, seconds, now, locked).reply.Granted?
    ensures var job := ClaimSpec(db, worker, seconds, now, locked).reply.job;
            && job.jobId in db.jobs && SameIdentity(job, db.jobs[job.jobId].job)
            && job.status == Leased && job.owner == Some(worker)
            && job.leaseUntil == Some(now + seconds * 1_000_000)
            && job.attempts == db.jobs[job.jobId].job.attempts + 1
            && job.notBefore == db.jobs[job.jobId].job.notBefore
  {
    var done := ClaimSpec(db, worker, seconds, now, locked);
    var id :| IsNext(db, id, now, locked) && done.reply.job == Lease(db.jobs[id].job, worker, seconds, now);
  }

  lemma {:induction false} OldestOf(db: Database, now: int, locked: set<JobId>, ids: set<JobId>) returns (oldest: JobId)
    requires WellFormed(db) && exists id :: id in ids && CanTake(db, id, now, locked)
    ensures oldest in ids && Claimable(db, oldest, now, locked)
    ensures forall j :: j in ids && Claimable(db, j, now, locked) ==> Precedes(db.jobs[oldest].job, db.jobs[j].job)
    decreases |ids|
  {
    oldest :| oldest in ids && CanTake(db, oldest, now, locked);
    var others, some := ids - {oldest}, oldest;
    assert forall j :: j in ids && Claimable(db, j, now, locked) ==>
        j == some || (j in others && CanTake(db, j, now, locked));
    if exists id :: id in others && CanTake(db, id, now, locked) {
      var other := OldestOf(db, now, locked, others);
      if Precedes(db.jobs[other].job, db.jobs[oldest].job) {
        oldest := other;
      }
    }
  }

  /** A claim comes back with nothing exactly when no row can be taken. */
  lemma ClaimFindsNothingExactly(db: Database, worker: string, seconds: int, now: int, locked: set<JobId>)
    requires WellFormed(db)
    ensures ClaimSpec(db, worker, seconds, now, locked).reply == Nothing <==>
            forall id :: id in db.jobs ==> !CanTake(db, id, now, locked)
    ensures ClaimSpec(db, worker, seconds, now, locked).reply == Nothing ==>
            ClaimSpec(db, worker, seconds, now, locked).state == db
  {
    if exists id :: id in db.jobs && CanTake(db, id, now, locked) {
      var oldest := OldestOf(db, now, locked, db.jobs.Keys);
      assert IsNext(db, oldest, now, locked);
    } else {
      forall id ensures !IsNext(db, id, now, locked) {
        assert id in db.jobs ==> !CanTake(db, id, now, locked);
      }
    }
  }

  // ----- what the other sessions commit -----

  /** Everything but this job and its manifest is as it was. */
  ghost predicate Untouched(db: Database, r: Database, job: Job) {
    && r.jobs.Keys == db.jobs.Keys && r.manifests.Keys == db.manifests.Keys
    && (forall id :: id in db.jobs && id != job.jobId ==> r.jobs[id] == db.jobs[id])
    && (forall e :: e in db.manifests && e != job.experimentId ==> r.manifests[e] == db.manifests[e])
  }

  /** A failure report returns the row's reservation and retries by what the reporting worker saw. */
  lemma FailMeans(db: Database, job: Job, retryable: bool, now: int)
    requires job.experimentId in db.manifests && job.jobId in db.jobs
    ensures var done, row, m := FailSpec(db, job, retryable, now), db.jobs[job.jobId], db.manifests[job.experimentId];
            && done.reply == Done && Untouched(db, done.state, job) && done.state.sessions == db.sessions
            && Reported(row.job, done.state.jobs[job.jobId].job, retryable, job.attempts, job.maxAttempts, now)
            && done.state.jobs[job.jobId].reserved == 0 && done.state.jobs[job.jobId].actual == row.actual
            && done.state.manifests[job.experimentId] == m.(reserved := m.reserved - row.reserved)
  {
  }

  /** A completion is accepted in a running experiment whose ceiling it fits; it stores the session if new. */
  lemma CompleteMeans(db: Database, job: Job, result: Document, cost: int)
    requires job.experimentId in db.manifests && job.jobId in db.jobs
    ensures var done, row, m := CompleteSpec(db, job, result, cost), db.jobs[job.jobId], db.manifests[job.experimentId];
            && (done.reply == Done <==> !m.stopRequested && m.spent + cost <= m.ceiling)
            && (done.reply == Refused(ExperimentStopped) <==> m.stopRequested)
            && (done.reply != Done ==>
                done.state == db && done.reply in {Refused(ExperimentStopped), Refused(CeilingExceeded)})
            && (done.reply == Done ==>
                  && Untouched(db, done.state, job)
                  && done.state.jobs[job.jobId].job.status == Succeeded
                  && done.state.jobs[job.jobId].job.(status := row.job.status) == row.job
                  && done.state.jobs[job.jobId].reserved == 0 && done.state.jobs[job.jobId].actual == Some(cost)
                  && done.state.manifests[job.experimentId]
                     == m.(spent := m.spent + cost, reserved := m.reserved - row.reserved)
                  && Stores(db.sessions, done.state.sessions, job.sessionKey, result))
  {
  }

  /** The key has a session afterwards: its old one if it had one, else the new one. */
  predicate Stores(before: map<string, Document>, after: map<string, Document>, key: string, result: Document) {
    && after.Keys == before.Keys + {key}
    && (forall k :: k in before ==> after[k] == before[k])
    && (key !in before ==> after[key] == result)
  }

  /** A reservation is made once per row, in a running experiment, as far as the ceiling allows. */
  lemma ReserveMeans(db: Database, job: Job, amount: int)
    requires job.experimentId in db.manifests && job.jobId in db.jobs
    ensures var done, row, m := ReserveSpec(db, job, amount), db.jobs[job.jobId], db.manifests[job.experimentId];
            && (done.reply == Done <==>
                  row.reserved != 0 || (!m.stopRequested && m.spent + m.reserved + amount <= m.ceiling))
            && (done.reply == Refused(ExperimentStopped) <==> row.reserved == 0 && m.stopRequested)
            && (done.reply in {Done, Refused(ExperimentStopped), Refused(CeilingExceeded)})
            && (done.reply != Done || row.reserved != 0 ==> done.state == db)
            && (done.reply == Done && row.reserved == 0 ==>
                  && Untouched(db, done.state, job) && done.state.sessions == db.sessions
                  && done.state.jobs[job.jobId] == row.(reserved := amount)
                  && done.state.manifests[job.experimentId] == m.(reserved := m.reserved + amount))
  {
  }

  /** A heartbeat of the recorded owner extends the lease and marks the row as running. */
  lemma HeartbeatMeans(db: Database, id: JobId, worker: string, seconds: int, now: int)
    ensures var done := HeartbeatSpec(db, id, worker, seconds, now);
            && (done.reply == Done <==> id in db.jobs && db.jobs[id].job.owner == Some(worker))
            && (done.reply != Done ==> done.state == db && done.reply == Refused(NotLeaseOwner))
            && (done.reply == Done ==>
                  && id in done.state.jobs && done.state.(jobs := db.jobs) == db
                  && done.state.jobs.Keys == db.jobs.Keys
                  && (forall j :: j in db.jobs && j != id ==> done.state.jobs[j] == db.jobs[j])
                  && done.state.jobs[id].job.leaseUntil == Some(now + seconds * 1_000_000)
                  && done.state.jobs[id].job.status == Running
                  && done.state.jobs[id].(job := done.state.jobs[id].job.(leaseUntil := db.jobs[id].job.leaseUntil,
                                                                          status := db.jobs[id].job.status))
                     == db.jobs[id])
  {
  }

  /** Stopping sets the flag that refuses claims, reservations and completions; resuming clears it. */
  lemma SwitchMeans(db: Database, e: ExperimentId, stop: bool)
    requires e in db.manifests
    ensures var r := SwitchSpec(db, e, stop);
            && e in r.manifests && (r.manifests[e].stopRequested <==> stop)
            && (r.manifests[e].status == StoppedExperiment <==> stop)
            && (r.manifests[e].status == RunningExperiment <==> !stop)
            && r.manifests[e].(stopRequested := db.manifests[e].stopRequested, status := db.manifests[e].status)
               == db.manifests[e]
            && r.manifests.Keys == db.manifests.Keys && r.(manifests := db.manifests) == db
            && forall f :: f in db.manifests && f != e ==> r.manifests[f] == db.manifests[f]
  {
  }
}
