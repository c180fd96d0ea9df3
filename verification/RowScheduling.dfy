/** Scheduling on the row-based queue: when it is accepted, what it adds, and what it keeps. */
module RowScheduling {
  import opened Prelude
  import opened ExperimentModel
  import opened SessionKeys
  import opened RowQueue
  import IQ = InMemoryQueue
  import S = Scheduling
  import P = RowProtocol

  // ----- adding rows -----

  /** New rows of one experiment: new distinct identifiers, pending, nothing reserved. */
  ghost predicate NewRowsOf(db: Database, m: Manifest, added: seq<Job>) {
    && S.DistinctJobs(added)
    && forall i :: 0 <= i < |added| ==> NewRow(db, m, added[i])
  }

  predicate NewRow(db: Database, m: Manifest, job: Job) {
    job.jobId !in db.jobs && job.experimentId == m.experimentId && job.status.Pending?
    && EstimatedCost(m, job.configurationId) == Some(job.estimate)
  }

  lemma {:induction false} AddRowsExactly(jobs: map<JobId, JobRow>, added: seq<Job>, id: JobId)
    requires S.DistinctJobs(added) && forall i :: 0 <= i < |added| ==> added[i].jobId !in jobs
    ensures id in jobs ==> id in AddRows(jobs, added) && AddRows(jobs, added)[id] == jobs[id]
    ensures id in AddRows(jobs, added) && id !in jobs ==> exists i :: 0 <= i < |added| && RowOf(jobs, added, i, id)
  {
    if added != [] {
      var before, last := added[..|added| - 1], added[|added| - 1];
      AddRowsExactly(jobs, before, id);
      if id in AddRows(jobs, added) && id !in jobs {
        if id == last.jobId {
          assert RowOf(jobs, added, |added| - 1, id);
        } else {
          var i :| 0 <= i < |before| && RowOf(jobs, before, i, id);
          assert RowOf(jobs, added, i, id);
        }
      }
    }
  }

  /** The i-th new job is stored under its identifier. */
  predicate RowOf(jobs: map<JobId, JobRow>, added: seq<Job>, i: int, id: JobId) {
    0 <= i < |added| && added[i].jobId == id
    && id in AddRows(jobs, added) && AddRows(jobs, added)[id] == JobRow(added[i], 0, None)
  }

  lemma {:induction false} AddRowsAdds(jobs: map<JobId, JobRow>, added: seq<Job>, i: nat)
    requires S.DistinctJobs(added) && i < |added|
    ensures RowOf(jobs, added, i, added[i].jobId)
  {
    if i < |added| - 1 {
      AddRowsAdds(jobs, added[..|added| - 1], i);
      assert added[i].jobId != added[|added| - 1].jobId;
    }
  }

  // ----- what a schedule call keeps -----

  lemma ScheduledRows(db: Database, m: Manifest, added: seq<Job>)
    requires WellFormed(db) && NewRowsOf(db, m, added) && ScheduleSpec(db, m, added).reply == Done
    ensures var r := ScheduleSpec(db, m, added).state;
            && WellFormed(r) && m.experimentId in r.manifests && r.manifests[m.experimentId].payload == m
            && (forall e :: e in db.manifests ==> e in r.manifests && r.manifests[e] == db.manifests[e])
            && (forall id :: id in db.jobs ==> id in r.jobs && r.jobs[id] == db.jobs[id])
            && (forall id :: id in r.jobs && id !in db.jobs ==>
                  r.jobs[id].reserved == 0 && r.jobs[id].job.jobId == id && r.jobs[id].job.status.Pending?
                  && r.jobs[id].job.experimentId == m.experimentId
                  && EstimatedCost(m, r.jobs[id].job.configurationId) == Some(r.jobs[id].job.estimate))
  {
    var r := ScheduleSpec(db, m, added).state;
    forall id ensures id in db.jobs ==> id in r.jobs && r.jobs[id] == db.jobs[id] {
      AddRowsExactly(db.jobs, added, id);
    }
    forall id | id in r.jobs && id !in db.jobs
      ensures r.jobs[id].reserved == 0 && r.jobs[id].job.jobId == id && NewRow(db, m, r.jobs[id].job)
    {
      AddRowsExactly(db.jobs, added, id);
      var i :| 0 <= i < |added| && RowOf(db.jobs, added, i, id);
    }
  }

  /** A new manifest row is open, with its own ceiling and nothing spent or held; a known one stays as it is. */
  lemma RegistersMeans(db: Database, m: Manifest, added: seq<Job>)
    requires ScheduleSpec(db, m, added).reply == Done
    ensures var manifests, e := ScheduleSpec(db, m, added).state.manifests, m.experimentId;
            && e in manifests && manifests.Keys == db.manifests.Keys + {e}
            && (forall f :: f in db.manifests ==> manifests[f] == db.manifests[f])
            && (e in db.manifests ==> db.manifests[e].payload == m)
            && (e !in db.manifests ==>
                  && manifests[e].payload == m && manifests[e].ceiling == m.ceiling
                  && manifests[e].spent == 0 && manifests[e].reserved == 0 && !manifests[e].stopRequested
                  && manifests[e].status == Created)
            && ScheduleSpec(db, m, added).state.sessions == db.sessions
  {
  }

  /** Rows that reserve nothing leave every reserved total as it was. */
  lemma NewRowsReserveNothing(db: Database, r: Database, e: ExperimentId)
    requires forall id :: id in db.jobs ==> id in r.jobs && r.jobs[id] == db.jobs[id]
    requires forall id :: id in r.jobs && id !in db.jobs ==> r.jobs[id].reserved == 0
    ensures SumValues(P.ReservedOf(r, e)) == SumValues(P.ReservedOf(db, e))
  {
    assert P.NonZero(P.ReservedOf(r, e)) == P.NonZero(P.ReservedOf(db, e));
    P.NonZeroSum(P.ReservedOf(r, e));
    P.NonZeroSum(P.ReservedOf(db, e));
  }

  lemma NothingReserved(db: Database, e: ExperimentId)
    requires forall id :: id in db.jobs ==> db.jobs[id].job.experimentId != e
    ensures SumValues(P.ReservedOf(db, e)) == 0
  {
    assert P.ReservedOf(db, e) == map[];
  }

  /**
   * Every schedule call, accepted or not, keeps the books: balanced manifests stay balanced, solvent
   * ones solvent, and a new manifest starts balanced and solvent.
   */
  lemma ScheduleKeepsBooks(db: Database, m: Manifest, added: seq<Job>, e: ExperimentId)
    requires WellFormed(db) && NewRowsOf(db, m, added)
    ensures var done := ScheduleSpec(db, m, added);
            && WellFormed(done.state)
            && (P.Balanced(db, e) ==> P.Balanced(done.state, e))
            && (P.Solvent(db, e) ==> P.Solvent(done.state, e))
            && (e !in db.manifests && e in done.state.manifests ==> P.Solvent(done.state, e))
  {
    var done := ScheduleSpec(db, m, added);
    if done.reply == Done {
      ScheduledRows(db, m, added);
      NewRowsReserveNothing(db, done.state, e);
      if e !in db.manifests {
        NothingReserved(db, e);
      }
    }
  }

  // ----- when a schedule call is accepted -----

  /** Every row carries the key of its own experiment and cell. */
  ghost predicate KeysProper(db: Database, hash: string -> string) {
    forall id :: id in db.jobs ==>
      && ColonFree(db.jobs[id].job.configurationId)
      && db.jobs[id].job.sessionKey == SessionKey(hash, db.jobs[id].job.experimentId, S.CellOf(db.jobs[id].job))
  }

  /** The texts of a cell to be scheduled and of some existing row share a hash. */
  ghost predicate ClashWithRows(db: Database, hash: string -> string, e: ExperimentId, order: seq<Cell>) {
    exists x, id :: x in order && id in db.jobs && RowClash(db.jobs[id].job, hash, e, x)
  }

  predicate RowClash(job: Job, hash: string -> string, e: ExperimentId, x: Cell) {
    KeyClash(hash, job.experimentId, S.CellOf(job), e, x)
  }

  /** One schedule call: a permutation of the design, and new identifiers for its rows. */
  ghost predicate Schedules(db: Database, m: Manifest, scenarios: seq<string>, order: seq<Cell>, ids: seq<JobId>) {
    && multiset(order) == multiset(S.Design(m, scenarios))
    && (forall x :: x in order ==> Configured(m.configurations, x.configurationId))
    && |order| <= |ids| && Distinct(ids)
    && forall k :: 0 <= k < |ids| ==> ids[k] !in db.jobs
  }

  function Added(db: Database, hash: string -> string, m: Manifest, order: seq<Cell>, ids: seq<JobId>,
                 now: int): seq<Job>
    requires |order| <= |ids| && forall x :: x in order ==> Configured(m.configurations, x.configurationId)
  {
    IQ.NewJobs(KeysOfExperiment(db, m.experimentId), hash, m, order, ids, now)
  }

  lemma AddedAreNew(db: Database, hash: string -> string, m: Manifest, scenarios: seq<string>, order: seq<Cell>,
                    ids: seq<JobId>, now: int)
    requires Schedules(db, m, scenarios, order, ids)
    ensures NewRowsOf(db, m, Added(db, hash, m, order, ids, now))
  {
    var added := Added(db, hash, m, order, ids, now);
    S.NewJobsDistinct(KeysOfExperiment(db, m.experimentId), hash, m, order, ids, now);
    forall i | 0 <= i < |added| ensures NewRow(db, m, added[i]) {
      var k := S.NewJobsFrom(KeysOfExperiment(db, m.experimentId), hash, m, order, ids, now, i);
    }
  }

  /** Of a new experiment no key is known, so every place of the design gets a row. */
  lemma AllAdded(db: Database, hash: string -> string, m: Manifest, order: seq<Cell>, ids: seq<JobId>, now: int)
    requires WellFormed(db) && m.experimentId !in db.manifests
    requires |order| <= |ids| && forall x :: x in order ==> Configured(m.configurations, x.configurationId)
    ensures var added := Added(db, hash, m, order, ids, now);
            && |added| == |order|
            && forall k :: 0 <= k < |order| ==>
                 Configured(m.configurations, order[k].configurationId)
                 && added[k] == IQ.NewJob(ids[k], m, SessionKey(hash, m.experimentId, order[k]), order[k], now)
  {
    assert KeysOfExperiment(db, m.experimentId) == {};
    S.NewJobsAll({}, hash, m, order, ids, now);
  }

  lemma FreeExactly(db: Database, hash: string -> string, m: Manifest, order: seq<Cell>, ids: seq<JobId>, now: int)
    requires WellFormed(db) && KeysProper(db, hash) && m.experimentId !in db.manifests && S.CleanManifest(m)
    requires |order| <= |ids| && forall x :: x in order ==> Configured(m.configurations, x.configurationId)
    ensures KeysFree(db.jobs, Added(db, hash, m, order, ids, now)) <==>
            S.DistinctKeys(hash, m.experimentId, order) && !ClashWithRows(db, hash, m.experimentId, order)
  {
    var added := Added(db, hash, m, order, ids, now);
    AllAdded(db, hash, m, order, ids, now);
    forall i, id | 0 <= i < |added| && id in db.jobs
      ensures added[i].sessionKey == db.jobs[id].job.sessionKey <==>
              RowClash(db.jobs[id].job, hash, m.experimentId, order[i])
    {
      assert order[i] in order;
      S.ConfiguredColonFree(m, order[i].configurationId);
      SessionKeyInjective(hash, db.jobs[id].job.experimentId, S.CellOf(db.jobs[id].job), m.experimentId, order[i]);
    }
    if ClashWithRows(db, hash, m.experimentId, order) {
      var x, id :| x in order && id in db.jobs && RowClash(db.jobs[id].job, hash, m.experimentId, x);
      var i :| 0 <= i < |order| && order[i] == x;
      assert added[i].sessionKey == db.jobs[id].job.sessionKey;
    } else {
      assert forall i, id :: 0 <= i < |added| && id in db.jobs ==>
          order[i] in order && added[i].sessionKey != db.jobs[id].job.sessionKey;
    }
    DistinctAdded(hash, m, order, added);
  }

  lemma DistinctAdded(hash: string -> string, m: Manifest, order: seq<Cell>, added: seq<Job>)
    requires |added| == |order|
    requires forall k :: 0 <= k < |order| ==> added[k].sessionKey == SessionKey(hash, m.experimentId, order[k])
    ensures (forall i, j :: 0 <= i < j < |added| ==> added[i].sessionKey != added[j].sessionKey) <==>
            S.DistinctKeys(hash, m.experimentId, order)
  {
    if forall i, j :: 0 <= i < j < |added| ==> added[i].sessionKey != added[j].sessionKey {
      forall k, l | 0 <= k < |order| && 0 <= l < |order| && k != l
        ensures SessionKey(hash, m.experimentId, order[k]) != SessionKey(hash, m.experimentId, order[l])
      {
        assert if k < l then added[k].sessionKey != added[l].sessionKey else added[l].sessionKey != added[k].sessionKey;
      }
    }
  }

  /**
   * A new experiment is accepted exactly when no scenario is listed twice and no text of its design
   * clashes with another or with that of a row: here, unlike in memory, a shared key is refused.
   */
  lemma ScheduleAcceptedExactly(db: Database, hash: string -> string, m: Manifest, scenarios: seq<string>,
                                order: seq<Cell>, ids: seq<JobId>, now: int)
    requires WellFormed(db) && KeysProper(db, hash) && m.experimentId !in db.manifests
    requires S.CleanManifest(m) && Schedules(db, m, scenarios, order, ids) && 1 <= m.repetitions
             && m.configurations != []
    ensures var done := ScheduleSpec(db, m, Added(db, hash, m, order, ids, now));
            && (done.reply == Done <==>
                Distinct(scenarios) && !S.ClashInDesign(hash, m.experimentId, order)
                && !ClashWithRows(db, hash, m.experimentId, order))
            && (done.reply != Done ==> done.state == db)
            && (done.reply == Done ==>
                  forall k :: 0 <= k < |order| ==>
                    Configured(m.configurations, order[k].configurationId) && ids[k] in done.state.jobs
                    && done.state.jobs[ids[k]]
                       == JobRow(IQ.NewJob(ids[k], m, SessionKey(hash, m.experimentId, order[k]), order[k], now), 0,
                                 None))
  {
    FreeExactly(db, hash, m, order, ids, now);
    S.DesignKeysDistinctExactly(hash, m, scenarios, order);
    AllAdded(db, hash, m, order, ids, now);
    AddedAreNew(db, hash, m, scenarios, order, ids, now);
    var added := Added(db, hash, m, order, ids, now);
    forall k | 0 <= k < |order| ensures RowOf(db.jobs, added, k, ids[k]) {
      AddRowsAdds(db.jobs, added, k);
    }
  }

  // ----- rescheduling -----

  /** An accepted schedule call leaves the key of each of its cells on some row of the experiment. */
  lemma ScheduledKeysKnown(db: Database, hash: string -> string, m: Manifest, scenarios: seq<string>, order: seq<Cell>,
                           ids: seq<JobId>, now: int)
    requires WellFormed(db) && Schedules(db, m, scenarios, order, ids)
    requires ScheduleSpec(db, m, Added(db, hash, m, order, ids, now)).reply == Done
    ensures var r := ScheduleSpec(db, m, Added(db, hash, m, order, ids, now)).state;
            && WellFormed(r) && m.experimentId in r.manifests && r.manifests[m.experimentId].payload == m
            && forall x :: x in order ==> SessionKey(hash, m.experimentId, x) in KeysOfExperiment(r, m.experimentId)
  {
    var added := Added(db, hash, m, order, ids, now);
    var r := ScheduleSpec(db, m, added).state;
    AddedAreNew(db, hash, m, scenarios, order, ids, now);
    ScheduledRows(db, m, added);
    forall x | x in order ensures SessionKey(hash, m.experimentId, x) in KeysOfExperiment(r, m.experimentId) {
      var key := SessionKey(hash, m.experimentId, x);
      if key in KeysOfExperiment(db, m.experimentId) {
        var id :| id in db.jobs && db.jobs[id].job.experimentId == m.experimentId && db.jobs[id].job.sessionKey == key;
        assert r.jobs[id] == db.jobs[id];
      } else {
        var i := S.JobOfCell(KeysOfExperiment(db, m.experimentId), hash, m, order, ids, now, x);
        AddRowsAdds(db.jobs, added, i);
        assert NewRow(db, m, added[i]) && r.jobs[added[i].jobId].job == added[i];
      }
    }
  }

  lemma StepKeepsPayloads(db: Database, a: P.Action)
    requires WellFormed(db)
    ensures forall e :: e in db.manifests ==>
              e in P.Step(db, a).state.manifests && P.Step(db, a).state.manifests[e].payload == db.manifests[e].payload
  {
    if a.Claim? {
      P.ClaimRows(db, a.worker, a.seconds, a.now, a.locked);
    }
  }

  lemma {:induction false} RunKeepsSchedule(db: Database, run: seq<P.Action>, e: ExperimentId)
    requires WellFormed(db) && e in db.manifests
    ensures WellFormed(P.Run(db, run)) && e in P.Run(db, run).manifests
    ensures P.Run(db, run).manifests[e].payload == db.manifests[e].payload
    ensures KeysOfExperiment(db, e) <= KeysOfExperiment(P.Run(db, run), e)
  {
    if run != [] {
      RunKeepsSchedule(db, P.Front(run), e);
      var before, after := P.Run(db, P.Front(run)), P.Run(db, run);
      P.StepKeepsRows(before, P.Last(run));
      StepKeepsPayloads(before, P.Last(run));
      forall key | key in KeysOfExperiment(before, e) ensures key in KeysOfExperiment(after, e) {
        var id :| id in before.jobs && before.jobs[id].job.experimentId == e && before.jobs[id].job.sessionKey == key;
        assert SameIdentity(after.jobs[id].job, before.jobs[id].job);
      }
    }
  }

  /**
   * Scheduling the same manifest and scenarios again, under any other shuffle and after any run, is
   * accepted and changes nothing; a different manifest under the same id is refused.
   */
  lemma RescheduleChangesNothing(db: Database, hash: string -> string, m: Manifest, scenarios: seq<string>,
                                 first: seq<Cell>, ids: seq<JobId>, now: int, run: seq<P.Action>,
                                 second: seq<Cell>, others: seq<JobId>, later: int)
    requires WellFormed(db) && Schedules(db, m, scenarios, first, ids)
    requires ScheduleSpec(db, m, Added(db, hash, m, first, ids, now)).reply == Done
    requires multiset(second) == multiset(S.Design(m, scenarios)) && |second| <= |others|
    requires forall x :: x in second ==> Configured(m.configurations, x.configurationId)
    ensures var r := P.Run(ScheduleSpec(db, m, Added(db, hash, m, first, ids, now)).state, run);
            && ScheduleSpec(r, m, Added(r, hash, m, second, others, later)) == Stepped(r, Done)
            && forall n: Manifest, added :: n.experimentId == m.experimentId && n != m ==>
                 ScheduleSpec(r, n, added) == Stepped(r, Refused(ManifestConflict))
  {
    var s := ScheduleSpec(db, m, Added(db, hash, m, first, ids, now)).state;
    ScheduledKeysKnown(db, hash, m, scenarios, first, ids, now);
    RunKeepsSchedule(s, run, m.experimentId);
    var r := P.Run(s, run);
    forall x | x in second ensures SessionKey(hash, m.experimentId, x) in KeysOfExperiment(r, m.experimentId) {
      assert x in multiset(second) && x in multiset(first);
    }
    S.NewJobsNone(KeysOfExperiment(r, m.experimentId), hash, m, second, others, later);
  }
}
