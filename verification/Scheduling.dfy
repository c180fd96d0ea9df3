/** What scheduling an experiment creates, whatever the shuffle, and what rescheduling changes. */
module Scheduling {
  import opened Prelude
  import opened ExperimentModel
  import opened SessionKeys
  import opened InMemoryQueue
  import P = QueueProtocol
  import ExperimentWorker
  import W = WorkerSystem

  function CellOf(job: Job): Cell {
    Cell(job.configurationId, job.scenarioId, job.repetition)
  }

  function Design(m: Manifest, scenarios: seq<string>): seq<Cell> {
    DesignCells(m.configurations, scenarios, m.repetitions)
  }

  /** The manifest validator: configuration ids are unique; here also colon-free. */
  ghost predicate CleanManifest(m: Manifest) {
    && DistinctConfigurations(m.configurations)
    && forall k :: 0 <= k < |m.configurations| ==> ColonFree(m.configurations[k].configurationId)
  }

  /** Every job carries the key of its own experiment and cell. */
  ghost predicate KeysProper(q: Queue, hash: string -> string) {
    forall id :: id in q.jobs ==>
      && ColonFree(q.jobs[id].configurationId)
      && q.jobs[id].sessionKey == SessionKey(hash, q.jobs[id].experimentId, CellOf(q.jobs[id]))
  }

  /** One schedule call: a permutation of the design, and new identifiers for its jobs. */
  ghost predicate Schedules(q: Queue, m: Manifest, scenarios: seq<string>, order: seq<Cell>, ids: seq<JobId>) {
    && multiset(order) == multiset(Design(m, scenarios))
    && (forall x :: x in order ==> Configured(m.configurations, x.configurationId))
    && |order| <= |ids| && Distinct(ids)
    && forall k :: 0 <= k < |ids| ==> ids[k] !in q.jobs
  }

  ghost function After(q: Queue, hash: string -> string, m: Manifest, order: seq<Cell>, ids: seq<JobId>,
                       now: int): Queue
    requires |order| <= |ids| && forall x :: x in order ==> Configured(m.configurations, x.configurationId)
  {
    ScheduleSpec(q, m, NewJobs(KeysOf(q), hash, m, order, ids, now))
  }

  lemma {:induction false} NewJobsAll(existing: set<string>, hash: string -> string, m: Manifest, cells: seq<Cell>,
                                      ids: seq<JobId>, now: int)
    requires |cells| <= |ids| && forall x :: x in cells ==> Configured(m.configurations, x.configurationId)
    requires forall x :: x in cells ==> SessionKey(hash, m.experimentId, x) !in existing
    ensures var jobs := NewJobs(existing, hash, m, cells, ids, now);
            |jobs| == |cells|
            && forall k :: 0 <= k < |cells| ==>
                 Configured(m.configurations, cells[k].configurationId)
                 && jobs[k] == NewJob(ids[k], m, SessionKey(hash, m.experimentId, cells[k]), cells[k], now)
  {
    if cells != [] {
      var before := cells[..|cells| - 1];
      assert cells == before + [cells[|cells| - 1]];
      NewJobsAll(existing, hash, m, before, ids, now);
      assert cells[|cells| - 1] in cells;
    }
  }

  lemma {:induction false} NewJobsNone(existing: set<string>, hash: string -> string, m: Manifest, cells: seq<Cell>,
                                       ids: seq<JobId>, now: int)
    requires |cells| <= |ids| && forall x :: x in cells ==> Configured(m.configurations, x.configurationId)
    requires forall x :: x in cells ==> SessionKey(hash, m.experimentId, x) in existing
    ensures NewJobs(existing, hash, m, cells, ids, now) == []
  {
    if cells != [] {
      assert cells[|cells| - 1] in cells;
      NewJobsNone(existing, hash, m, cells[..|cells| - 1], ids, now);
    }
  }

  /** Being free of repetitions does not depend on the order. */
  lemma DistinctIsOrderFree<T>(a: seq<T>, b: seq<T>)
    requires multiset(a) == multiset(b) && Distinct(a)
    ensures Distinct(b)
  {
    forall x ensures multiset(a)[x] <= 1 {
      CountOfDistinct(a, x);
    }
    forall i, j | 0 <= i < j < |b| ensures b[i] != b[j] {
      assert b == b[..i] + [b[i]] + b[i + 1..];
      assert b[j] in b[i + 1..];
      assert multiset(b)[b[j]] <= 1;
    }
  }

  lemma {:induction false} CountOfDistinct<T>(a: seq<T>, x: T)
    requires Distinct(a)
    ensures multiset(a)[x] <= 1
  {
    if a != [] {
      CountOfDistinct(a[1..], x);
      assert a == [a[0]] + a[1..];
      if a[0] == x {
        assert x !in a[1..];
      }
    }
  }

  /** The text of a cell to be scheduled and the text of some existing job share a hash. */
  ghost predicate ClashWithJob(q: Queue, hash: string -> string, e: ExperimentId, x: Cell) {
    exists id :: id in q.jobs && KeyClash(hash, q.jobs[id].experimentId, CellOf(q.jobs[id]), e, x)
  }

  ghost predicate ClashWithJobs(q: Queue, hash: string -> string, e: ExperimentId, order: seq<Cell>) {
    exists x :: x in order && ClashWithJob(q, hash, e, x)
  }

  /** The texts of two cells to be scheduled share a hash. */
  ghost predicate ClashInDesign(hash: string -> string, e: ExperimentId, order: seq<Cell>) {
    exists x, y :: x in order && y in order && KeyClash(hash, e, x, e, y)
  }

  /** A cell of an unscheduled experiment has the key of an existing job exactly when the two texts clash. */
  lemma FreshKeyExactly(q: Queue, hash: string -> string, m: Manifest, x: Cell)
    requires KeysProper(q, hash) && ColonFree(x.configurationId)
    requires forall id :: id in q.jobs ==> q.jobs[id].experimentId != m.experimentId
    ensures SessionKey(hash, m.experimentId, x) in KeysOf(q) <==> ClashWithJob(q, hash, m.experimentId, x)
  {
    forall id | id in q.jobs
      ensures q.jobs[id].sessionKey == SessionKey(hash, m.experimentId, x) <==>
              KeyClash(hash, q.jobs[id].experimentId, CellOf(q.jobs[id]), m.experimentId, x)
    {
      SessionKeyInjective(hash, q.jobs[id].experimentId, CellOf(q.jobs[id]), m.experimentId, x);
    }
  }

  lemma ConfiguredColonFree(m: Manifest, id: string)
    requires CleanManifest(m) && Configured(m.configurations, id)
    ensures ColonFree(id)
  {
  }

  /** For the k-th cell of the shuffled design, r has the job ids[k], and nothing else is new. */
  ghost predicate Adds(q: Queue, r: Queue, hash: string -> string, m: Manifest, order: seq<Cell>, ids: seq<JobId>,
                       now: int)
    requires |order| <= |ids|
  {
    && (forall id :: id in q.jobs ==> id in r.jobs && r.jobs[id] == q.jobs[id])
    && (forall id :: id in r.jobs && id !in q.jobs ==> exists k :: 0 <= k < |order| && ids[k] == id)
    && forall k :: 0 <= k < |order| ==>
         Configured(m.configurations, order[k].configurationId) && ids[k] in r.jobs
         && r.jobs[ids[k]] == NewJob(ids[k], m, SessionKey(hash, m.experimentId, order[k]), order[k], now)
  }

  /** A new job is pending for its cell of the experiment, untried, free at once, and estimated at its cost. */
  lemma NewJobMeans(id: JobId, m: Manifest, key: string, cell: Cell, now: int)
    requires Configured(m.configurations, cell.configurationId)
    ensures var job := NewJob(id, m, key, cell, now);
            && job.jobId == id && job.experimentId == m.experimentId && job.sessionKey == key && CellOf(job) == cell
            && job.status == Pending && job.attempts == 0 && job.maxAttempts == 3
            && job.owner.None? && job.leaseUntil.None? && job.notBefore == now
            && EstimatedCost(m, cell.configurationId) == Some(job.estimate)
  {
  }

  /**
   * Scheduling a fresh experiment adds, for the k-th cell of the shuffled design, the job ids[k],
   * exactly unless the text of some cell clashes with that of an existing job.
   */
  lemma FreshScheduleAddsExactly(q: Queue, hash: string -> string, m: Manifest, scenarios: seq<string>,
                                 order: seq<Cell>, ids: seq<JobId>, now: int)
    requires KeysProper(q, hash) && CleanManifest(m) && Schedules(q, m, scenarios, order, ids)
    requires forall id :: id in q.jobs ==> q.jobs[id].experimentId != m.experimentId
    ensures Adds(q, After(q, hash, m, order, ids, now), hash, m, order, ids, now) <==>
            !ClashWithJobs(q, hash, m.experimentId, order)
  {
    forall x | x in order
      ensures SessionKey(hash, m.experimentId, x) in KeysOf(q) <==> ClashWithJob(q, hash, m.experimentId, x)
    {
      ConfiguredColonFree(m, x.configurationId);
      FreshKeyExactly(q, hash, m, x);
    }
    if ClashWithJobs(q, hash, m.experimentId, order) {
      var x :| x in order && ClashWithJob(q, hash, m.experimentId, x);
      var k :| 0 <= k < |order| && order[k] == x;
      SkippedCell(q, hash, m, order, ids, now, k);
    } else {
      NewJobsAll(KeysOf(q), hash, m, order, ids, now);
      AddsExactly(q, hash, m, order, ids, now, NewJobs(KeysOf(q), hash, m, order, ids, now));
    }
  }

  /** Each new job is the job of some cell whose key was unknown. */
  lemma {:induction false} NewJobsFrom(existing: set<string>, hash: string -> string, m: Manifest, cells: seq<Cell>,
                                       ids: seq<JobId>, now: int, i: nat)
    returns (k: nat)
    requires |cells| <= |ids| && forall x :: x in cells ==> Configured(m.configurations, x.configurationId)
    requires i < |NewJobs(existing, hash, m, cells, ids, now)|
    ensures k < |cells| && SessionKey(hash, m.experimentId, cells[k]) !in existing
    ensures Configured(m.configurations, cells[k].configurationId)
    ensures NewJobs(existing, hash, m, cells, ids, now)[i]
            == NewJob(ids[k], m, SessionKey(hash, m.experimentId, cells[k]), cells[k], now)
  {
    var n := |cells| - 1;
    assert cells[n] in cells;
    if i < |NewJobs(existing, hash, m, cells[..n], ids, now)| {
      k := NewJobsFrom(existing, hash, m, cells[..n], ids, now, i);
    } else {
      k := n;
    }
  }

  lemma NewJobsFresh(q: Queue, existing: set<string>, hash: string -> string, m: Manifest, cells: seq<Cell>,
                     ids: seq<JobId>, now: int)
    requires |cells| <= |ids| && Distinct(ids) && forall k :: 0 <= k < |ids| ==> ids[k] !in q.jobs
    requires forall x :: x in cells ==> Configured(m.configurations, x.configurationId)
    ensures P.NewIds(q, NewJobs(existing, hash, m, cells, ids, now))
  {
    NewJobsDistinct(existing, hash, m, cells, ids, now);
    var jobs := NewJobs(existing, hash, m, cells, ids, now);
    forall i | 0 <= i < |jobs| ensures jobs[i].jobId !in q.jobs && 1 <= jobs[i].maxAttempts {
      var k := NewJobsFrom(existing, hash, m, cells, ids, now, i);
    }
  }

  predicate DistinctJobs(jobs: seq<Job>) {
    forall i, j :: 0 <= i < j < |jobs| ==> jobs[i].jobId != jobs[j].jobId
  }

  lemma {:induction false} NewJobsDistinct(existing: set<string>, hash: string -> string, m: Manifest,
                                           cells: seq<Cell>, ids: seq<JobId>, now: int)
    requires |cells| <= |ids| && Distinct(ids) && forall x :: x in cells ==>
             Configured(m.configurations, x.configurationId)
    ensures DistinctJobs(NewJobs(existing, hash, m, cells, ids, now))
  {
    if cells != [] {
      var n := |cells| - 1;
      var before, jobs := NewJobs(existing, hash, m, cells[..n], ids, now), NewJobs(existing, hash, m, cells, ids, now);
      NewJobsDistinct(existing, hash, m, cells[..n], ids, now);
      forall i, j | 0 <= i < j < |jobs| ensures jobs[i].jobId != jobs[j].jobId {
        assert i < |before| && jobs[i] == before[i];
        if j == |before| {
          var k := NewJobsFrom(existing, hash, m, cells[..n], ids, now, i);
          assert jobs[j].jobId == ids[n] && ids[k] != ids[n];
        } else {
          assert DistinctJobs(before) && jobs[j] == before[j];
        }
      }
    }
  }

  /** A cell whose key is known gets no job. */
  lemma SkippedCell(q: Queue, hash: string -> string, m: Manifest, order: seq<Cell>, ids: seq<JobId>, now: int, k: nat)
    requires |order| <= |ids| && Distinct(ids) && (forall i :: 0 <= i < |ids| ==> ids[i] !in q.jobs) && k < |order|
    requires forall x :: x in order ==> Configured(m.configurations, x.configurationId)
    requires SessionKey(hash, m.experimentId, order[k]) in KeysOf(q)
    ensures ids[k] !in After(q, hash, m, order, ids, now).jobs
  {
    var jobs := NewJobs(KeysOf(q), hash, m, order, ids, now);
    var base := q.(manifests := q.manifests[m.experimentId := m]);
    NewJobsFresh(base, KeysOf(q), hash, m, order, ids, now);
    forall i | 0 <= i < |jobs| ensures jobs[i].jobId != ids[k] {
      var l := NewJobsFrom(KeysOf(q), hash, m, order, ids, now, i);
    }
    if ids[k] in AddAll(base, jobs).jobs {
      P.AddAllOnly(base, jobs, ids[k]);
      assert false;
    }
  }

  lemma AddsExactly(q: Queue, hash: string -> string, m: Manifest, order: seq<Cell>, ids: seq<JobId>, now: int,
                    jobs: seq<Job>)
    requires |order| <= |ids| && Distinct(ids) && |jobs| == |order|
    requires forall k :: 0 <= k < |ids| ==> ids[k] !in q.jobs
    requires forall k :: 0 <= k < |order| ==>
               Configured(m.configurations, order[k].configurationId)
               && jobs[k] == NewJob(ids[k], m, SessionKey(hash, m.experimentId, order[k]), order[k], now)
    ensures Adds(q, ScheduleSpec(q, m, jobs), hash, m, order, ids, now)
  {
    var base := q.(manifests := q.manifests[m.experimentId := m]);
    assert forall k :: 0 <= k < |jobs| ==> jobs[k].jobId == ids[k] && jobs[k].maxAttempts == 3;
    P.AddAllKeeps(base, jobs);
    P.AddAllAdds(base, jobs);
    var r := AddAll(base, jobs);
    forall id | id in r.jobs && id !in q.jobs ensures exists k :: 0 <= k < |order| && ids[k] == id {
      P.AddAllOnly(base, jobs, id);
      var k :| 0 <= k < |jobs| && jobs[k].jobId == id;
      assert ids[k] == id;
    }
  }

  ghost function JobsAt(q: Queue, e: ExperimentId, x: Cell): set<JobId> {
    set id | id in q.jobs && q.jobs[id].experimentId == e && CellOf(q.jobs[id]) == x
  }

  lemma AddedFrom(q: Queue, r: Queue, hash: string -> string, m: Manifest, order: seq<Cell>, ids: seq<JobId>, now: int,
                  x: Cell, id: JobId) returns (k: nat)
    requires |order| <= |ids| && Adds(q, r, hash, m, order, ids, now) && id in JobsAt(r, m.experimentId, x)
    requires forall id :: id in q.jobs ==> q.jobs[id].experimentId != m.experimentId
    ensures k < |order| && ids[k] == id && order[k] == x
  {
    assert id !in q.jobs;
    k :| 0 <= k < |order| && ids[k] == id;
    assert CellOf(r.jobs[id]) == order[k];
  }

  lemma AddedFor(q: Queue, r: Queue, hash: string -> string, m: Manifest, order: seq<Cell>, ids: seq<JobId>, now: int,
                 k: nat)
    requires |order| <= |ids| && Adds(q, r, hash, m, order, ids, now) && k < |order|
    ensures ids[k] in JobsAt(r, m.experimentId, order[k])
  {
  }

  lemma AddedOnce(q: Queue, r: Queue, hash: string -> string, m: Manifest, order: seq<Cell>, ids: seq<JobId>, now: int,
                  k: nat)
    requires |order| <= |ids| && Adds(q, r, hash, m, order, ids, now) && k < |order|
    requires Distinct(order) && forall id :: id in q.jobs ==> q.jobs[id].experimentId != m.experimentId
    ensures JobsAt(r, m.experimentId, order[k]) == {ids[k]}
  {
    AddedFor(q, r, hash, m, order, ids, now, k);
    forall id | id in JobsAt(r, m.experimentId, order[k]) ensures id == ids[k] {
      var l := AddedFrom(q, r, hash, m, order, ids, now, order[k], id);
      assert l == k;
    }
  }

  lemma AddedNever(q: Queue, r: Queue, hash: string -> string, m: Manifest, order: seq<Cell>, ids: seq<JobId>,
                   now: int, x: Cell)
    requires |order| <= |ids| && Adds(q, r, hash, m, order, ids, now) && x !in order
    requires forall id :: id in q.jobs ==> q.jobs[id].experimentId != m.experimentId
    ensures JobsAt(r, m.experimentId, x) == {}
  {
    if JobsAt(r, m.experimentId, x) != {} {
      var id :| id in JobsAt(r, m.experimentId, x);
      var k := AddedFrom(q, r, hash, m, order, ids, now, x, id);
      assert false;
    }
  }

  lemma AddedAt(q: Queue, r: Queue, hash: string -> string, m: Manifest, order: seq<Cell>, ids: seq<JobId>, now: int,
                x: Cell)
    requires |order| <= |ids| && Adds(q, r, hash, m, order, ids, now)
    requires Distinct(order) && forall id :: id in q.jobs ==> q.jobs[id].experimentId != m.experimentId
    ensures |JobsAt(r, m.experimentId, x)| == if x in order then 1 else 0
  {
    if x in order {
      var k :| 0 <= k < |order| && order[k] == x;
      AddedOnce(q, r, hash, m, order, ids, now, k);
    } else {
      AddedNever(q, r, hash, m, order, ids, now, x);
    }
  }

  lemma ShuffledMember(m: Manifest, scenarios: seq<string>, order: seq<Cell>, x: Cell)
    requires multiset(order) == multiset(Design(m, scenarios))
    ensures x in order <==>
            Configured(m.configurations, x.configurationId) && x.scenarioId in scenarios
                && 1 <= x.repetition <= m.repetitions
  {
    DesignMember(m.configurations, scenarios, m.repetitions, x);
    assert x in order <==> x in multiset(order);
    assert x in Design(m, scenarios) <==> x in multiset(Design(m, scenarios));
  }

  lemma ShuffledDistinct(m: Manifest, scenarios: seq<string>, order: seq<Cell>)
    requires multiset(order) == multiset(Design(m, scenarios))
    requires DistinctConfigurations(m.configurations) && Distinct(scenarios)
    ensures Distinct(order)
  {
    DesignDistinct(m.configurations, scenarios, m.repetitions);
    DistinctIsOrderFree(Design(m, scenarios), order);
  }

  /**
   * Exactly one job for each configuration, scenario and repetition, whatever the shuffle, unless the
   * text of some cell clashes with that of an existing job.
   */
  lemma OneJobPerCell(q: Queue, hash: string -> string, m: Manifest, scenarios: seq<string>, order: seq<Cell>,
                      ids: seq<JobId>, now: int, x: Cell)
    requires KeysProper(q, hash) && CleanManifest(m) && Schedules(q, m, scenarios, order, ids)
    requires forall id :: id in q.jobs ==> q.jobs[id].experimentId != m.experimentId
    requires Distinct(scenarios)
    ensures ClashWithJobs(q, hash, m.experimentId, order) ||
            |JobsAt(After(q, hash, m, order, ids, now), m.experimentId, x)| ==
            if Configured(m.configurations, x.configurationId) && x.scenarioId in scenarios
                && 1 <= x.repetition <= m.repetitions
            then 1 else 0
  {
    if !ClashWithJobs(q, hash, m.experimentId, order) {
      FreshScheduleAddsExactly(q, hash, m, scenarios, order, ids, now);
      ShuffledDistinct(m, scenarios, order);
      ShuffledMember(m, scenarios, order, x);
      AddedAt(q, After(q, hash, m, order, ids, now), hash, m, order, ids, now, x);
    }
  }

  ghost predicate SharedKey(q: Queue, i: JobId, j: JobId) {
    i in q.jobs && j in q.jobs && i != j && q.jobs[i].sessionKey == q.jobs[j].sessionKey
  }

  lemma {:induction false} RepeatedScenario(c: string, ss: seq<string>, r: nat)
    requires !Distinct(ss) && 1 <= r
    ensures !Distinct(ScenarioCells(c, ss, r))
  {
    var before, s := ss[..|ss| - 1], ss[|ss| - 1];
    var a, b := ScenarioCells(c, before, r), Repetitions(c, s, r);
    if Distinct(before) {
      assert s in before;
      ScenarioCellsMember(c, before, r, Cell(c, s, 1));
      RepetitionsMember(c, s, r, Cell(c, s, 1));
      var i :| 0 <= i < |a| && a[i] == Cell(c, s, 1);
      var j :| 0 <= j < |b| && b[j] == Cell(c, s, 1);
      assert (a + b)[i] == (a + b)[|a| + j];
    } else {
      RepeatedScenario(c, before, r);
      var i, j :| 0 <= i < j < |a| && a[i] == a[j];
      assert (a + b)[i] == (a + b)[j];
    }
  }

  lemma RepeatedDesign(m: Manifest, ss: seq<string>)
    requires !Distinct(ss) && 1 <= m.repetitions && m.configurations != []
    ensures !Distinct(Design(m, ss))
  {
    var n := |m.configurations| - 1;
    var a := DesignCells(m.configurations[..n], ss, m.repetitions);
    var b := ScenarioCells(m.configurations[n].configurationId, ss, m.repetitions);
    RepeatedScenario(m.configurations[n].configurationId, ss, m.repetitions);
    var i, j :| 0 <= i < j < |b| && b[i] == b[j];
    assert Design(m, ss) == a + b;
    assert (a + b)[|a| + i] == (a + b)[|a| + j];
  }

  /** Two cells of the design share a key exactly when they are one cell or their texts clash. */
  lemma CellKeysExactly(hash: string -> string, m: Manifest, order: seq<Cell>, k: nat, l: nat)
    requires CleanManifest(m) && forall x :: x in order ==> Configured(m.configurations, x.configurationId)
    requires k < |order| && l < |order|
    ensures SessionKey(hash, m.experimentId, order[k]) == SessionKey(hash, m.experimentId, order[l]) <==>
            order[k] == order[l] || KeyClash(hash, m.experimentId, order[k], m.experimentId, order[l])
  {
    assert order[k] in order && order[l] in order;
    ConfiguredColonFree(m, order[k].configurationId);
    ConfiguredColonFree(m, order[l].configurationId);
    SessionKeyInjective(hash, m.experimentId, order[k], m.experimentId, order[l]);
  }

  /** No two places of the shuffled design share a key. */
  ghost predicate DistinctKeys(hash: string -> string, e: ExperimentId, order: seq<Cell>) {
    forall k, l :: 0 <= k < |order| && 0 <= l < |order| && k != l ==>
      SessionKey(hash, e, order[k]) != SessionKey(hash, e, order[l])
  }

  /** Exactly when no scenario is listed twice and no two texts of the design clash. */
  lemma DesignKeysDistinctExactly(hash: string -> string, m: Manifest, scenarios: seq<string>, order: seq<Cell>)
    requires CleanManifest(m) && 1 <= m.repetitions && m.configurations != []
    requires multiset(order) == multiset(Design(m, scenarios))
    requires forall x :: x in order ==> Configured(m.configurations, x.configurationId)
    ensures DistinctKeys(hash, m.experimentId, order) <==>
            Distinct(scenarios) && !ClashInDesign(hash, m.experimentId, order)
  {
    if !Distinct(scenarios) {
      RepeatedDesign(m, scenarios);
      if Distinct(order) {
        DistinctIsOrderFree(order, Design(m, scenarios));
        assert false;
      }
      var k, l :| 0 <= k < l < |order| && order[k] == order[l];
      assert SessionKey(hash, m.experimentId, order[k]) == SessionKey(hash, m.experimentId, order[l]);
    } else if ClashInDesign(hash, m.experimentId, order) {
      ClashSharesKey(hash, m.experimentId, order);
    } else {
      DistinctDesignKeys(hash, m, scenarios, order);
    }
  }

  lemma ClashSharesKey(hash: string -> string, e: ExperimentId, order: seq<Cell>)
    requires ClashInDesign(hash, e, order)
    ensures !DistinctKeys(hash, e, order)
  {
    var x, y :| x in order && y in order && KeyClash(hash, e, x, e, y);
    var k :| 0 <= k < |order| && order[k] == x;
    var l :| 0 <= l < |order| && order[l] == y;
    assert k != l && SessionKey(hash, e, order[k]) == SessionKey(hash, e, order[l]);
  }

  lemma DistinctDesignKeys(hash: string -> string, m: Manifest, scenarios: seq<string>, order: seq<Cell>)
    requires CleanManifest(m) && Distinct(scenarios) && !ClashInDesign(hash, m.experimentId, order)
    requires multiset(order) == multiset(Design(m, scenarios))
    requires forall x :: x in order ==> Configured(m.configurations, x.configurationId)
    ensures DistinctKeys(hash, m.experimentId, order)
  {
    ShuffledDistinct(m, scenarios, order);
    forall k, l | 0 <= k < |order| && 0 <= l < |order| && k != l
      ensures SessionKey(hash, m.experimentId, order[k]) != SessionKey(hash, m.experimentId, order[l])
    {
      CellKeysExactly(hash, m, order, k, l);
      assert order[k] in order && order[l] in order;
    }
  }

  /**
   * The new jobs have different keys if and only if no scenario was listed twice and no two texts of
   * the design clash: keys already handed out in the same call are not remembered.
   */
  lemma NewKeysDistinctExactly(q: Queue, hash: string -> string, m: Manifest, scenarios: seq<string>, order: seq<Cell>,
                               ids: seq<JobId>, now: int)
    requires KeysProper(q, hash) && CleanManifest(m) && Schedules(q, m, scenarios, order, ids)
    requires forall id :: id in q.jobs ==> q.jobs[id].experimentId != m.experimentId
    requires 1 <= m.repetitions && m.configurations != []
    ensures ClashWithJobs(q, hash, m.experimentId, order) ||
            (Distinct(scenarios) && !ClashInDesign(hash, m.experimentId, order) <==>
             forall k, l :: 0 <= k < |order| && 0 <= l < |order| ==>
               !SharedKey(After(q, hash, m, order, ids, now), ids[k], ids[l]))
  {
    if !ClashWithJobs(q, hash, m.experimentId, order) {
      FreshScheduleAddsExactly(q, hash, m, scenarios, order, ids, now);
      DesignKeysDistinctExactly(hash, m, scenarios, order);
      var r := After(q, hash, m, order, ids, now);
      forall k, l | 0 <= k < |order| && 0 <= l < |order|
        ensures SharedKey(r, ids[k], ids[l]) <==>
                k != l && SessionKey(hash, m.experimentId, order[k]) == SessionKey(hash, m.experimentId, order[l])
      {
      }
    }
  }

  // ----- rescheduling -----

  lemma {:induction false} KeysStay(q: Queue, run: seq<P.Action>, key: string)
    requires WellFormed(q) && P.Legal(q, run) && key in KeysOf(q)
    ensures key in KeysOf(P.Run(q, run))
  {
    if run != [] {
      KeysStay(q, P.Front(run), key);
      var before := P.Run(q, P.Front(run));
      P.StepKeepsIdentity(before, P.Last(run));
      var id :| id in before.jobs && before.jobs[id].sessionKey == key;
      assert P.Run(q, run).jobs[id].sessionKey == key;
    }
  }

  /** After a schedule call every key of its design is known: it was before, or its job was added. */
  lemma ScheduledKeysKnown(q: Queue, hash: string -> string, m: Manifest, scenarios: seq<string>, order: seq<Cell>,
                           ids: seq<JobId>, now: int)
    requires WellFormed(q) && Schedules(q, m, scenarios, order, ids)
    ensures WellFormed(After(q, hash, m, order, ids, now))
    ensures forall x :: x in order ==> SessionKey(hash, m.experimentId, x) in KeysOf(After(q, hash, m, order, ids, now))
    ensures m.experimentId in After(q, hash, m, order, ids, now).manifests
    ensures After(q, hash, m, order, ids, now).manifests[m.experimentId] == m
  {
    var base := q.(manifests := q.manifests[m.experimentId := m]);
    var jobs := NewJobs(KeysOf(q), hash, m, order, ids, now);
    NewJobsFresh(base, KeysOf(q), hash, m, order, ids, now);
    P.AddAllWellFormed(base, jobs);
    P.AddAllKeeps(base, jobs);
    P.AddAllAdds(base, jobs);
    var r := AddAll(base, jobs);
    forall x | x in order ensures SessionKey(hash, m.experimentId, x) in KeysOf(r) {
      var key := SessionKey(hash, m.experimentId, x);
      if key in KeysOf(q) {
        var id :| id in q.jobs && q.jobs[id].sessionKey == key;
        assert r.jobs[id].sessionKey == key;
      } else {
        var i := JobOfCell(KeysOf(q), hash, m, order, ids, now, x);
        assert r.jobs[jobs[i].jobId].sessionKey == key;
      }
    }
  }

  lemma {:induction false} JobOfCell(existing: set<string>, hash: string -> string, m: Manifest, cells: seq<Cell>,
                                     ids: seq<JobId>, now: int, x: Cell)
    returns (i: nat)
    requires |cells| <= |ids| && forall y :: y in cells ==> Configured(m.configurations, y.configurationId)
    requires x in cells && SessionKey(hash, m.experimentId, x) !in existing
    ensures i < |NewJobs(existing, hash, m, cells, ids, now)|
    ensures NewJobs(existing, hash, m, cells, ids, now)[i].sessionKey == SessionKey(hash, m.experimentId, x)
  {
    var n := |cells| - 1;
    assert cells == cells[..n] + [cells[n]];
    if x == cells[n] {
      i := |NewJobs(existing, hash, m, cells[..n], ids, now)|;
    } else {
      i := JobOfCell(existing, hash, m, cells[..n], ids, now, x);
    }
  }

  /**
   * Scheduling the same manifest and scenarios a second time, under any other shuffle and after
   * anything at all has happened in between, leaves the queue exactly as it was.
   */
  lemma RescheduleChangesNothing(q: Queue, hash: string -> string, m: Manifest, scenarios: seq<string>,
                                 first: seq<Cell>, ids: seq<JobId>, now: int, run: seq<P.Action>,
                                 second: seq<Cell>, others: seq<JobId>, later: int)
    requires WellFormed(q) && Schedules(q, m, scenarios, first, ids)
    requires WellFormed(After(q, hash, m, first, ids, now)) ==> P.Legal(After(q, hash, m, first, ids, now), run)
    requires multiset(second) == multiset(Design(m, scenarios)) && |second| <= |others|
    requires forall x :: x in second ==> Configured(m.configurations, x.configurationId)
    ensures WellFormed(After(q, hash, m, first, ids, now))
    ensures var r := P.Run(After(q, hash, m, first, ids, now), run);
            After(r, hash, m, second, others, later) == r
  {
    var s := After(q, hash, m, first, ids, now);
    ScheduledKeysKnown(q, hash, m, scenarios, first, ids, now);
    P.ManifestsPersist(s, run, m.experimentId);
    var r := P.Run(s, run);
    forall x | x in second ensures SessionKey(hash, m.experimentId, x) in KeysOf(r) {
      assert x in multiset(second) && x in multiset(first);
      KeysStay(s, run, SessionKey(hash, m.experimentId, x));
    }
    NewJobsNone(KeysOf(r), hash, m, second, others, later);
    assert r.manifests[m.experimentId := m] == r.manifests;
  }

  // ----- the start of a worker system -----

  lemma ScheduledFields(hash: string -> string, m: Manifest, order: seq<Cell>, ids: seq<JobId>, now: int)
    requires |order| <= |ids| && Distinct(ids) && forall x :: x in order ==>
             Configured(m.configurations, x.configurationId)
    ensures var q := After(EMPTY, hash, m, order, ids, now);
            WellFormed(q) && q.manifests == map[m.experimentId := m] && q.reservations == map[] && q.costs == map[]
  {
    var base := EMPTY.(manifests := EMPTY.manifests[m.experimentId := m]);
    var jobs := NewJobs(KeysOf(EMPTY), hash, m, order, ids, now);
    assert KeysOf(EMPTY) == {};
    NewJobsAll(KeysOf(EMPTY), hash, m, order, ids, now);
    P.AddAllWellFormed(base, jobs);
    P.AddAllKeeps(base, jobs);
  }

  /** One job per place of the design, under its own key and at its declared estimate. */
  lemma AddedEstimated(q: Queue, hash: string -> string, m: Manifest, order: seq<Cell>, ids: seq<JobId>, now: int)
    requires |order| <= |ids| && Adds(EMPTY, q, hash, m, order, ids, now)
    requires m.experimentId in q.manifests && q.manifests[m.experimentId] == m
    ensures W.Estimated(q)
  {
    forall id | id in q.jobs ensures ExperimentWorker.HandlerCost(q, q.jobs[id]) == Some(q.jobs[id].estimate) {
      var k :| 0 <= k < |order| && ids[k] == id;
    }
  }

  lemma ScheduledJobs(hash: string -> string, m: Manifest, scenarios: seq<string>, order: seq<Cell>, ids: seq<JobId>,
                      now: int)
    requires CleanManifest(m) && Schedules(EMPTY, m, scenarios, order, ids)
    ensures Adds(EMPTY, After(EMPTY, hash, m, order, ids, now), hash, m, order, ids, now)
    ensures W.KeysUnique(After(EMPTY, hash, m, order, ids, now)) <==> DistinctKeys(hash, m.experimentId, order)
    ensures W.Estimated(After(EMPTY, hash, m, order, ids, now))
  {
    ScheduledFields(hash, m, order, ids, now);
    FreshScheduleAddsExactly(EMPTY, hash, m, scenarios, order, ids, now);
    var q := After(EMPTY, hash, m, order, ids, now);
    KeysUniqueExactly(q, hash, m, order, ids, now);
    AddedEstimated(q, hash, m, order, ids, now);
  }

  lemma KeysUniqueExactly(q: Queue, hash: string -> string, m: Manifest, order: seq<Cell>, ids: seq<JobId>, now: int)
    requires |order| <= |ids| && Distinct(ids) && Adds(EMPTY, q, hash, m, order, ids, now)
    ensures W.KeysUnique(q) <==> DistinctKeys(hash, m.experimentId, order)
  {
    if W.KeysUnique(q) {
      forall k, l | 0 <= k < |order| && 0 <= l < |order| && k != l
        ensures SessionKey(hash, m.experimentId, order[k]) != SessionKey(hash, m.experimentId, order[l])
      {
        assert ids[k] != ids[l] && ids[k] in q.jobs && ids[l] in q.jobs;
      }
    }
    if DistinctKeys(hash, m.experimentId, order) {
      forall i, j | i in q.jobs && j in q.jobs && i != j ensures q.jobs[i].sessionKey != q.jobs[j].sessionKey {
        var k :| 0 <= k < |order| && ids[k] == i;
        var l :| 0 <= l < |order| && ids[l] == j;
      }
    }
  }

  /**
   * Scheduling one experiment on an empty queue starts the worker system solvent, and in its
   * invariant exactly when no scenario is listed twice and no two texts of the design clash.
   */
  lemma ScheduledSystemIsSound(hash: string -> string, m: Manifest, scenarios: seq<string>, order: seq<Cell>,
                               ids: seq<JobId>, now: int)
    requires CleanManifest(m) && Schedules(EMPTY, m, scenarios, order, ids)
    requires 1 <= m.repetitions && m.configurations != []
    ensures W.AllSolvent(After(EMPTY, hash, m, order, ids, now))
    ensures W.Inv(W.System(After(EMPTY, hash, m, order, ids, now), map[])) <==>
            Distinct(scenarios) && !ClashInDesign(hash, m.experimentId, order)
  {
    ScheduledFields(hash, m, order, ids, now);
    ScheduledJobs(hash, m, scenarios, order, ids, now);
    DesignKeysDistinctExactly(hash, m, scenarios, order);
    IdleSystem(After(EMPTY, hash, m, order, ids, now));
    IdleSolvent(After(EMPTY, hash, m, order, ids, now));
  }

  /**
   * A schedule call is a move of the worker system when its design's keys differ: its new jobs have
   * keys of their own and carry the manifest's estimates.
   */
  lemma ScheduleIsMove(q: Queue, hash: string -> string, m: Manifest, scenarios: seq<string>, order: seq<Cell>,
                       ids: seq<JobId>, now: int)
    requires WellFormed(q) && Schedules(q, m, scenarios, order, ids) && DistinctKeys(hash, m.experimentId, order)
    requires m.experimentId in q.manifests ==> q.manifests[m.experimentId] == m
    ensures W.NewJobsOf(q, m, NewJobs(KeysOf(q), hash, m, order, ids, now))
  {
    var added := NewJobs(KeysOf(q), hash, m, order, ids, now);
    NewJobsDistinct(KeysOf(q), hash, m, order, ids, now);
    forall i | 0 <= i < |added|
      ensures P.FreshJob(q, m, added[i]) && added[i].sessionKey !in KeysOf(q)
      ensures EstimatedCost(m, added[i].configurationId) == Some(added[i].estimate)
    {
      var k := NewJobsFrom(KeysOf(q), hash, m, order, ids, now, i);
    }
    forall i, j | 0 <= i < j < |added| ensures added[i].sessionKey != added[j].sessionKey {
      var k := NewJobsFrom(KeysOf(q), hash, m, order, ids, now, i);
      var l := NewJobsFrom(KeysOf(q), hash, m, order, ids, now, j);
      assert k != l;
    }
    forall i, id | 0 <= i < |added| && id in q.jobs ensures added[i].sessionKey != q.jobs[id].sessionKey {
      assert q.jobs[id].sessionKey in KeysOf(q);
    }
  }

  /** A system without processes and reservations is in the invariant when its jobs are. */
  lemma IdleSolvent(q: Queue)
    requires q.reservations == map[] && q.costs == map[]
    ensures W.AllSolvent(q)
  {
    forall e | e in q.manifests ensures P.Solvent(q, e) {
      assert Held(q, e) == map[];
    }
  }

  lemma IdleSystem(q: Queue)
    requires q.reservations == map[] && q.costs == map[]
    ensures W.Inv(W.System(q, map[])) <==> WellFormed(q) && W.KeysUnique(q) && W.Estimated(q)
  {
  }
}
