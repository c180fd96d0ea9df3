/**
 * The in-memory experiment queue. `Queue` is the value of its fields, the `...Spec`
 * functions say what each operation does to that value, and the class is proved against them.
 */
module InMemoryQueue {
  import opened Prelude
  import opened ExperimentModel
  import opened SessionKeys

  datatype Reservation = Reservation(experiment: ExperimentId, amount: int)

  /** A Python dict keeps insertion order: `order` lists the keys of `jobs` as a scan meets them. */
  datatype Queue = Queue(
    manifests: map<ExperimentId, Manifest>,
    order: seq<JobId>,
    jobs: map<JobId, Job>,
    results: map<string, Document>,
    stopped: set<ExperimentId>,
    costs: map<ExperimentId, int>,
    reservations: map<string, Reservation>)

  datatype Stepped = Stepped(state: Queue, reply: Reply)

  ghost predicate WellFormed(q: Queue) {
    && (forall i, j :: 0 <= i < j < |q.order| ==> q.order[i] != q.order[j])
    && (forall i :: 0 <= i < |q.order| ==> q.order[i] in q.jobs)
    && (forall id :: id in q.jobs ==> q.jobs[id].jobId == id && 1 <= q.jobs[id].maxAttempts)
  }

  const EMPTY: Queue := Queue(map[], [], map[], map[], {}, map[], map[])

  /** Every job is met by a scan. */
  ghost predicate AllListed(q: Queue) {
    forall id :: id in q.jobs ==> id in q.order
  }

  // ----- claim -----

  predicate Ready(job: Job, stopped: set<ExperimentId>, now: int) {
    job.experimentId !in stopped && (job.status.Pending? || job.status.RetryWait?) && job.notBefore <= now
  }

  predicate Expired(job: Job, stopped: set<ExperimentId>, now: int) {
    && job.experimentId !in stopped
    && (job.status.Leased? || job.status.Running?)
    && job.leaseUntil.Some? && job.leaseUntil.value < now
  }

  function Recover(job: Job): Job {
    job.(status := Pending, owner := None)
  }

  /** The place of the first ready job in scan order, or the number of jobs. */
  ghost function FirstReady(q: Queue, now: int): (k: nat)
    requires WellFormed(q)
    ensures k <= |q.order|
    ensures forall i :: 0 <= i < k ==> !Ready(q.jobs[q.order[i]], q.stopped, now)
    ensures k < |q.order| ==> Ready(q.jobs[q.order[k]], q.stopped, now)
  {
    FirstReadyFrom(q, 0, now)
  }

  ghost function FirstReadyFrom(q: Queue, i: nat, now: int): (k: nat)
    requires WellFormed(q) && i <= |q.order|
    ensures i <= k <= |q.order|
    ensures forall j :: i <= j < k ==> !Ready(q.jobs[q.order[j]], q.stopped, now)
    ensures k < |q.order| ==> Ready(q.jobs[q.order[k]], q.stopped, now)
    decreases |q.order| - i
  {
    if i == |q.order| || Ready(q.jobs[q.order[i]], q.stopped, now) then i
    else FirstReadyFrom(q, i + 1, now)
  }

  /** The jobs after a scan of the first n: expired leases among them are recovered. */
  ghost function Scanned(q: Queue, n: nat, now: int): (jobs: map<JobId, Job>)
    requires WellFormed(q) && n <= |q.order|
    ensures jobs.Keys == q.jobs.Keys
  {
    if n == 0 then q.jobs else
      var id, before := q.order[n - 1], Scanned(q, n - 1, now);
      if Expired(q.jobs[id], q.stopped, now) then before[id := Recover(q.jobs[id])] else before
  }

  lemma ScannedStep(q: Queue, n: nat, now: int, scanned: map<JobId, Job>)
    requires WellFormed(q) && n < |q.order| && scanned == Scanned(q, n, now)
    ensures q.order[n] in scanned && scanned[q.order[n]] == q.jobs[q.order[n]]
    ensures Scanned(q, n + 1, now) ==
            if Expired(scanned[q.order[n]], q.stopped, now)
            then scanned[q.order[n] := Recover(scanned[q.order[n]])]
            else scanned
  {
    ScannedAt(q, n, n, now);
  }

  /** A scan touches each job at its own place only. */
  lemma {:induction false} ScannedAt(q: Queue, n: nat, i: nat, now: int)
    requires WellFormed(q) && n <= |q.order| && i < |q.order|
    ensures Scanned(q, n, now)[q.order[i]] ==
            if i < n && Expired(q.jobs[q.order[i]], q.stopped, now) then Recover(q.jobs[q.order[i]])
            else q.jobs[q.order[i]]
  {
    if n != 0 {
      ScannedAt(q, n - 1, i, now);
    }
  }

  lemma {:induction false} ScannedIdentity(q: Queue, n: nat, now: int)
    requires WellFormed(q) && n <= |q.order|
    ensures forall id :: id in q.jobs ==> SameIdentity(Scanned(q, n, now)[id], q.jobs[id])
  {
    if n != 0 {
      ScannedIdentity(q, n - 1, now);
    }
  }

  ghost function ClaimSpec(q: Queue, worker: string, seconds: int, now: int): Stepped
    requires WellFormed(q)
  {
    var k := FirstReady(q, now);
    var scanned := Scanned(q, k, now);
    if k == |q.order| then Stepped(q.(jobs := scanned), Nothing)
    else
      var claimed := Lease(q.jobs[q.order[k]], worker, seconds, now);
      Stepped(q.(jobs := scanned[q.order[k] := claimed]), Granted(claimed))
  }

  /** What a scan that got to place i does there. */
  lemma ScanMeets(q: Queue, i: nat, worker: string, seconds: int, now: int)
    requires WellFormed(q) && i < |q.order| && i <= FirstReady(q, now)
    ensures !Ready(q.jobs[q.order[i]], q.stopped, now) ==> i + 1 <= FirstReady(q, now)
    ensures Ready(q.jobs[q.order[i]], q.stopped, now) ==>
              var claimed := Lease(q.jobs[q.order[i]], worker, seconds, now);
              ClaimSpec(q, worker, seconds, now)
              == Stepped(q.(jobs := Scanned(q, i, now)[q.order[i] := claimed]), Granted(claimed))
  {
  }

  lemma ClaimKeepsIdentity(q: Queue, worker: string, seconds: int, now: int)
    requires WellFormed(q)
    ensures var r := ClaimSpec(q, worker, seconds, now).state;
            r.order == q.order && r.jobs.Keys == q.jobs.Keys
            && forall id :: id in q.jobs ==> SameIdentity(r.jobs[id], q.jobs[id])
  {
    var k := FirstReady(q, now);
    ScannedIdentity(q, k, now);
    if k < |q.order| {
      assert SameIdentity(Lease(q.jobs[q.order[k]], worker, seconds, now), q.jobs[q.order[k]]);
    }
  }

  /** Progress of single jobs does not disturb the queue's shape. */
  lemma ProgressKeepsWellFormed(q: Queue, r: Queue)
    requires WellFormed(q) && r.order == q.order && r.jobs.Keys == q.jobs.Keys
    requires forall id :: id in q.jobs ==> SameIdentity(r.jobs[id], q.jobs[id])
    ensures WellFormed(r)
  {
  }

  lemma ClaimWellFormed(q: Queue, worker: string, seconds: int, now: int)
    requires WellFormed(q)
    ensures WellFormed(ClaimSpec(q, worker, seconds, now).state)
  {
    ClaimKeepsIdentity(q, worker, seconds, now);
    ProgressKeepsWellFormed(q, ClaimSpec(q, worker, seconds, now).state);
  }

  // ----- the other operations -----

  ghost function HeartbeatSpec(q: Queue, id: JobId, worker: string, seconds: int, now: int): Stepped {
    if id !in q.jobs then Stepped(q, Refused(UnknownId))
    else if q.jobs[id].owner != Some(worker) then Stepped(q, Refused(NotLeaseOwner))
    else Stepped(q.(jobs := q.jobs[id := q.jobs[id].(leaseUntil := Some(now + seconds * SECOND))]), Done)
  }

  ghost function Held(q: Queue, e: ExperimentId): map<string, int> {
    map key | key in q.reservations && q.reservations[key].experiment == e :: q.reservations[key].amount
  }

  ghost function Among(held: map<string, int>, keys: set<string>): map<string, int> {
    map k | k in held.Keys * keys :: held[k]
  }

  lemma AmongStep(held: map<string, int>, keys: set<string>, key: string)
    requires key in keys
    ensures SumValues(Among(held, keys)) == SumValues(Among(held, keys - {key})) + if key in held then held[key] else 0
  {
    if key in held {
      SumWithout(Among(held, keys), key);
      assert Among(held, keys) - {key} == Among(held, keys - {key});
    } else {
      assert Among(held, keys) == Among(held, keys - {key});
    }
  }

  lemma AmongNone(held: map<string, int>)
    ensures SumValues(Among(held, {})) == 0
  {
  }

  ghost function ReserveSpec(q: Queue, job: Job, amount: int): Stepped {
    var e := job.experimentId;
    if job.sessionKey in q.reservations then Stepped(q, Done)
    else if e !in q.manifests then Stepped(q, Refused(UnknownId))
    else if GetCost(q.costs, e) + SumValues(Held(q, e)) + amount > q.manifests[e].ceiling then
      Stepped(q.(stopped := q.stopped + {e}), Refused(CeilingExceeded))
    else
      Stepped(q.(reservations := q.reservations[job.sessionKey := Reservation(e, amount)]), Done)
  }

  /** The reservation goes first, so a refused completion has already released it. */
  ghost function CompleteSpec(q: Queue, job: Job, result: Document, cost: int): Stepped {
    var e := job.experimentId;
    if e !in q.manifests then Stepped(q, Refused(UnknownId)) else
    var spent := GetCost(q.costs, e);
    var r := q.(reservations := q.reservations - {job.sessionKey});
    if spent + cost > q.manifests[e].ceiling then
      Stepped(r.(stopped := r.stopped + {e}), Refused(CeilingExceeded))
    else
      var paid := r.(
        costs := r.costs[e := spent + cost],
        results := if job.sessionKey in r.results then r.results else r.results[job.sessionKey := result]);
      if job.jobId !in q.jobs then Stepped(paid, Refused(UnknownId))
      else Stepped(paid.(jobs := q.jobs[job.jobId := q.jobs[job.jobId].(status := Succeeded)]), Done)
  }

  function Retire(current: Job, retryable: bool, now: int): Job {
    current.(
      status := if retryable && current.attempts < current.maxAttempts then RetryWait else Failed,
      notBefore := now + Pow2(current.attempts) * SECOND,
      owner := None,
      leaseUntil := None)
  }

  ghost function FailSpec(q: Queue, job: Job, retryable: bool, now: int): Stepped {
    var r := q.(reservations := q.reservations - {job.sessionKey});
    if job.jobId !in q.jobs then Stepped(r, Refused(UnknownId))
    else Stepped(r.(jobs := q.jobs[job.jobId := Retire(q.jobs[job.jobId], retryable, now)]), Done)
  }

  /** What a failure report makes of a known job; its reservation is gone, and all else is as it was. */
  lemma FailMeans(q: Queue, job: Job, retryable: bool, now: int)
    requires job.jobId in q.jobs
    ensures var before, done := q.jobs[job.jobId], FailSpec(q, job, retryable, now);
            && done.reply == Done && job.jobId in done.state.jobs
            && Reported(before, done.state.jobs[job.jobId], retryable, before.attempts, before.maxAttempts, now)
            && job.sessionKey !in done.state.reservations
            && (forall key :: key in q.reservations && key != job.sessionKey ==>
                  key in done.state.reservations && done.state.reservations[key] == q.reservations[key])
            && (forall id :: id in q.jobs && id != job.jobId ==>
                  id in done.state.jobs && done.state.jobs[id] == q.jobs[id])
            && done.state.(jobs := q.jobs, reservations := q.reservations) == q
  {
  }

  /** Everything but one job, one reservation, the money and the stops is as it was. */
  ghost predicate Elsewhere(q: Queue, r: Queue, id: JobId, key: string) {
    && r.manifests == q.manifests && r.order == q.order && r.jobs.Keys == q.jobs.Keys
    && (forall other :: other in q.jobs && other != id ==> r.jobs[other] == q.jobs[other])
    && r.reservations - {key} == q.reservations - {key}
  }

  /** What an experiment has spent: nothing until something was charged. */
  ghost predicate Spent(q: Queue, e: ExperimentId, amount: int) {
    (e in q.costs ==> amount == q.costs[e]) && (e !in q.costs ==> amount == 0)
  }

  /**
   * A completion is accepted exactly when its cost still fits beside what was spent. Then it is charged,
   * the first result of the session is kept and the job has succeeded; otherwise the experiment stops and
   * nothing is charged or stored. The reservation is gone either way.
   */
  lemma CompleteMeans(q: Queue, job: Job, result: Document, cost: int, spent: int)
    requires job.experimentId in q.manifests && job.jobId in q.jobs && Spent(q, job.experimentId, spent)
    ensures var e, key, done := job.experimentId, job.sessionKey, CompleteSpec(q, job, result, cost);
            var fits, r, after := spent + cost <= q.manifests[e].ceiling, done.state, done.state.jobs[job.jobId];
            && done.reply == (if fits then Done else Refused(CeilingExceeded))
            && Elsewhere(q, r, job.jobId, key) && key !in r.reservations
            && (!fits ==> r.stopped == q.stopped + {e} && r.costs == q.costs && r.results == q.results
                          && after == q.jobs[job.jobId])
            && (fits ==> Spent(r, e, spent + cost) && r.costs - {e} == q.costs - {e} && r.stopped == q.stopped
                         && key in r.results && r.results - {key} == q.results - {key}
                         && r.results[key] == (if key in q.results then q.results[key] else result)
                         && after == q.jobs[job.jobId].(status := Succeeded))
  {
  }

  /**
   * Unless the session holds a reservation already, one is made exactly when it fits beside what was spent
   * and what is held; otherwise the experiment stops. Nothing else moves.
   */
  lemma ReserveMeans(q: Queue, job: Job, amount: int, spent: int)
    requires job.experimentId in q.manifests && Spent(q, job.experimentId, spent)
    ensures var e, key, done := job.experimentId, job.sessionKey, ReserveSpec(q, job, amount);
            var fits := spent + SumValues(Held(q, e)) + amount <= q.manifests[e].ceiling;
            && Elsewhere(q, done.state, job.jobId, key) && done.state.jobs == q.jobs
            && done.state.costs == q.costs && done.state.results == q.results
            && (key in q.reservations ==> done == Stepped(q, Done))
            && (key !in q.reservations && fits ==>
                  && done.reply == Done && done.state.stopped == q.stopped
                  && key in done.state.reservations && done.state.reservations[key] == Reservation(e, amount))
            && (key !in q.reservations && !fits ==>
                  && done.reply == Refused(CeilingExceeded) && done.state.stopped == q.stopped + {e}
                  && done.state.reservations == q.reservations)
  {
  }

  /** Calls about an unknown experiment or job raise; all they may have done is release the reservation or charge. */
  lemma UnknownMeans(q: Queue, job: Job, amount: int, retryable: bool, now: int, result: Document)
    ensures job.experimentId !in q.manifests ==>
              && CompleteSpec(q, job, result, amount) == Stepped(q, Refused(UnknownId))
              && (job.sessionKey !in q.reservations ==> ReserveSpec(q, job, amount) == Stepped(q, Refused(UnknownId)))
    ensures job.jobId !in q.jobs ==>
              && FailSpec(q, job, retryable, now)
                 == Stepped(q.(reservations := q.reservations - {job.sessionKey}), Refused(UnknownId))
              && (forall worker, seconds ::
                    HeartbeatSpec(q, job.jobId, worker, seconds, now) == Stepped(q, Refused(UnknownId)))
              && CompleteSpec(q, job, result, amount).reply.Refused?
              && CompleteSpec(q, job, result, amount).state.jobs == q.jobs
  {
  }

  /** A heartbeat of the owner moves the end of the lease and nothing else; any other one is refused. */
  lemma HeartbeatMeans(q: Queue, id: JobId, worker: string, seconds: int, now: int)
    requires id in q.jobs
    ensures var job, done := q.jobs[id], HeartbeatSpec(q, id, worker, seconds, now);
            && (done.reply == Done <==> job.owner == Some(worker))
            && (done.reply != Done ==> done == Stepped(q, Refused(NotLeaseOwner)))
            && (done.reply == Done ==>
                  && Elsewhere(q, done.state, id, "") && done.state.(jobs := q.jobs) == q
                  && done.state.jobs[id] == job.(leaseUntil := Some(now + seconds * 1_000_000)))
  {
  }

  // ----- schedule -----

  function KeysOf(q: Queue): set<string> {
    set id | id in q.jobs :: q.jobs[id].sessionKey
  }

  function NewJob(id: JobId, m: Manifest, key: string, cell: Cell, now: int): (job: Job)
    requires Configured(m.configurations, cell.configurationId)
  {
    Job(id, m.experimentId, key, cell.configurationId, cell.scenarioId, cell.repetition,
        Pending, 0, 3, None, None, now, EstimatedCost(m, cell.configurationId).value)
  }

  /** One new job for each cell whose key no earlier job has; ids[k] is the id drawn for cell k. */
  function NewJobs(existing: set<string>, hash: string -> string, m: Manifest, cells: seq<Cell>, ids: seq<JobId>,
                   now: int): seq<Job>
    requires |cells| <= |ids|
    requires forall x :: x in cells ==> Configured(m.configurations, x.configurationId)
  {
    if cells == [] then [] else
      var k := |cells| - 1;
      var key := SessionKey(hash, m.experimentId, cells[k]);
      var before := NewJobs(existing, hash, m, cells[..k], ids, now);
      if key in existing then before else before + [NewJob(ids[k], m, key, cells[k], now)]
  }

  function AddAll(q: Queue, added: seq<Job>): Queue {
    if added == [] then q else
      var before, job := AddAll(q, added[..|added| - 1]), added[|added| - 1];
      before.(order := before.order + [job.jobId], jobs := before.jobs[job.jobId := job])
  }

  function ScheduleSpec(q: Queue, m: Manifest, added: seq<Job>): Queue {
    AddAll(q.(manifests := q.manifests[m.experimentId := m]), added)
  }

  lemma AddAllSnoc(q: Queue, done: seq<Job>, job: Job)
    ensures AddAll(q, done + [job]) ==
            AddAll(q, done).(order := AddAll(q, done).order + [job.jobId],
                             jobs := AddAll(q, done).jobs[job.jobId := job])
  {
    assert (done + [job])[..|done|] == done;
  }

  lemma NewJobsSnoc(existing: set<string>, hash: string -> string, m: Manifest, cells: seq<Cell>, ids: seq<JobId>,
                    now: int, k: nat)
    requires k < |cells| <= |ids|
    requires forall x :: x in cells ==> Configured(m.configurations, x.configurationId)
    ensures Configured(m.configurations, cells[k].configurationId)
    ensures NewJobs(existing, hash, m, cells[..k + 1], ids, now) ==
            var before, key :=
                NewJobs(existing, hash, m, cells[..k], ids, now), SessionKey(hash, m.experimentId, cells[k]);
            if key in existing then before else before + [NewJob(ids[k], m, key, cells[k], now)]
  {
    assert cells[..k + 1][..k] == cells[..k];
    assert cells[k] in cells;
  }

  lemma NextJob(q: Queue, existing: set<string>, hash: string -> string, m: Manifest, cells: seq<Cell>,
                ids: seq<JobId>, now: int, k: nat)
    requires k < |cells| <= |ids|
    requires forall x :: x in cells ==> Configured(m.configurations, x.configurationId)
    ensures Configured(m.configurations, cells[k].configurationId)
    ensures AddAll(q, NewJobs(existing, hash, m, cells[..k + 1], ids, now)) ==
            var before, key :=
                AddAll(q, NewJobs(existing, hash, m, cells[..k], ids, now)), SessionKey(hash, m.experimentId, cells[k]);
            if key in existing then before
            else before.(order := before.order + [ids[k]],
                         jobs := before.jobs[ids[k] := NewJob(ids[k], m, key, cells[k], now)])
  {
    NewJobsSnoc(existing, hash, m, cells, ids, now, k);
    var key := SessionKey(hash, m.experimentId, cells[k]);
    AddAllSnoc(q, NewJobs(existing, hash, m, cells[..k], ids, now), NewJob(ids[k], m, key, cells[k], now));
  }

  /** A seeded shuffle: callers may rely on nothing but that it permutes. */
  method Shuffle(cells: seq<Cell>) returns (shuffled: seq<Cell>)
    ensures multiset(shuffled) == multiset(cells)
  {
    shuffled := cells;
  }

  lemma NextScenario(outer: seq<Cell>, c: string, scenarios: seq<string>, j: nat, r: nat)
    requires j < |scenarios|
    ensures outer + ScenarioCells(c, scenarios[..j + 1], r)
            == outer + ScenarioCells(c, scenarios[..j], r) + Repetitions(c, scenarios[j], r)
  {
    assert scenarios[..j + 1][..j] == scenarios[..j];
  }

  lemma NextConfiguration(cs: seq<Configuration>, i: nat, scenarios: seq<string>, r: nat)
    requires i < |cs|
    ensures DesignCells(cs[..i + 1], scenarios, r)
            == DesignCells(cs[..i], scenarios, r) + ScenarioCells(cs[i].configurationId, scenarios, r)
  {
    assert cs[..i + 1][..i] == cs[..i];
  }

  method BuildScenarioCells(before: seq<Cell>, c: string, scenarios: seq<string>, repetitions: nat)
    returns (cells: seq<Cell>)
    ensures cells == before + ScenarioCells(c, scenarios, repetitions)
  {
    cells := before;
    for j := 0 to |scenarios|
      invariant cells == before + ScenarioCells(c, scenarios[..j], repetitions)
    {
      ghost var middle := cells;
      for r := 1 to repetitions + 1
        invariant cells == middle + Repetitions(c, scenarios[j], r - 1)
      {
        cells := cells + [Cell(c, scenarios[j], r)];
      }
      NextScenario(before, c, scenarios, j, repetitions);
    }
    assert scenarios[..|scenarios|] == scenarios;
  }

  method BuildCells(m: Manifest, scenarios: seq<string>) returns (cells: seq<Cell>)
    ensures cells == DesignCells(m.configurations, scenarios, m.repetitions)
  {
    cells := [];
    for i := 0 to |m.configurations|
      invariant cells == DesignCells(m.configurations[..i], scenarios, m.repetitions)
    {
      NextConfiguration(m.configurations, i, scenarios, m.repetitions);
      cells := BuildScenarioCells(cells, m.configurations[i].configurationId, scenarios, m.repetitions);
    }
    assert m.configurations[..|m.configurations|] == m.configurations;
  }

  lemma ShuffledConfigured(m: Manifest, scenarios: seq<string>, order: seq<Cell>)
    requires multiset(order) == multiset(DesignCells(m.configurations, scenarios, m.repetitions))
    ensures |order| == |DesignCells(m.configurations, scenarios, m.repetitions)|
    ensures forall x :: x in order ==> Configured(m.configurations, x.configurationId)
  {
    var built := DesignCells(m.configurations, scenarios, m.repetitions);
    assert |order| == |multiset(order)| == |multiset(built)| == |built|;
    forall x | x in order ensures Configured(m.configurations, x.configurationId) {
      assert x in multiset(order) && x in multiset(built);
      DesignMember(m.configurations, scenarios, m.repetitions, x);
    }
  }

  // ----- the class -----

  class InMemoryExperimentQueue {
    var manifests: map<ExperimentId, Manifest>
    var order: seq<JobId>
    var jobs: map<JobId, Job>
    var results: map<string, Document>
    var stopped: set<ExperimentId>
    var costs: map<ExperimentId, int>
    var reservations: map<string, Reservation>

    function State(): Queue
      reads this
    {
      Queue(manifests, order, jobs, results, stopped, costs, reservations)
    }

    constructor ()
      ensures State() == Queue(map[], [], map[], map[], {}, map[], map[])
      ensures WellFormed(State())
    {
      manifests, order, jobs, results := map[], [], map[], map[];
      stopped, costs, reservations := {}, map[], map[];
    }

    /** `ids` are the identifiers the new jobs draw; `order` reports the shuffle that was made. */
    method Schedule(hash: string -> string, m: Manifest, scenarios: seq<string>, ids: seq<JobId>, now: int)
      returns (count: nat, ghost order: seq<Cell>)
      requires |DesignCells(m.configurations, scenarios, m.repetitions)| <= |ids|
      modifies this`manifests, this`jobs, this`order
      ensures multiset(order) == multiset(DesignCells(m.configurations, scenarios, m.repetitions))
      ensures count == |order| <= |ids|
      ensures forall x :: x in order ==> Configured(m.configurations, x.configurationId)
      ensures State() == ScheduleSpec(old(State()), m, NewJobs(KeysOf(old(State())), hash, m, order, ids, now))
    {
      manifests := manifests[m.experimentId := m];
      var built := BuildCells(m, scenarios);
      var cells := Shuffle(built);
      order := cells;
      ShuffledConfigured(m, scenarios, cells);
      var existing := KeysOf(State());
      ghost var q := State();
      for k := 0 to |cells|
        invariant State() == AddAll(q, NewJobs(existing, hash, m, cells[..k], ids, now))
      {
        NextJob(q, existing, hash, m, cells, ids, now, k);
        var key := SessionKey(hash, m.experimentId, cells[k]);
        if key !in existing {
          var job := NewJob(ids[k], m, key, cells[k], now);
          jobs := jobs[job.jobId := job];
          this.order := this.order + [job.jobId];
        }
      }
      assert cells[..|cells|] == cells;
      count := |cells|;
    }

    /** One job met by a scan: it is handed out, its expired lease is put back, or it is passed over. */
    method Meet(id: JobId, worker: string, seconds: int, now: int) returns (reply: Reply)
      requires id in jobs
      modifies this`jobs
      ensures var job := old(jobs)[id];
              if Ready(job, stopped, now)
              then var claimed := Lease(job, worker, seconds, now);
                   reply == Granted(claimed) && jobs == old(jobs)[id := claimed]
              else reply == Nothing && jobs == if Expired(job, stopped, now) then old(jobs)[id := Recover(job)]
                else old(jobs)
    {
      var job := jobs[id];
      if job.experimentId in stopped { return Nothing; }
      if (job.status.Pending? || job.status.RetryWait?) && job.notBefore <= now {
        var claimed := Lease(job, worker, seconds, now);
        jobs := jobs[id := claimed];
        return Granted(claimed);
      }
      if (job.status.Leased? || job.status.Running?) && job.leaseUntil.Some? && job.leaseUntil.value < now {
        jobs := jobs[id := Recover(job)];
      }
      reply := Nothing;
    }

    method Claim(worker: string, seconds: int, now: int) returns (reply: Reply)
      requires WellFormed(State())
      modifies this`jobs
      ensures Stepped(State(), reply) == ClaimSpec(old(State()), worker, seconds, now)
      ensures WellFormed(State())
    {
      ghost var q := State();
      ClaimWellFormed(q, worker, seconds, now);
      var i := 0;

      while i < |order|
        invariant 0 <= i <= FirstReady(q, now)
        invariant jobs == Scanned(q, i, now)
      {
        ScannedStep(q, i, now, jobs);
        ScanMeets(q, i, worker, seconds, now);
        reply := Meet(order[i], worker, seconds, now);
        if reply.Granted? { return; }
        i := i + 1;
      }
      reply := Nothing;
    }

    method Heartbeat(id: JobId, worker: string, seconds: int, now: int) returns (reply: Reply)
      modifies this`jobs
      ensures Stepped(State(), reply) == HeartbeatSpec(old(State()), id, worker, seconds, now)
    {
      if id !in jobs { return Refused(UnknownId); }
      var job := jobs[id];
      if job.owner != Some(worker) { return Refused(NotLeaseOwner); }
      jobs := jobs[id := job.(leaseUntil := Some(now + seconds * SECOND))];
      reply := Done;
    }

    /** Adds up the reservations of one experiment, as reserve_cost does. */
    method ReservedFor(e: ExperimentId) returns (total: int)
      ensures total == SumValues(Held(State(), e))
    {
      var pending := reservations.Keys;
      ghost var held := Held(State(), e);
      total := 0;
      assert Among(held, pending) == held;
      while pending != {}
        invariant pending <= reservations.Keys
        invariant total + SumValues(Among(held, pending)) == SumValues(held)
        decreases |pending|
      {
        var key :| key in pending;
        AmongStep(held, pending, key);
        if reservations[key].experiment == e {
          total := total + reservations[key].amount;
        }
        pending := pending - {key};
      }
      AmongNone(held);
    }

    method ReserveCost(job: Job, amount: int) returns (reply: Reply)
      modifies this`reservations, this`stopped
      ensures Stepped(State(), reply) == ReserveSpec(old(State()), job, amount)
    {
      if job.sessionKey in reservations { return Done; }
      if job.experimentId !in manifests { return Refused(UnknownId); }
      var committed := GetCost(costs, job.experimentId);
      var reserved := ReservedFor(job.experimentId);
      if committed + reserved + amount > manifests[job.experimentId].ceiling {
        stopped := stopped + {job.experimentId};
        return Refused(CeilingExceeded);
      }
      reservations := reservations[job.sessionKey := Reservation(job.experimentId, amount)];
      reply := Done;
    }

    method Complete(job: Job, result: Document, cost: int) returns (reply: Reply)
      modifies this`reservations, this`stopped, this`costs, this`results, this`jobs
      ensures Stepped(State(), reply) == CompleteSpec(old(State()), job, result, cost)
    {
      if job.experimentId !in manifests { return Refused(UnknownId); }
      var spent := GetCost(costs, job.experimentId);
      reservations := reservations - {job.sessionKey};
      if spent + cost > manifests[job.experimentId].ceiling {
        stopped := stopped + {job.experimentId};
        return Refused(CeilingExceeded);
      }
      costs := costs[job.experimentId := spent + cost];
      if job.sessionKey !in results {
        results := results[job.sessionKey := result];
      }
      if job.jobId !in jobs { return Refused(UnknownId); }
      jobs := jobs[job.jobId := jobs[job.jobId].(status := Succeeded)];
      reply := Done;
    }

    method Fail(job: Job, retryable: bool, now: int) returns (reply: Reply)
      modifies this`reservations, this`jobs
      ensures Stepped(State(), reply) == FailSpec(old(State()), job, retryable, now)
      ensures reply == if job.jobId in old(jobs) then Done else Refused(UnknownId)
      ensures job.sessionKey !in reservations
      ensures job.jobId in old(jobs) ==>
                var before := old(jobs)[job.jobId];
                Reported(before, jobs[job.jobId], retryable, before.attempts, before.maxAttempts, now)
    {
      reservations := reservations - {job.sessionKey};
      if job.jobId !in jobs { return Refused(UnknownId); }
      jobs := jobs[job.jobId := Retire(jobs[job.jobId], retryable, now)];
      reply := Done;
    }

    method Stop(e: ExperimentId)
      modifies this`stopped
      ensures State() == old(State()).(stopped := old(stopped) + {e})
    {
      stopped := stopped + {e};
    }

    method Resume(e: ExperimentId)
      modifies this`stopped
      ensures State() == old(State()).(stopped := old(stopped) - {e})
    {
      stopped := stopped - {e};
    }
  }
}
