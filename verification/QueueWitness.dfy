/** Why completions must hold their reservation: a run in which one job is completed twice. */
module QueueWitness {
  import opened Prelude
  import opened ExperimentModel
  import opened InMemoryQueue
  import opened QueueProtocol
  import L = CostLedger

  function WitnessJob(id: JobId, key: string): Job {
    Job(id, 0, key, "c", key, 1, Leased, 1, 3, Some("w"), Some(0), 0, 5)
  }

  /** Two jobs of estimate 5 under a ceiling of 10. */
  function WitnessQueue(reservations: map<string, Reservation>, costs: map<ExperimentId, int>, done: bool): Queue {
    Queue(map[0 := Manifest(0, [], 1, None, 10)], [0, 1],
          map[0 := WitnessJob(0, "a").(status := if done then Succeeded else Leased), 1 := WitnessJob(1, "b")],
          if done then map["a" := "r"] else map[], {}, costs, reservations)
  }

  lemma WitnessReserves()
    ensures var half := map["a" := Reservation(0, 5)];
            var full := map["a" := Reservation(0, 5), "b" := Reservation(0, 5)];
            && WellFormed(WitnessQueue(map[], map[], false)) && WellFormed(WitnessQueue(half, map[], false))
            && Step(WitnessQueue(map[], map[], false), ReserveCost(WitnessJob(0, "a"), 5)).state
               == WitnessQueue(half, map[], false)
            && Step(WitnessQueue(half, map[], false), ReserveCost(WitnessJob(1, "b"), 5)).state
               == WitnessQueue(full, map[], false)
  {
    var half := map["a" := Reservation(0, 5)];
    assert Held(WitnessQueue(map[], map[], false), 0) == map[];
    assert Held(WitnessQueue(half, map[], false), 0) == map["a" := 5];
    SumUpdate(map[], "a", 5);
    assert map[]["a" := 5] == map["a" := 5];
  }

  lemma PaidTwice(q: Queue, job: Job, manifest: Manifest, spent: int)
    requires q.manifests == map[0 := manifest] && job.experimentId == 0 && job.jobId in q.jobs
    requires GetCost(q.costs, 0) == spent && spent + 5 <= manifest.ceiling
    ensures var r := CompleteSpec(q, job, "r", 5).state;
            && r.reservations == q.reservations - {job.sessionKey} && r.costs == q.costs[0 := spent + 5]
            && r.results == (if job.sessionKey in q.results then q.results else q.results[job.sessionKey := "r"])
            && r.jobs == q.jobs[job.jobId := q.jobs[job.jobId].(status := Succeeded)]
            && r.manifests == q.manifests && r.order == q.order && r.stopped == q.stopped
  {
  }

  lemma WitnessJobs(done: bool)
    ensures var q := WitnessQueue(map[], map[], done);
            q.jobs[0 := q.jobs[0].(status := Succeeded)] == WitnessQueue(map[], map[], true).jobs
  {
  }

  lemma WitnessFirst()
    ensures var full := map["a" := Reservation(0, 5), "b" := Reservation(0, 5)];
            var rest := map["b" := Reservation(0, 5)];
            CompleteSpec(WitnessQueue(full, map[], false), WitnessJob(0, "a"), "r", 5).state
                == WitnessQueue(rest, map[0 := 5], true)
  {
    var full := map["a" := Reservation(0, 5), "b" := Reservation(0, 5)];
    var q := WitnessQueue(full, map[], false);
    PaidTwice(q, WitnessJob(0, "a"), q.manifests[0], 0);
    WitnessJobs(false);
    assert full - {"a"} == map["b" := Reservation(0, 5)];
    assert q.costs[0 := 5] == map[0 := 5];
    assert q.results["a" := "r"] == map["a" := "r"];
  }

  lemma WitnessSecond()
    ensures var rest := map["b" := Reservation(0, 5)];
            CompleteSpec(WitnessQueue(rest, map[0 := 5], true), WitnessJob(0, "a"), "r", 5).state
                == WitnessQueue(rest, map[0 := 10], true)
  {
    var rest := map["b" := Reservation(0, 5)];
    var q := WitnessQueue(rest, map[0 := 5], true);
    PaidTwice(q, WitnessJob(0, "a"), q.manifests[0], 5);
    WitnessJobs(true);
    assert rest - {"a"} == rest;
    assert q.costs[0 := 10] == map[0 := 10];
  }

  lemma WitnessEnds()
    ensures var final := WitnessQueue(map["b" := Reservation(0, 5)], map[0 := 10], true);
            && L.Committed(LedgerOf(final, 0)) == 15
            && CompleteSpec(final, WitnessJob(1, "b"), "r", 5).reply == Refused(CeilingExceeded)
  {
    assert Held(WitnessQueue(map["b" := Reservation(0, 5)], map[0 := 10], true), 0) == map["b" := 5];
    SumUpdate(map[], "b", 5);
    assert map[]["b" := 5] == map["b" := 5];
  }

  lemma WitnessStarts()
    ensures WellFormed(WitnessQueue(map[], map[], false)) && Solvent(WitnessQueue(map[], map[], false), 0)
  {
    assert Held(WitnessQueue(map[], map[], false), 0) == map[];
  }

  lemma OneMore(q: Queue, run: seq<Action>, s: Queue, a: Action, t: Queue)
    requires WellFormed(q) && Legal(q, run) && Run(q, run) == s && !a.Schedule? && WellFormed(s)
             && Step(s, a).state == t
    ensures Legal(q, run + [a]) && Run(q, run + [a]) == t
  {
    RunSnoc(q, run, a);
  }

  lemma TwoMore(q: Queue, run: seq<Action>, s: Queue, a: Action, t: Queue, b: Action, u: Queue)
    requires WellFormed(q) && Legal(q, run) && Run(q, run) == s && !a.Schedule? && !b.Schedule?
    requires WellFormed(s) && Step(s, a).state == t && WellFormed(t) && Step(t, b).state == u
    ensures Legal(q, run + [a] + [b]) && Run(q, run + [a] + [b]) == u
  {
    OneMore(q, run, s, a, t);
    OneMore(q, run + [a], t, b, u);
  }

  /** Both jobs reserve; then the first is completed twice. */
  function WitnessRun(): seq<Action> {
    [ReserveCost(WitnessJob(0, "a"), 5), ReserveCost(WitnessJob(1, "b"), 5),
     Complete(WitnessJob(0, "a"), "r", 5), Complete(WitnessJob(0, "a"), "r", 5)]
  }

  lemma WitnessWellFormed(reservations: map<string, Reservation>, costs: map<ExperimentId, int>, done: bool)
    ensures WellFormed(WitnessQueue(reservations, costs, done))
  {
  }

  const BOTH_RESERVED := map["a" := Reservation(0, 5), "b" := Reservation(0, 5)]
  const ONE_RESERVED := map["b" := Reservation(0, 5)]

  lemma WitnessReserveRun()
    ensures var q, run := WitnessQueue(map[], map[], false),
            [] + [ReserveCost(WitnessJob(0, "a"), 5)] + [ReserveCost(WitnessJob(1, "b"), 5)];
            WellFormed(q) && Legal(q, run) && Run(q, run) == WitnessQueue(BOTH_RESERVED, map[], false)
  {
    WitnessStarts();
    WitnessReserves();
    TwoMore(WitnessQueue(map[], map[], false), [], WitnessQueue(map[], map[], false),
            ReserveCost(WitnessJob(0, "a"), 5), WitnessQueue(map["a" := Reservation(0, 5)], map[], false),
            ReserveCost(WitnessJob(1, "b"), 5), WitnessQueue(BOTH_RESERVED, map[], false));
  }

  lemma WitnessPays()
    requires WellFormed(WitnessQueue(BOTH_RESERVED, map[], false))
             && WellFormed(WitnessQueue(ONE_RESERVED, map[0 := 5], true))
    ensures var pay := Complete(WitnessJob(0, "a"), "r", 5);
            && Step(WitnessQueue(BOTH_RESERVED, map[], false), pay).state
               == WitnessQueue(ONE_RESERVED, map[0 := 5], true)
            && Step(WitnessQueue(ONE_RESERVED, map[0 := 5], true), pay).state
               == WitnessQueue(ONE_RESERVED, map[0 := 10], true)
  {
    WitnessFirst();
    WitnessSecond();
  }

  lemma WitnessRuns()
    ensures WellFormed(WitnessQueue(map[], map[], false)) && Legal(WitnessQueue(map[], map[], false), WitnessRun())
    ensures Run(WitnessQueue(map[], map[], false), WitnessRun()) == WitnessQueue(ONE_RESERVED, map[0 := 10], true)
  {
    WitnessReserveRun();
    WitnessWellFormed(BOTH_RESERVED, map[], false);
    WitnessWellFormed(ONE_RESERVED, map[0 := 5], true);
    WitnessPays();
    var reserves := [] + [ReserveCost(WitnessJob(0, "a"), 5)] + [ReserveCost(WitnessJob(1, "b"), 5)];
    var pay := Complete(WitnessJob(0, "a"), "r", 5);
    TwoMore(WitnessQueue(map[], map[], false), reserves, WitnessQueue(BOTH_RESERVED, map[], false), pay,
            WitnessQueue(ONE_RESERVED, map[0 := 5], true), pay, WitnessQueue(ONE_RESERVED, map[0 := 10], true));
    assert WitnessRun() == reserves + [pay] + [pay];
  }

  /**
   * When the first of the two jobs is completed twice, once by a stale worker, the experiment is
   * committed to 15 and the second job, which holds a reservation, can no longer complete.
   */
  lemma StaleCompletionOvercommits()
    ensures var q := WitnessQueue(map[], map[], false);
            && WellFormed(q) && Legal(q, WitnessRun()) && Solvent(q, 0) && 0 in Run(q, WitnessRun()).manifests
            && L.Committed(LedgerOf(Run(q, WitnessRun()), 0)) == 15
            && CompleteSpec(Run(q, WitnessRun()), WitnessJob(1, "b"), "r", 5).reply == Refused(CeilingExceeded)
  {
    WitnessRuns();
    WitnessStarts();
    WitnessEnds();
  }
}
