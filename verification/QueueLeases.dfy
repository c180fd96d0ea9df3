/** Leases, retries and the completeness of a claim, over runs of the in-memory queue. */
module QueueLeases {
  import opened Prelude
  import opened ExperimentModel
  import opened InMemoryQueue
  import opened QueueProtocol

  // ----- attempts -----

  /** A job that appears in a step was scheduled by it. */
  lemma AppearsFresh(q: Queue, a: Action, id: JobId)
    requires WellFormed(q) && Enabled(q, a) && id in Step(q, a).state.jobs && id !in q.jobs
    ensures a.Schedule? && FreshJob(q, a.manifest, Step(q, a).state.jobs[id])
  {
    if a.Schedule? {
      var r := q.(manifests := q.manifests[a.manifest.experimentId := a.manifest]);
      AddAllOnly(r, a.added, id);
      AddAllAdds(r, a.added);
    } else {
      StepKeepsIdentity(q, a);
      assert false;
    }
  }

  /** How many claims recovered the expired lease of one job. */
  ghost function Recoveries(q: Queue, run: seq<Action>, id: JobId): nat
    requires WellFormed(q) && Legal(q, run)
  {
    if run == [] then 0 else
      Recoveries(q, Front(run), id) + if Recovers(Run(q, Front(run)), Last(run), id) then 1 else 0
  }

  ghost predicate AttemptBound(job: Job, recoveries: nat) {
    && (job.status.RetryWait? ==> job.attempts < job.maxAttempts)
    && (job.status.Pending? ==> job.attempts < job.maxAttempts + recoveries)
    && job.attempts <= job.maxAttempts + recoveries
  }

  lemma AttemptAfter(q: Queue, a: Action, id: JobId, n: nat)
    requires WellFormed(q) && id in q.jobs && AttemptBound(q.jobs[id], n)
    ensures AttemptBound(JobAfter(q, a, id), n + if Recovers(q, a, id) then 1 else 0)
  {
  }

  lemma AttemptStep(q: Queue, a: Action, id: JobId, n: nat)
    requires WellFormed(q) && Enabled(q, a)
    requires id in q.jobs ==> AttemptBound(q.jobs[id], n)
    ensures id in Step(q, a).state.jobs ==>
              AttemptBound(Step(q, a).state.jobs[id], n + if Recovers(q, a, id) then 1 else 0)
  {
    if id in q.jobs {
      JobStep(q, a, id);
      AttemptAfter(q, a, id, n);
    } else if id in Step(q, a).state.jobs {
      AppearsFresh(q, a, id);
    }
  }

  /** Attempts exceed the limit only by lease expiries: attempts <= maxAttempts + recoveries. */
  lemma {:induction false} AttemptsBounded(q: Queue, run: seq<Action>, id: JobId)
    requires WellFormed(q) && Legal(q, run)
    requires id in q.jobs ==> AttemptBound(q.jobs[id], 0)
    ensures id in Run(q, run).jobs ==> AttemptBound(Run(q, run).jobs[id], Recoveries(q, run, id))
  {
    if run != [] {
      AttemptsBounded(q, Front(run), id);
      AttemptStep(Run(q, Front(run)), Last(run), id, Recoveries(q, Front(run), id));
    }
  }

  ghost function AttemptsOf(q: Queue): map<JobId, int> {
    map id | id in q.jobs :: q.jobs[id].attempts
  }

  /** The number of claims of a run that handed out a job. */
  ghost function GrantCount(q: Queue, run: seq<Action>): nat
    requires WellFormed(q) && Legal(q, run)
  {
    if run == [] then 0 else
      GrantCount(q, Front(run)) + if Step(Run(q, Front(run)), Last(run)).reply.Granted? then 1 else 0
  }

  lemma {:induction false} AddAllAttempts(q: Queue, added: seq<Job>)
    requires NewIds(q, added) && forall i :: 0 <= i < |added| ==> added[i].attempts == 0
    ensures SumValues(AttemptsOf(AddAll(q, added))) == SumValues(AttemptsOf(q))
  {
    if added != [] {
      var before, job := added[..|added| - 1], added[|added| - 1];
      AddAllAttempts(q, before);
      var r := AddAll(q, before);
      if job.jobId in r.jobs {
        AddAllOnly(q, before, job.jobId);
        assert false;
      }
      assert AttemptsOf(AddAll(q, added)) == AttemptsOf(r)[job.jobId := 0];
      SumUpdate(AttemptsOf(r), job.jobId, 0);
    }
  }

  /** The attempts after one of the jobs, if any, was handed out once more. */
  lemma OneMoreAttempt(q: Queue, r: Queue, granted: Option<JobId>)
    requires r.jobs.Keys == q.jobs.Keys && (granted.Some? ==> granted.value in q.jobs)
    requires forall id :: id in q.jobs ==>
             r.jobs[id].attempts == q.jobs[id].attempts + if granted == Some(id) then 1 else 0
    ensures SumValues(AttemptsOf(r)) == SumValues(AttemptsOf(q)) + if granted.Some? then 1 else 0
  {
    if granted.Some? {
      var id := granted.value;
      assert AttemptsOf(r) == AttemptsOf(q)[id := q.jobs[id].attempts + 1];
      SumUpdate(AttemptsOf(q), id, q.jobs[id].attempts + 1);
    } else {
      assert AttemptsOf(r) == AttemptsOf(q);
    }
  }

  /** The job a step hands out, if any. */
  ghost function GrantedBy(q: Queue, a: Action): Option<JobId>
    requires WellFormed(q)
  {
    if a.Claim? && FirstReady(q, a.now) < |q.order| then Some(q.order[FirstReady(q, a.now)]) else None
  }

  lemma GrantedByReply(q: Queue, a: Action)
    requires WellFormed(q)
    ensures GrantedBy(q, a).Some? <==> Step(q, a).reply.Granted?
  {
  }

  lemma AttemptsAfter(q: Queue, a: Action, id: JobId)
    requires WellFormed(q) && id in q.jobs
    ensures JobAfter(q, a, id).attempts == q.jobs[id].attempts + if GrantedBy(q, a) == Some(id) then 1 else 0
  {
  }

  lemma AttemptSumStep(q: Queue, a: Action)
    requires WellFormed(q) && Enabled(q, a)
    ensures SumValues(AttemptsOf(Step(q, a).state)) ==
            SumValues(AttemptsOf(q)) + if Step(q, a).reply.Granted? then 1 else 0
  {
    if a.Schedule? {
      var base := q.(manifests := q.manifests[a.manifest.experimentId := a.manifest]);
      AddAllAttempts(base, a.added);
      assert AttemptsOf(base) == AttemptsOf(q);
    } else {
      GrantedByReply(q, a);
      StepKeepsOrder(q, a);
      forall id | id in q.jobs
        ensures Step(q, a).state.jobs[id].attempts == q.jobs[id].attempts + if GrantedBy(q, a) == Some(id) then 1 else 0
      {
        JobStep(q, a, id);
        AttemptsAfter(q, a, id);
      }
      OneMoreAttempt(q, Step(q, a).state, GrantedBy(q, a));
    }
  }

  /** Conservation: the attempt counters record exactly the grants that were made. */
  lemma {:induction false} GrantsAreAttempts(q: Queue, run: seq<Action>)
    requires WellFormed(q) && Legal(q, run)
    ensures SumValues(AttemptsOf(Run(q, run))) == SumValues(AttemptsOf(q)) + GrantCount(q, run)
  {
    if run != [] {
      GrantsAreAttempts(q, Front(run));
      AttemptSumStep(Run(q, Front(run)), Last(run));
    }
  }

  ghost function AttemptBudget(q: Queue, run: seq<Action>): map<JobId, int>
    requires WellFormed(q) && Legal(q, run)
  {
    map id | id in Run(q, run).jobs :: Run(q, run).jobs[id].maxAttempts + Recoveries(q, run, id)
  }

  /** From an empty queue, grants are bounded by the sum of the limits plus the recoveries. */
  lemma GrantsBounded(q: Queue, run: seq<Action>)
    requires WellFormed(q) && Legal(q, run) && q.jobs == map[]
    ensures GrantCount(q, run) <= SumValues(AttemptBudget(q, run))
  {
    GrantsAreAttempts(q, run);
    assert AttemptsOf(q) == map[];
    forall id | id in Run(q, run).jobs
      ensures Run(q, run).jobs[id].attempts <= AttemptBudget(q, run)[id]
    {
      AttemptsBounded(q, run, id);
    }
    SumMonotone(AttemptsOf(Run(q, run)), AttemptBudget(q, run));
  }

  // ----- the clock -----

  function TimeOf(a: Action): Option<int> {
    match a
    case Claim(_, _, now) => Some(now)
    case Heartbeat(_, _, _, now) => Some(now)
    case Fail(_, _, now) => Some(now)
    case _ => None
  }

  function ClockAfter(clock: int, a: Action): int {
    match TimeOf(a) case Some(now) => now case None => clock
  }

  function Clock(start: int, run: seq<Action>): int {
    if run == [] then start else ClockAfter(Clock(start, Front(run)), Last(run))
  }

  predicate Monotone(start: int, run: seq<Action>) {
    run == [] || (Monotone(start, Front(run)) && Clock(start, Front(run)) <= Clock(start, run))
  }

  // ----- lease exclusion -----

  /**
   * The end of a job's current grant, read off the history alone: a grant or a successful
   * heartbeat sets it, a failure report releases it, nothing else touches it.
   */
  ghost function LeaseEnd(q: Queue, run: seq<Action>, id: JobId): Option<int>
    requires WellFormed(q) && Legal(q, run)
  {
    if run == [] then None
    else LeaseEndAfter(Run(q, Front(run)), Last(run), LeaseEnd(q, Front(run), id), id)
  }

  ghost function LeaseEndAfter(q: Queue, a: Action, earlier: Option<int>, id: JobId): Option<int>
    requires WellFormed(q)
  {
    match a
    case Claim(_, seconds, now) => if Grants(q, a, id) then Some(now + seconds * SECOND) else earlier
    case Heartbeat(j, worker, seconds, now) =>
      if j == id && id in q.jobs && q.jobs[id].owner == Some(worker) then Some(now + seconds * SECOND) else earlier
    case Fail(job, _, _) => if job.jobId == id && id in q.jobs then None else earlier
    case _ => earlier
  }

  ghost predicate LeaseInv(job: Job, end: Option<int>, clock: int) {
    && job.leaseUntil == end
    && (job.status.Leased? || job.status.Running? ==> end.Some?)
    && (job.status.Pending? ==> job.owner.None? && (end.Some? ==> end.value < clock))
    && (job.status.RetryWait? ==> job.owner.None? && end.None?)
  }

  lemma LeaseAfter(q: Queue, a: Action, id: JobId, end: Option<int>, clock: int)
    requires WellFormed(q) && id in q.jobs && LeaseInv(q.jobs[id], end, clock) && clock <= ClockAfter(clock, a)
    ensures LeaseInv(JobAfter(q, a, id), LeaseEndAfter(q, a, end, id), ClockAfter(clock, a))
  {
  }

  lemma LeaseStep(q: Queue, a: Action, id: JobId, end: Option<int>, clock: int)
    requires WellFormed(q) && Enabled(q, a) && id in q.jobs && LeaseInv(q.jobs[id], end, clock)
    requires clock <= ClockAfter(clock, a)
    ensures id in Step(q, a).state.jobs
    ensures LeaseInv(Step(q, a).state.jobs[id], LeaseEndAfter(q, a, end, id), ClockAfter(clock, a))
  {
    JobStep(q, a, id);
    LeaseAfter(q, a, id, end, clock);
  }

  lemma {:induction false} LeaseInvHolds(q: Queue, run: seq<Action>, start: int, id: JobId)
    requires WellFormed(q) && Legal(q, run) && Monotone(start, run)
    requires id in q.jobs ==> LeaseInv(q.jobs[id], None, start)
    ensures id in Run(q, run).jobs ==> LeaseInv(Run(q, run).jobs[id], LeaseEnd(q, run, id), Clock(start, run))
    ensures id !in Run(q, run).jobs ==> LeaseEnd(q, run, id).None?
  {
    if run != [] {
      LeaseInvHolds(q, Front(run), start, id);
      var before, a := Run(q, Front(run)), Last(run);
      if id in before.jobs {
        LeaseStep(before, a, id, LeaseEnd(q, Front(run), id), Clock(start, Front(run)));
      } else if id in Run(q, run).jobs {
        AppearsFresh(before, a, id);
      }
    }
  }

  /**
   * Two grants of one job never overlap: when a claim hands out a job, the earlier grant, as
   * extended by heartbeats, has expired or was released.
   */
  lemma GrantsNeverOverlap(q: Queue, run: seq<Action>, start: int, id: JobId)
    requires WellFormed(q) && Legal(q, run) && run != [] && Monotone(start, run)
    requires id in q.jobs ==> LeaseInv(q.jobs[id], None, start)
    requires Last(run).Claim? && Grants(Run(q, Front(run)), Last(run), id)
    ensures LeaseEnd(q, Front(run), id).Some? ==> LeaseEnd(q, Front(run), id).value < Last(run).now
  {
    LeaseInvHolds(q, Front(run), start, id);
    GrantedReply(Run(q, Front(run)), Last(run), id);
  }

  predicate Releases(a: Action, id: JobId) {
    a.Fail? && a.job.jobId == id
  }

  lemma {:induction false} LeaseEndKept(q: Queue, run: seq<Action>, i: nat, id: JobId)
    requires WellFormed(q) && Legal(q, run) && i < |run| && Legal(q, run[..i])
    requires Grants(Run(q, run[..i]), run[i], id)
    requires forall j :: i < j < |run| ==> !Releases(run[j], id)
    ensures LeaseEnd(q, run, id).Some?
  {
    if i == |run| - 1 {
      assert run[..i] == Front(run);
    } else {
      assert Front(run)[..i] == run[..i];
      LeaseEndKept(q, Front(run), i, id);
    }
  }

  /** The same for a pair of grants: between them lies a failure report, or the lease ran out. */
  lemma LaterGrantWaits(q: Queue, run: seq<Action>, start: int, i: nat, id: JobId)
    requires WellFormed(q) && Legal(q, run) && Monotone(start, run)
    requires id in q.jobs ==> LeaseInv(q.jobs[id], None, start)
    requires i < |run| - 1 && Legal(q, run[..i]) && Grants(Run(q, run[..i]), run[i], id)
    requires Last(run).Claim? && Grants(Run(q, Front(run)), Last(run), id)
    ensures (exists j :: i < j < |run| - 1 && Releases(run[j], id))
         || (LeaseEnd(q, Front(run), id).Some? && LeaseEnd(q, Front(run), id).value < Last(run).now)
  {
    if forall j :: i < j < |run| - 1 ==> !Releases(run[j], id) {
      assert Front(run)[..i] == run[..i];
      LeaseEndKept(q, Front(run), i, id);
      GrantsNeverOverlap(q, run, start, id);
    }
  }

  // ----- completeness of a claim -----

  /** A leased job was ready when it was leased. */
  predicate WasReady(job: Job, clock: int) {
    job.status.Leased? || job.status.Running? ==> job.notBefore <= clock
  }

  ghost predicate LeasedWasReady(q: Queue, clock: int) {
    forall id :: id in q.jobs ==> WasReady(q.jobs[id], clock)
  }

  lemma WasReadyAfter(q: Queue, a: Action, id: JobId, clock: int)
    requires WellFormed(q) && id in q.jobs && WasReady(q.jobs[id], clock) && clock <= ClockAfter(clock, a)
    ensures WasReady(JobAfter(q, a, id), ClockAfter(clock, a))
  {
  }

  lemma LeasedWasReadyStep(q: Queue, a: Action, clock: int)
    requires WellFormed(q) && Enabled(q, a) && LeasedWasReady(q, clock) && clock <= ClockAfter(clock, a)
    ensures LeasedWasReady(Step(q, a).state, ClockAfter(clock, a))
  {
    forall id | id in Step(q, a).state.jobs ensures WasReady(Step(q, a).state.jobs[id], ClockAfter(clock, a)) {
      if id in q.jobs {
        JobStep(q, a, id);
        WasReadyAfter(q, a, id, clock);
      } else {
        AppearsFresh(q, a, id);
      }
    }
  }

  lemma {:induction false} LeasedWasReadyHolds(q: Queue, run: seq<Action>, start: int)
    requires WellFormed(q) && Legal(q, run) && Monotone(start, run) && LeasedWasReady(q, start)
    ensures LeasedWasReady(Run(q, run), Clock(start, run))
  {
    if run != [] {
      LeasedWasReadyHolds(q, Front(run), start);
      LeasedWasReadyStep(Run(q, Front(run)), Last(run), Clock(start, Front(run)));
    }
  }

  lemma {:induction false} AllListedHolds(q: Queue, run: seq<Action>)
    requires WellFormed(q) && Legal(q, run) && AllListed(q)
    ensures AllListed(Run(q, run))
  {
    if run != [] {
      AllListedHolds(q, Front(run));
      var before, a := Run(q, Front(run)), Last(run);
      if a.Schedule? {
        AddAllListed(before.(manifests := before.manifests[a.manifest.experimentId := a.manifest]), a.added);
      } else {
        StepKeepsIdentity(before, a);
      }
    }
  }

  lemma {:induction false} AddAllListed(q: Queue, added: seq<Job>)
    requires AllListed(q)
    ensures AllListed(AddAll(q, added))
  {
    if added != [] {
      AddAllListed(q, added[..|added| - 1]);
    }
  }

  /**
   * A claim that returns nothing found no ready job anywhere, and put every expired lease of an
   * unstopped experiment back to PENDING.
   */
  lemma EmptyClaimIsComplete(q: Queue, a: Action, id: JobId)
    requires WellFormed(q) && AllListed(q) && a.Claim? && id in q.jobs
    requires Step(q, a).reply == Nothing
    ensures !Ready(q.jobs[id], q.stopped, a.now)
    ensures id in Step(q, a).state.jobs
    ensures Step(q, a).state.jobs[id] ==
            if Expired(q.jobs[id], q.stopped, a.now) then Recover(q.jobs[id]) else q.jobs[id]
  {
    assert id in q.order;
    var i :| 0 <= i < |q.order| && q.order[i] == id;
    ClaimJob(q, a, id);
  }

  /** An immediate second claim then hands out a job exactly when some lease had expired. */
  lemma SecondClaimFindsExpired(q: Queue, a: Action)
    requires WellFormed(q) && AllListed(q) && a.Claim? && LeasedWasReady(q, a.now)
    requires Step(q, a).reply == Nothing
    ensures WellFormed(Step(q, a).state)
    ensures Step(Step(q, a).state, a).reply.Granted? <==>
            exists id :: id in q.jobs && Expired(q.jobs[id], q.stopped, a.now)
  {
    StepKeepsWellFormed(q, a);
    StepKeepsIdentity(q, a);
    var r := Step(q, a).state;
    var k := FirstReady(r, a.now);
    if k < |r.order| {
      var id := r.order[k];
      EmptyClaimIsComplete(q, a, id);
      assert Ready(r.jobs[id], r.stopped, a.now);
      assert Expired(q.jobs[id], q.stopped, a.now);
    } else {
      forall id | id in q.jobs ensures !Expired(q.jobs[id], q.stopped, a.now) {
        EmptyClaimIsComplete(q, a, id);
        assert id in q.order;
        var i :| 0 <= i < |r.order| && r.order[i] == id;
        assert !Ready(r.jobs[r.order[i]], r.stopped, a.now);
      }
    }
  }

  /** Both, in every reachable state of a queue that starts empty, under a clock that never runs back. */
  lemma ClaimIsComplete(run: seq<Action>, start: int, a: Action)
    requires Legal(EMPTY, run) && Monotone(start, run) && a.Claim? && Clock(start, run) <= a.now
    requires Step(Run(EMPTY, run), a).reply == Nothing
    ensures var q, r := Run(EMPTY, run), Step(Run(EMPTY, run), a).state;
            && WellFormed(r)
            && (forall id :: id in q.jobs ==> !Ready(q.jobs[id], q.stopped, a.now))
            && (forall id :: id in q.jobs && Expired(q.jobs[id], q.stopped, a.now) ==>
                id in r.jobs && r.jobs[id].status.Pending?)
            && (Step(r, a).reply.Granted? <==> exists id :: id in q.jobs && Expired(q.jobs[id], q.stopped, a.now))
  {
    var q := Run(EMPTY, run);
    LeasedWasReadyHolds(EMPTY, run, start);
    AllListedHolds(EMPTY, run);
    SecondClaimFindsExpired(q, a);
    forall id | id in q.jobs
      ensures !Ready(q.jobs[id], q.stopped, a.now)
      ensures Expired(q.jobs[id], q.stopped, a.now) ==>
              id in Step(q, a).state.jobs && Step(q, a).state.jobs[id].status.Pending?
    {
      EmptyClaimIsComplete(q, a, id);
    }
  }

  // ----- what a claim hands out -----

  /** Nothing that a scan meets before place i can be handed out. */
  ghost predicate NoneDueBefore(q: Queue, i: nat, now: int)
    requires WellFormed(q) && i <= |q.order|
  {
    forall j :: 0 <= j < i ==>
      var job := q.jobs[q.order[j]];
      job.experimentId in q.stopped || job.status !in {Pending, RetryWait} || now < job.notBefore
  }

  /** A claim hands out the first job that is due, for one more attempt under a new lease. */
  lemma ClaimHandsOut(q: Queue, a: Action, i: nat)
    requires WellFormed(q) && a.Claim? && i < |q.order| && NoneDueBefore(q, i, a.now)
    requires var job := q.jobs[q.order[i]];
             job.experimentId !in q.stopped && job.status in {Pending, RetryWait} && job.notBefore <= a.now
    ensures var job, done := q.jobs[q.order[i]], Step(q, a);
            && done.reply.Granted? && done.reply.job.jobId == q.order[i] && SameIdentity(done.reply.job, job)
            && done.reply.job.status == Leased && done.reply.job.owner == Some(a.worker)
            && done.reply.job.leaseUntil == Some(a.now + a.seconds * 1_000_000)
            && done.reply.job.attempts == job.attempts + 1 && done.reply.job.notBefore == job.notBefore
            && q.order[i] in done.state.jobs && done.state.jobs[q.order[i]] == done.reply.job
  {
    assert Ready(q.jobs[q.order[i]], q.stopped, a.now);
    FirstDue(q, i, a.now);
  }

  lemma NoneReadyBefore(q: Queue, i: nat, now: int)
    requires WellFormed(q) && i <= |q.order| && NoneDueBefore(q, i, now)
    ensures forall j :: 0 <= j < i ==> !Ready(q.jobs[q.order[j]], q.stopped, now)
  {
  }

  lemma FirstDue(q: Queue, i: nat, now: int)
    requires WellFormed(q) && i <= |q.order| && NoneDueBefore(q, i, now)
    requires i < |q.order| ==> Ready(q.jobs[q.order[i]], q.stopped, now)
    ensures FirstReady(q, now) == i
  {
    NoneReadyBefore(q, i, now);
    assert FirstReady(q, now) >= i;
  }

  /** A claim that finds nothing due hands out nothing. */
  lemma NothingDueNothingHandedOut(q: Queue, a: Action)
    requires WellFormed(q) && a.Claim? && NoneDueBefore(q, |q.order|, a.now)
    ensures Step(q, a).reply == Nothing
  {
    FirstDue(q, |q.order|, a.now);
  }

  /** What a claim does to a job it does not hand out: an expired lease it passes is put back, else nothing. */
  lemma ClaimPutsBack(q: Queue, a: Action, i: nat)
    requires WellFormed(q) && a.Claim? && i < |q.order| && NoneDueBefore(q, i + 1, a.now)
    ensures var job, done := q.jobs[q.order[i]], Step(q, a);
            && q.order[i] in done.state.jobs
            && var after := done.state.jobs[q.order[i]];
            if job.experimentId !in q.stopped && job.status in {Leased, Running} && job.leaseUntil.Some?
               && job.leaseUntil.value < a.now
            then after.status == Pending && after.owner.None? && SameIdentity(after, job)
                 && after.attempts == job.attempts && after.notBefore == job.notBefore
            else after == job
  {
    var id := q.order[i];
    ClaimJob(q, a, id);
    NoneReadyBefore(q, i + 1, a.now);
    assert FirstReady(q, a.now) > i;
  }

  /** Stopping and resuming an experiment set and clear its stop, and nothing else. */
  lemma SwitchMeans(q: Queue, e: ExperimentId)
    requires WellFormed(q)
    ensures var stopped, resumed := Step(q, Stop(e)).state, Step(q, Resume(e)).state;
            && e in stopped.stopped && stopped.stopped - {e} == q.stopped - {e}
            && e !in resumed.stopped && resumed.stopped == q.stopped - {e}
            && stopped.(stopped := q.stopped) == q && resumed.(stopped := q.stopped) == q
  {
  }

  // ----- a failed attempt is made again -----

  /** No call of the run hands the job out, completes it or reports it. */
  ghost predicate LeftAlone(q: Queue, run: seq<Action>, id: JobId)
    requires WellFormed(q) && Legal(q, run)
  {
    run == [] ||
    (LeftAlone(q, Front(run), id) && !Grants(Run(q, Front(run)), Last(run), id)
     && !((Last(run).Complete? || Last(run).Fail?) && Last(run).job.jobId == id))
  }

  ghost predicate WaitsForRetry(q: Queue, id: JobId, until: int) {
    id in q.jobs && q.jobs[id].status == RetryWait && q.jobs[id].notBefore == until
  }

  lemma RetryWaitsOn(q: Queue, a: Action, id: JobId, until: int)
    requires WellFormed(q) && Enabled(q, a) && WaitsForRetry(q, id, until) && !Grants(q, a, id)
    requires !((a.Complete? || a.Fail?) && a.job.jobId == id)
    ensures WaitsForRetry(Step(q, a).state, id, until)
  {
    JobStep(q, a, id);
  }

  lemma {:induction false} RetryWaits(q: Queue, run: seq<Action>, id: JobId, until: int)
    requires WellFormed(q) && Legal(q, run) && WaitsForRetry(q, id, until) && LeftAlone(q, run, id)
    ensures WaitsForRetry(Run(q, run), id, until)
  {
    if run != [] {
      RetryWaits(q, Front(run), id, until);
      RetryWaitsOn(Run(q, Front(run)), Last(run), id, until);
    }
  }

  /**
   * A retryable failure with attempts left is followed by another attempt: whatever happens to other
   * jobs meanwhile, a claim after the back-off hands the job out, unless its experiment is stopped or
   * the scan meets another due job first.
   */
  lemma FailedJobIsTriedAgain(q: Queue, fail: Action, run: seq<Action>, claim: Action, i: nat)
    requires WellFormed(q) && fail.Fail? && fail.retryable && fail.job.jobId in q.jobs
    requires q.jobs[fail.job.jobId].attempts < q.jobs[fail.job.jobId].maxAttempts
    requires Enabled(q, fail) && WellFormed(Step(q, fail).state) && Legal(Step(q, fail).state, run)
    requires LeftAlone(Step(q, fail).state, run, fail.job.jobId)
    requires claim.Claim? && fail.now + Pow2(q.jobs[fail.job.jobId].attempts) * SECOND <= claim.now
    requires var r := Run(Step(q, fail).state, run);
             && i < |r.order| && r.order[i] == fail.job.jobId && NoneDueBefore(r, i, claim.now)
             && r.jobs[fail.job.jobId].experimentId !in r.stopped
    ensures var reply := Step(Run(Step(q, fail).state, run), claim).reply;
            reply.Granted? && reply.job.jobId == fail.job.jobId
  {
    var id := fail.job.jobId;
    FailMeans(q, fail.job, fail.retryable, fail.now);
    RetryWaits(Step(q, fail).state, run, id, fail.now + Pow2(q.jobs[id].attempts) * SECOND);
    ClaimHandsOut(Run(Step(q, fail).state, run), claim, i);
  }

  lemma SucceededAfter(q: Queue, a: Action, id: JobId)
    requires WellFormed(q) && id in q.jobs && q.jobs[id].status.Succeeded?
    ensures JobAfter(q, a, id).status.Succeeded? <==> !(a.Fail? && a.job.jobId == id)
  {
  }

  /** SUCCEEDED is not final: a step leaves it exactly when somebody reports the job as failed. */
  lemma SucceededEndsExactly(q: Queue, a: Action, id: JobId)
    requires WellFormed(q) && Enabled(q, a) && id in q.jobs && q.jobs[id].status.Succeeded?
    ensures id in Step(q, a).state.jobs
    ensures Step(q, a).state.jobs[id].status.Succeeded? <==> !(a.Fail? && a.job.jobId == id)
  {
    JobStep(q, a, id);
    SucceededAfter(q, a, id);
  }
}
