/** Any number of cases, driven by any sequence of calls to the investigation engine. */
module InvestigationProtocol {
  import opened Prelude
  import opened CaseModel
  import opened CaseRepository
  import opened InvestigationGraph
  import opened InvestigationStages

  /** The repository's cases, the threads of the graph library, and what the tools recorded. */
  datatype System = System(cases: map<nat, CaseData>, threads: map<nat, Checkpoint>, executions: seq<Execution>)

  datatype Action =
    | Start(alertId: string, tenantId: string, actorId: string, id: nat, rerunFailed: bool, q: Retrieval, d: Drafting)
    | ReviewCase(id: nat, review: Review, q: Retrieval, fault: Fault, d: Drafting)
    | SupplyInformation(id: nat, submission: Submission, q: Retrieval, d: Drafting)
    | AssignReviewer(id: nat, reviewerId: string)
    | Reset(id: nat, purged: bool)
    | RecordSecurityEvent(id: nat, event: SecurityEvent, next: Pc)

  function At(s: System, id: nat): Local
    requires id in s.cases && id in s.threads
  {
    Local(s.cases[id], s.threads[id])
  }

  function Put(s: System, id: nat, l: Local): System {
    s.(cases := s.cases[id := l.c], threads := s.threads[id := l.cp])
  }

  function Earlier(s: System, id: nat): Option<Checkpoint> {
    if id in s.threads then Some(s.threads[id]) else None
  }

  /** Run the graph on a new or failed case. */
  function RunCase(s: System, c: CaseData, actorId: string, env: Environment, q: Retrieval, d: Drafting): System {
    var l := Local(c, Input(c, actorId, Earlier(s, c.caseId)));
    var executions := s.executions + ReadAll(env.bank, AuthOf(l.cp), c.alertId).executions;
    Put(s, c.caseId, Run(l, env, q, d, executions)).(executions := executions)
  }

  ghost function StartCase(s: System, env: Environment, a: Action): System
    requires a.Start?
  {
    match Created(s.cases, env.bank, a.alertId, a.tenantId, a.actorId, a.id)
    case Err(_) => s
    case Ok((c, created)) =>
      if created || (a.rerunFailed && c.status == FAILED) then RunCase(s, c, a.actorId, env, a.q, a.d) else s
  }

  predicate AcceptsReview(s: System, id: nat, review: Review) {
    id in s.cases && id in s.threads && s.cases[id].status != HARD_BLOCKED && review.version == s.cases[id].version
  }

  predicate AcceptsInformation(s: System, id: nat) {
    id in s.cases && id in s.threads && s.cases[id].status == WAITING_FOR_INFORMATION
  }

  predicate CanReset(s: System, id: nat) {
    id in s.cases && s.cases[id].status != OPEN && s.cases[id].status != RUNNING
  }

  /** A refused call leaves everything as it was. */
  ghost function Step(s: System, env: Environment, a: Action): System {
    match a
    case Start(_, _, _, _, _, _, _) => StartCase(s, env, a)
    case ReviewCase(id, review, q, fault, d) =>
      if !AcceptsReview(s, id, review) then s
      else Put(s, id, Resume(At(s, id), OfReview(review), env, q, fault, d, s.executions))
    case SupplyInformation(id, submission, q, d) =>
      if !AcceptsInformation(s, id) then s
      else Put(s, id, Resume(At(s, id), OfSubmission(submission), env, q, NoFault, d, s.executions))
    case AssignReviewer(id, reviewerId) =>
      if id in s.cases && s.cases[id].reviewerId in {None, Some(reviewerId)}
      then s.(cases := s.cases[id := s.cases[id].(reviewerId := Some(reviewerId))]) else s
    case Reset(id, purged) =>
      if !CanReset(s, id) then s
      else s.(cases := s.cases - {id}, threads := if purged then s.threads - {id} else s.threads)
    case RecordSecurityEvent(id, event, next) =>
      if !IsCritical(event) || id !in s.cases || id !in s.threads then s
      else Put(s, id, Revoke(At(s, id), event, next))
  }

  /** A new id was never used, and a review respects its schema. */
  predicate Legal(s: System, a: Action) {
    && (a.Start? ==> a.id !in s.cases && a.id !in s.threads)
    && (a.ReviewCase? ==> ValidReview(a.review))
  }

  ghost function Reached(env: Environment, actions: seq<Action>): System {
    if actions == [] then System(map[], map[], [])
    else Step(Reached(env, actions[..|actions| - 1]), env, actions[|actions| - 1])
  }

  ghost predicate LegalRun(env: Environment, actions: seq<Action>) {
    forall i :: 0 <= i < |actions| ==> Legal(Reached(env, actions[..i]), actions[i])
  }

  // ----- every reachable system -----

  ghost predicate QuiescentAt(s: System, id: nat) {
    id in s.cases && id in s.threads && Quiescent(At(s, id)) && s.cases[id].caseId == id
  }

  ghost predicate Sound(s: System) {
    && ValidCases(s.cases) && NoneProhibited(s.executions)
    && (forall id :: id in s.cases ==> QuiescentAt(s, id))
  }

  lemma PutSound(s: System, id: nat, l: Local)
    requires Sound(s) && Quiescent(l) && l.c.caseId == id
    requires id in s.cases ==> SameAlert(l.c, s.cases[id].alertId, s.cases[id].tenantId)
    requires id !in s.cases ==> Existing(s.cases, l.c.alertId, l.c.tenantId).None?
    ensures Sound(Put(s, id, l))
  {
    var t := Put(s, id, l);
    forall k | k in t.cases ensures QuiescentAt(t, k) {
      if k != id {
        assert QuiescentAt(s, k);
      }
    }
  }

  /** What a run never changes about its case. */
  ghost predicate SameIdentity(a: CaseData, b: CaseData) {
    && a.caseId == b.caseId && a.alertId == b.alertId && a.customerId == b.customerId
    && a.tenantId == b.tenantId && a.investigatorId == b.investigatorId && a.reviewerId == b.reviewerId
  }

  lemma DraftSameIdentity(l: Local, d: Drafting, executions: seq<Execution>)
    ensures SameIdentity(l.c, DraftAndValidate(l, d, executions).c)
  {
    assert SameIdentity(l.c, Draft(l, d).c);
  }

  lemma LoadSameIdentity(l: Local, env: Environment, q: Retrieval)
    ensures SameIdentity(l.c, Load(l, env.bank, env.select, q).c)
  {
  }

  lemma CollectSameIdentity(l: Local, payload: Payload, env: Environment, q: Retrieval)
    ensures SameIdentity(l.c, Collect(l, payload, env, q).c)
  {
  }

  lemma ReviewSameIdentity(l: Local, payload: Payload, fault: Fault)
    ensures SameIdentity(l.c, HumanReview(l, payload, fault).c)
  {
  }

  lemma RunSameIdentity(l: Local, env: Environment, q: Retrieval, d: Drafting, executions: seq<Execution>)
    ensures SameIdentity(l.c, Run(l, env, q, d, executions).c)
  {
    LoadSameIdentity(l, env, q);
    DraftSameIdentity(Load(l, env.bank, env.select, q), d, executions);
  }

  lemma ResumeSameIdentity(l: Local, payload: Payload, env: Environment, q: Retrieval, fault: Fault, d: Drafting,
                           executions: seq<Execution>)
    ensures SameIdentity(l.c, Resume(l, payload, env, q, fault, d, executions).c)
  {
    CollectSameIdentity(l, payload, env, q);
    ReviewSameIdentity(l, payload, fault);
    DraftSameIdentity(Collect(l, payload, env, q), d, executions);
    DraftSameIdentity(HumanReview(l, payload, fault), d, executions);
  }

  lemma InputIsClear(c: CaseData, actorId: string, earlier: Option<Checkpoint>)
    requires Reviewed(c)
    ensures Clear(Local(c, Input(c, actorId, earlier)))
  {
  }

  lemma RunCaseSound(s: System, c: CaseData, actorId: string, env: Environment, q: Retrieval, d: Drafting)
    requires Sound(s) && Reviewed(c)
    requires if c.caseId in s.cases then s.cases[c.caseId] == c else Existing(s.cases, c.alertId, c.tenantId).None?
    ensures Sound(RunCase(s, c, actorId, env, q, d))
  {
    var l := Local(c, Input(c, actorId, Earlier(s, c.caseId)));
    var executions := s.executions + ReadAll(env.bank, AuthOf(l.cp), c.alertId).executions;
    ReadAllIsSafe(env.bank, AuthOf(l.cp), c.alertId);
    InputIsClear(c, actorId, Earlier(s, c.caseId));
    RunRests(l, env, q, d, executions);
    RunSameIdentity(l, env, q, d, executions);
    PutSound(s, c.caseId, Run(l, env, q, d, executions));
    var t := Put(s, c.caseId, Run(l, env, q, d, executions));
    MoreExecutions(t, executions);
  }

  lemma MoreExecutions(s: System, executions: seq<Execution>)
    requires Sound(s) && NoneProhibited(executions)
    ensures Sound(s.(executions := executions))
  {
    forall id | id in s.cases ensures QuiescentAt(s.(executions := executions), id) {
      assert QuiescentAt(s, id);
    }
  }

  lemma StartSound(s: System, env: Environment, a: Action)
    requires Sound(s) && a.Start? && Legal(s, a)
    ensures Sound(StartCase(s, env, a))
  {
    var created := Created(s.cases, env.bank, a.alertId, a.tenantId, a.actorId, a.id);
    if created.Ok? {
      var c := created.value.0;
      if !created.value.1 {
        var id := Existing(s.cases, a.alertId, a.tenantId).value;
        assert QuiescentAt(s, id);
      }
      if created.value.1 || (a.rerunFailed && c.status == FAILED) {
        RunCaseSound(s, c, a.actorId, env, a.q, a.d);
      }
    }
  }

  lemma ResumeSound(s: System, env: Environment, id: nat, payload: Payload, q: Retrieval, fault: Fault, d: Drafting)
    requires Sound(s) && id in s.cases && s.cases[id].status != HARD_BLOCKED
    requires payload.OfReview? ==> ValidReview(payload.review)
    ensures id in s.threads
    ensures Sound(Put(s, id, Resume(At(s, id), payload, env, q, fault, d, s.executions)))
  {
    assert QuiescentAt(s, id);
    ResumeRests(At(s, id), payload, env, q, fault, d, s.executions);
    ResumeSameIdentity(At(s, id), payload, env, q, fault, d, s.executions);
    PutSound(s, id, Resume(At(s, id), payload, env, q, fault, d, s.executions));
  }

  lemma SecuritySound(s: System, id: nat, event: SecurityEvent, next: Pc)
    requires Sound(s) && id in s.cases && IsCritical(event)
    ensures id in s.threads && Sound(Put(s, id, Revoke(At(s, id), event, next)))
  {
    assert QuiescentAt(s, id);
    SecurityEventRests(At(s, id), event, next);
    PutSound(s, id, Revoke(At(s, id), event, next));
  }

  lemma ClaimSound(s: System, id: nat, reviewerId: string)
    requires Sound(s) && id in s.cases
    ensures Sound(s.(cases := s.cases[id := s.cases[id].(reviewerId := Some(reviewerId))]))
  {
    assert QuiescentAt(s, id);
    var l := Local(s.cases[id].(reviewerId := Some(reviewerId)), s.threads[id]);
    PutSound(s, id, l);
    assert Put(s, id, l) == s.(cases := s.cases[id := l.c]);
  }

  lemma ResetSound(s: System, id: nat, purged: bool)
    requires Sound(s)
    ensures Sound(s.(cases := s.cases - {id}, threads := if purged then s.threads - {id} else s.threads))
  {
    var t := s.(cases := s.cases - {id}, threads := if purged then s.threads - {id} else s.threads);
    forall k | k in t.cases ensures QuiescentAt(t, k) {
      assert QuiescentAt(s, k);
    }
  }

  lemma StepSound(s: System, env: Environment, a: Action)
    requires Sound(s) && Legal(s, a)
    ensures Sound(Step(s, env, a))
  {
    match a
    case Start(_, _, _, _, _, _, _) => StartSound(s, env, a);
    case ReviewCase(id, review, q, fault, d) =>
      if AcceptsReview(s, id, review) { ResumeSound(s, env, id, OfReview(review), q, fault, d); }
    case SupplyInformation(id, submission, q, d) =>
      if AcceptsInformation(s, id) { ResumeSound(s, env, id, OfSubmission(submission), q, NoFault, d); }
    case AssignReviewer(id, reviewerId) =>
      if id in s.cases { ClaimSound(s, id, reviewerId); }
    case Reset(id, purged) => ResetSound(s, id, purged);
    case RecordSecurityEvent(id, event, next) =>
      if IsCritical(event) && id in s.cases { SecuritySound(s, id, event, next); }
  }

  /** Every reachable system is sound, whatever the model, the people and the failures do. */
  lemma {:induction false} RunsStaySound(env: Environment, actions: seq<Action>)
    requires LegalRun(env, actions)
    ensures Sound(Reached(env, actions))
  {
    if actions != [] {
      var before := actions[..|actions| - 1];
      forall i | 0 <= i < |before| ensures Legal(Reached(env, before[..i]), before[i]) {
        assert before[..i] == actions[..i];
      }
      RunsStaySound(env, before);
      assert actions[..|actions| - 1] == before;
      StepSound(Reached(env, before), env, actions[|actions| - 1]);
    }
  }

  // ----- consequences for every reachable system -----

  /** A draft put before people cites only what was retrieved for its case, and a policy if there is one. */
  lemma WaitingDraftsAreGrounded(env: Environment, actions: seq<Action>, id: nat)
    requires LegalRun(env, actions) && id in Reached(env, actions).cases
             && Waiting(Reached(env, actions).cases[id].status)
    ensures id in Reached(env, actions).threads
    ensures var c, cp := Reached(env, actions).cases[id], Reached(env, actions).threads[id];
            && cp.recommendation.Some? && c.recommendation == cp.recommendation && c.version == cp.version
            && Grounded(cp.recommendation.value, cp.evidence, cp.policies)
            && AllInScope(cp.evidence, c.caseId, c.customerId)
  {
    RunsStaySound(env, actions);
    assert QuiescentAt(Reached(env, actions), id);
  }

  /** A waiting case waits for information exactly if its draft asks for it, and else for a reviewer. */
  lemma WaitsForWhatTheDraftAsks(env: Environment, actions: seq<Action>, id: nat)
    requires LegalRun(env, actions) && id in Reached(env, actions).cases
    requires Waiting(Reached(env, actions).cases[id].status)
    ensures id in Reached(env, actions).threads && Reached(env, actions).threads[id].recommendation.Some?
    ensures Reached(env, actions).cases[id].status == WAITING_FOR_INFORMATION <==>
            Reached(env, actions).threads[id].recommendation.value.kind == REQUEST_MORE_INFORMATION
  {
    RunsStaySound(env, actions);
    assert QuiescentAt(Reached(env, actions), id);
  }

  /** Review versions strictly increase, and a review of a waiting draft is never a duplicate. */
  lemma ReviewsNeverRepeat(env: Environment, actions: seq<Action>, id: nat, review: Review)
    requires LegalRun(env, actions) && id in Reached(env, actions).cases
    ensures var c := Reached(env, actions).cases[id];
            && Increasing(c.reviews)
            && (AcceptsReview(Reached(env, actions), id, review) && Waiting(c.status) ==> !Recorded(c.reviews, review))
  {
    RunsStaySound(env, actions);
    assert QuiescentAt(Reached(env, actions), id);
    if Waiting(Reached(env, actions).cases[id].status) {
      NeverDuplicate(At(Reached(env, actions), id), review);
      assert AcceptsReview(Reached(env, actions), id, review) ==>
          review.(version := Reached(env, actions).threads[id].version) == review;
    }
  }

  /** The approvals among the reviews. */
  function Approvals(reviews: seq<Review>): seq<Review> {
    Filter(reviews, (r: Review) => Approves(r))
  }

  /** What the runtime monitor computes. */
  function ReleaseGateEnforced(c: CaseData): bool {
    c.status != COMPLETED || Approvals(c.reviews) != []
  }

  /** A completed case was approved in its last version: the release gate always reads as enforced. */
  lemma CompletedCasesWereApproved(env: Environment, actions: seq<Action>, id: nat)
    requires LegalRun(env, actions) && id in Reached(env, actions).cases
    ensures ReleaseGateEnforced(Reached(env, actions).cases[id])
    ensures Reached(env, actions).cases[id].status == COMPLETED ==>
              id in Reached(env, actions).threads && Released(At(Reached(env, actions), id))
  {
    RunsStaySound(env, actions);
    assert QuiescentAt(Reached(env, actions), id);
    var c := Reached(env, actions).cases[id];
    if c.status == COMPLETED {
      assert c.reviews[|c.reviews| - 1] in Approvals(c.reviews);
    }
  }

  /** A case is hard blocked exactly when its checkpoint lists hard blocks. */
  lemma HardBlockedExactly(env: Environment, actions: seq<Action>, id: nat)
    requires LegalRun(env, actions) && id in Reached(env, actions).cases
    ensures id in Reached(env, actions).threads
    ensures Reached(env, actions).cases[id].status == HARD_BLOCKED <==>
            Reached(env, actions).threads[id].hardBlocks != {}
  {
    RunsStaySound(env, actions);
    assert QuiescentAt(Reached(env, actions), id);
  }

  /** The two scope checks of validation never fire on their own. */
  lemma ScopeChecksNeverFire(env: Environment, actions: seq<Action>, id: nat)
    requires LegalRun(env, actions) && id in Reached(env, actions).cases
    ensures id in Reached(env, actions).threads
    ensures !CrossScope(Reached(env, actions).threads[id])
    ensures !ProhibitedExecuted(Reached(env, actions).executions, id)
  {
    RunsStaySound(env, actions);
    assert QuiescentAt(Reached(env, actions), id);
    NoFalseAlarm(Reached(env, actions).threads[id], Reached(env, actions).executions);
  }

  /** A call leaves this case and its thread as they were. */
  predicate Kept(s: System, t: System, id: nat) {
    && id in s.cases && id in s.threads && id in t.cases && id in t.threads
    && t.cases[id] == s.cases[id] && t.threads[id] == s.threads[id]
  }

  lemma RunCaseElsewhere(s: System, c: CaseData, actorId: string, env: Environment, q: Retrieval, d: Drafting, id: nat)
    requires id in s.cases && id in s.threads && id != c.caseId
    ensures Kept(s, RunCase(s, c, actorId, env, q, d), id)
  {
  }

  /** Starting touches only a new case or a failed one. */
  lemma StartElsewhere(s: System, env: Environment, a: Action, id: nat)
    requires Sound(s) && a.Start? && Legal(s, a) && id in s.cases && s.cases[id].status != FAILED
    ensures Kept(s, StartCase(s, env, a), id)
  {
    assert QuiescentAt(s, id);
    var created := Created(s.cases, env.bank, a.alertId, a.tenantId, a.actorId, a.id);
    if created.Ok? {
      var c := created.value.0;
      if !created.value.1 {
        assert QuiescentAt(s, Existing(s.cases, a.alertId, a.tenantId).value);
      }
      if created.value.1 || (a.rerunFailed && c.status == FAILED) {
        RunCaseElsewhere(s, c, a.actorId, env, a.q, a.d, id);
      }
    }
  }

  /** The other calls touch only the case they name. */
  lemma StepElsewhere(s: System, env: Environment, a: Action, id: nat)
    requires !a.Start? && a.id != id && id in s.cases && id in s.threads
    ensures Kept(s, Step(s, env, a), id)
  {
  }

  /** The case is still hard blocked, for at least the reasons it had. */
  predicate KeepsBlock(s: System, t: System, id: nat) {
    && id in s.threads && id in t.cases && id in t.threads
    && t.cases[id].status == HARD_BLOCKED && s.threads[id].hardBlocks <= t.threads[id].hardBlocks
  }

  lemma RefusedWhileBlocked(s: System, env: Environment, a: Action, id: nat)
    requires id in s.cases && id in s.threads && s.cases[id].status == HARD_BLOCKED
    requires (a.ReviewCase? || a.SupplyInformation? || a.AssignReviewer?) && a.id == id
    ensures KeepsBlock(s, Step(s, env, a), id)
  {
  }

  lemma EventKeepsBlock(s: System, env: Environment, a: Action, id: nat)
    requires QuiescentAt(s, id) && s.cases[id].status == HARD_BLOCKED && a.RecordSecurityEvent? && a.id == id
    ensures KeepsBlock(s, Step(s, env, a), id)
  {
    if IsCritical(a.event) {
      SecurityEventRests(At(s, id), a.event, a.next);
    }
  }

  /** Only a reset ends a hard block; until then its reasons only grow. */
  lemma BlocksLast(s: System, env: Environment, a: Action, id: nat)
    requires Sound(s) && Legal(s, a) && id in s.cases && s.cases[id].status == HARD_BLOCKED
    ensures KeepsBlock(s, Step(s, env, a), id) || (a.Reset? && a.id == id)
  {
    assert QuiescentAt(s, id);
    if a.Start? {
      StartElsewhere(s, env, a, id);
    } else if a.id != id {
      StepElsewhere(s, env, a, id);
    } else if a.RecordSecurityEvent? {
      EventKeepsBlock(s, env, a, id);
    } else if !a.Reset? {
      RefusedWhileBlocked(s, env, a, id);
    }
  }

  /** Evidence and reviews of the case are what they were, or one item longer by what the call brings. */
  predicate Appended(s: System, t: System, id: nat, env: Environment, a: Action) {
    && id in s.cases && id in s.threads && id in t.cases && id in t.threads
    && (t.threads[id].evidence == s.threads[id].evidence
        || (a.SupplyInformation? && a.id == id
            && t.threads[id].evidence == s.threads[id].evidence + [Supplement(env.uuid5, s.threads[id], a.submission)]))
    && (t.cases[id].reviews == s.cases[id].reviews
        || (a.ReviewCase? && a.id == id
            && t.cases[id].reviews == s.cases[id].reviews + [a.review.(version := s.threads[id].version)]))
  }

  lemma ReviewAppends(s: System, env: Environment, a: Action, id: nat)
    requires QuiescentAt(s, id) && NoneProhibited(s.executions) && Legal(s, a) && a.ReviewCase? && a.id == id
    ensures Appended(s, Step(s, env, a), id, env, a)
  {
    if AcceptsReview(s, id, a.review) {
      ResumeRests(At(s, id), OfReview(a.review), env, a.q, a.fault, a.d, s.executions);
    }
  }

  lemma InformationAppends(s: System, env: Environment, a: Action, id: nat)
    requires QuiescentAt(s, id) && NoneProhibited(s.executions) && a.SupplyInformation? && a.id == id
    ensures Appended(s, Step(s, env, a), id, env, a)
  {
    if AcceptsInformation(s, id) {
      ResumeRests(At(s, id), OfSubmission(a.submission), env, a.q, NoFault, a.d, s.executions);
    }
  }

  lemma OthersAppendNothing(s: System, env: Environment, a: Action, id: nat)
    requires id in s.cases && id in s.threads && (a.AssignReviewer? || a.Reset? || a.RecordSecurityEvent?) && a.id == id
    ensures id in Step(s, env, a).cases ==> Appended(s, Step(s, env, a), id, env, a)
  {
  }

  /** Within a thread evidence is only appended, one submission at a time, and reviews one at a time. */
  lemma HistoryIsAppended(s: System, env: Environment, a: Action, id: nat)
    requires Sound(s) && Legal(s, a) && id in s.cases && !a.Start? && id in Step(s, env, a).cases
    ensures Appended(s, Step(s, env, a), id, env, a)
  {
    assert QuiescentAt(s, id);
    if a.id != id {
      StepElsewhere(s, env, a, id);
    } else if a.ReviewCase? {
      ReviewAppends(s, env, a, id);
    } else if a.SupplyInformation? {
      InformationAppends(s, env, a, id);
    } else {
      OthersAppendNothing(s, env, a, id);
    }
  }

  /** What an approval of the current version makes of the waiting case. */
  lemma ApprovalReleases(l: Local, review: Review, env: Environment, q: Retrieval, d: Drafting,
                         executions: seq<Execution>)
    requires Quiescent(l) && l.c.status == WAITING_FOR_HUMAN_REVIEW
    requires Approves(review) && review.version == l.c.version
    ensures Resume(l, OfReview(review), env, q, NoFault, d, executions)
            == Local(Text(WithReview(l.c, review), review).(status := COMPLETED),
                     l.cp.(feedback := None, status := COMPLETED, pc := Ended))
  {
    NeverDuplicate(l, review);
  }

  /** An edited text is released as the reviewer wrote it: it is not validated. */
  lemma EditedTextIsReleasedAsWritten(s: System, env: Environment, id: nat, review: Review, q: Retrieval, d: Drafting)
    requires Sound(s) && id in s.cases && s.cases[id].status == WAITING_FOR_HUMAN_REVIEW
    requires ValidReview(review) && review.action == EDIT_AND_APPROVE && review.version == s.cases[id].version
    ensures var t := Step(s, env, ReviewCase(id, review, q, NoFault, d));
            && id in t.cases && t.cases[id].status == COMPLETED && t.cases[id].recommendation == review.edited
            && t.cases[id].version == s.cases[id].version + 1
  {
    assert QuiescentAt(s, id);
    ApprovalReleases(At(s, id), review, env, q, d, s.executions);
  }

  /** A plain approval completes the case and changes nothing else about it. */
  lemma ApprovalCompletes(s: System, env: Environment, id: nat, review: Review, q: Retrieval, d: Drafting)
    requires Sound(s) && id in s.cases && s.cases[id].status == WAITING_FOR_HUMAN_REVIEW
    requires ValidReview(review) && review.action == APPROVE && review.version == s.cases[id].version
    ensures var t := Step(s, env, ReviewCase(id, review, q, NoFault, d));
            id in t.cases && t.cases[id] == WithReview(s.cases[id], review).(status := COMPLETED)
  {
    assert QuiescentAt(s, id);
    ApprovalReleases(At(s, id), review, env, q, d, s.executions);
  }

  /** A rejection without faults is recorded, and the case ends as the model's new answer asks. */
  lemma RejectionIsReworked(s: System, env: Environment, id: nat, review: Review, q: Retrieval, d: Drafting)
    requires Sound(s) && id in s.cases && s.cases[id].status == WAITING_FOR_HUMAN_REVIEW
    requires ValidReview(review) && review.action == REJECT_AND_REQUEST_REWORK && review.version == s.cases[id].version
    requires d.draftFault == NoFault && d.validateFault == NoFault
    ensures var t := Step(s, env, ReviewCase(id, review, q, NoFault, d));
            && id in s.threads && id in t.cases && id in t.threads && EndsFor(At(t, id), d.recommendation)
            && t.cases[id].version == s.cases[id].version + 1
            && t.cases[id].reviews == s.cases[id].reviews + [review]
            && t.threads[id].evidence == s.threads[id].evidence
  {
    assert QuiescentAt(s, id);
    ReworkEnds(At(s, id), review, env, q, d, s.executions);
  }

  /** A review sent while information is awaited fails the case instead of being refused. */
  lemma EarlyReviewFailsTheCase(s: System, env: Environment, id: nat, review: Review, q: Retrieval, fault: Fault,
                                d: Drafting)
    requires Sound(s) && id in s.cases && s.cases[id].status == WAITING_FOR_INFORMATION
    requires review.version == s.cases[id].version
    ensures var t := Step(s, env, ReviewCase(id, review, q, fault, d));
            t.cases[id] == s.cases[id].(status := FAILED)
  {
    assert QuiescentAt(s, id);
  }

  /** Whether some stage after the reviewer's answer raises. */
  predicate Faultless(review: Review, fault: Fault, d: Drafting) {
    && fault == NoFault
    && (review.action == REJECT_AND_REQUEST_REWORK ==> d.draftFault == NoFault && d.validateFault == NoFault)
  }

  /**
   * Exactly when an accepted review leaves the case FAILED: it was FAILED already, information was
   * awaited instead of a review, or a stage on the way raises.
   */
  lemma ReviewFailsExactly(s: System, env: Environment, id: nat, review: Review, q: Retrieval, fault: Fault,
                           d: Drafting)
    requires Sound(s) && ValidReview(review) && AcceptsReview(s, id, review)
    ensures var t := Step(s, env, ReviewCase(id, review, q, fault, d));
            && id in t.cases
            && (t.cases[id].status == FAILED <==>
                || s.cases[id].status == FAILED
                || s.cases[id].status == WAITING_FOR_INFORMATION
                || (s.cases[id].status == WAITING_FOR_HUMAN_REVIEW && !Faultless(review, fault, d)))
  {
    assert QuiescentAt(s, id);
    var l := At(s, id);
    if l.c.status == WAITING_FOR_HUMAN_REVIEW {
      NeverDuplicate(l, review);
      ReviewStageFailsExactly(l, review, fault);
      var reviewed := HumanReview(l, OfReview(review), fault);
      if reviewed.cp.status == REWORK_REQUIRED {
        RedraftFailsExactly(reviewed, d, s.executions);
      }
    }
  }

  lemma ReviewStageFailsExactly(l: Local, review: Review, fault: Fault)
    requires l.c.status == l.cp.status == WAITING_FOR_HUMAN_REVIEW
             && !Recorded(l.c.reviews, review.(version := l.cp.version))
    ensures var r := HumanReview(l, OfReview(review), fault);
            && (r.c.status == FAILED <==> fault != NoFault) && r.c.status == r.cp.status
            && (r.c.status == REWORK_REQUIRED <==> fault == NoFault && review.action == REJECT_AND_REQUEST_REWORK)
  {
  }

  lemma RedraftFailsExactly(l: Local, d: Drafting, executions: seq<Execution>)
    requires l.cp.status == l.c.status == REWORK_REQUIRED
    ensures DraftAndValidate(l, d, executions).c.status == FAILED <==>
            d.draftFault != NoFault || d.validateFault != NoFault
  {
  }

  // ----- which calls do anything -----

  /** A case that rests can be reset; its thread goes with it if the graph library deletes it. */
  lemma ResetMeans(s: System, env: Environment, id: nat, purged: bool)
    ensures var t, can := Step(s, env, Reset(id, purged)), id in s.cases && s.cases[id].status !in {OPEN, RUNNING};
            && (!can ==> t == s)
            && (can ==>
                  && id !in t.cases && t.cases == s.cases - {id} && t.executions == s.executions
                  && (purged ==> t.threads == s.threads - {id}) && (!purged ==> t.threads == s.threads))
  {
  }

  /** A review of a blocked or unknown case or of another version, and information nobody waits for, change nothing. */
  lemma RefusedChangesNothing(s: System, env: Environment, a: Action)
    requires a.ReviewCase? ==>
               a.id !in s.cases || s.cases[a.id].status == HARD_BLOCKED || a.review.version != s.cases[a.id].version
    requires a.SupplyInformation? ==> a.id !in s.cases || s.cases[a.id].status != WAITING_FOR_INFORMATION
    requires a.AssignReviewer? ==> a.id !in s.cases || s.cases[a.id].reviewerId !in {None, Some(a.reviewerId)}
    requires a.RecordSecurityEvent? ==> a.id !in s.cases || a.event.OtherEvent?
    requires !a.Start? && !a.Reset?
    ensures Step(s, env, a) == s
  {
  }

  /** The first claim of a review is kept. */
  lemma AssignMeans(s: System, env: Environment, id: nat, reviewerId: string)
    requires id in s.cases && s.cases[id].reviewerId in {None, Some(reviewerId)}
    ensures var t := Step(s, env, AssignReviewer(id, reviewerId));
            && id in t.cases && t.cases[id] == s.cases[id].(reviewerId := Some(reviewerId))
            && t.cases - {id} == s.cases - {id} && t.threads == s.threads && t.executions == s.executions
  {
  }

  /** A critical event joins the others and blocks the case, whatever its status. */
  lemma EventMeans(s: System, env: Environment, id: nat, event: SecurityEvent, next: Pc)
    requires id in s.cases && id in s.threads && !event.OtherEvent?
    ensures var t := Step(s, env, RecordSecurityEvent(id, event, next));
            && id in t.cases && id in t.threads
            && t.cases[id] == s.cases[id].(status := HARD_BLOCKED) && t.cases - {id} == s.cases - {id}
            && t.threads[id].status == HARD_BLOCKED && t.threads[id].pc == next
            && t.threads[id].securityEvents == s.threads[id].securityEvents + {event}
            && t.threads[id].controls == s.threads[id].controls && CriticalEvent(event) in t.threads[id].hardBlocks
            && t.threads - {id} == s.threads - {id} && t.executions == s.executions
  {
  }

  /**
   * Nobody else takes over an alert of the tenant, and a case of one's own is run again only if it failed and
   * is asked to.
   */
  lemma KnownAlertStarts(s: System, env: Environment, a: Action, id: nat)
    requires ValidCases(s.cases) && a.Start? && id in s.cases && SameAlert(s.cases[id], a.alertId, a.tenantId)
    ensures s.cases[id].investigatorId != a.actorId || !a.rerunFailed || s.cases[id].status != FAILED ==>
              Step(s, env, a) == s
    ensures s.cases[id].investigatorId == a.actorId && a.rerunFailed && s.cases[id].status == FAILED ==>
              Step(s, env, a) == RunCase(s, s.cases[id], a.actorId, env, a.q, a.d)
  {
    assert Existing(s.cases, a.alertId, a.tenantId) == Some(id);
  }

  /** An alert that the bank does not know starts nothing. */
  lemma UnknownAlertStarts(s: System, env: Environment, a: Action)
    requires a.Start? && forall id :: id in s.cases ==> !SameAlert(s.cases[id], a.alertId, a.tenantId)
    requires forall r :: r in env.bank.alerts ==> r.id != a.alertId
    ensures Step(s, env, a) == s
  {
    assert forall r :: r in env.bank.alerts ==> !HasId(a.alertId)(r);
    assert FirstWhere(env.bank.alerts, HasId(a.alertId)).None?;
  }

  /** The first start of another creates and runs a case of its customer for the actor. */
  lemma NewAlertStarts(s: System, env: Environment, a: Action, r: Record)
    requires a.Start? && forall id :: id in s.cases ==> !SameAlert(s.cases[id], a.alertId, a.tenantId)
    requires FirstWhere(env.bank.alerts, HasId(a.alertId)) == Some(r)
    ensures var t := Step(s, env, a);
            && a.id in t.cases && t.cases - {a.id} == s.cases - {a.id}
            && t.cases[a.id].alertId == a.alertId && t.cases[a.id].tenantId == a.tenantId
            && t.cases[a.id].investigatorId == a.actorId && t.cases[a.id].reviewerId.None?
            && t.cases[a.id].customerId == r.customerId
  {
    assert HasId(a.alertId)(r);
    var c := NewCase(a.id, r, a.tenantId, a.actorId);
    assert Created(s.cases, env.bank, a.alertId, a.tenantId, a.actorId, a.id) == Ok((c, true));
    RunCaseOnly(s, c, a.actorId, env, a.q, a.d);
  }

  /** A run touches its own case only, and leaves its identity. */
  lemma RunCaseOnly(s: System, c: CaseData, actorId: string, env: Environment, q: Retrieval, d: Drafting)
    ensures var t := RunCase(s, c, actorId, env, q, d);
            && c.caseId in t.cases && t.cases - {c.caseId} == s.cases - {c.caseId} && SameIdentity(c, t.cases[c.caseId])
            && t.executions
               == s.executions
                  + ReadAll(env.bank, Authorization(c.caseId, c.customerId, actorId), c.alertId).executions
  {
    var l := Local(c, Input(c, actorId, Earlier(s, c.caseId)));
    RunSameIdentity(l, env, q, d, s.executions + ReadAll(env.bank, AuthOf(l.cp), c.alertId).executions);
  }
}
