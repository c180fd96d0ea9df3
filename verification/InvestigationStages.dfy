/** What one run of the graph keeps, wherever it fails and whatever the model and the people answer. */
module InvestigationStages {
  import opened Prelude
  import opened CaseModel
  import opened CaseRepository
  import opened InvestigationGraph
  import SessionKeys
  import PS = PolicySelection
  import PA = PolicyApplicability

  predicate Waiting(status: Status) {
    status == WAITING_FOR_INFORMATION || status == WAITING_FOR_HUMAN_REVIEW
  }

  predicate Resting(status: Status) {
    Waiting(status) || status == COMPLETED || status == FAILED || status == HARD_BLOCKED
  }

  ghost predicate SameCase(l: Local) {
    && l.cp.caseId == l.c.caseId && l.cp.alertId == l.c.alertId && l.cp.customerId == l.c.customerId
    && AllInScope(l.cp.evidence, l.cp.caseId, l.cp.customerId)
  }

  ghost predicate Increasing(reviews: seq<Review>) {
    forall i, j :: 0 <= i < j < |reviews| ==> reviews[i].version < reviews[j].version
  }

  ghost predicate UpTo(reviews: seq<Review>, version: nat) {
    forall i :: 0 <= i < |reviews| ==> reviews[i].version <= version
  }

  /** At most one review per version so far, none of a version to come. */
  ghost predicate Reviewed(c: CaseData) {
    Increasing(c.reviews) && UpTo(c.reviews, c.version)
  }

  /**
   * The case holds the draft of the checkpoint, which is grounded and has not been reviewed yet. It
   * waits for information exactly if the draft asks for it.
   */
  ghost predicate AwaitsAnswer(l: Local) {
    && l.cp.recommendation.Some? && Grounded(l.cp.recommendation.value, l.cp.evidence, l.cp.policies)
    && l.c.recommendation == l.cp.recommendation && l.c.version == l.cp.version
    && (l.c.status == WAITING_FOR_INFORMATION <==> l.cp.recommendation.value.kind == REQUEST_MORE_INFORMATION)
    && forall i :: 0 <= i < |l.c.reviews| ==> l.c.reviews[i].version < l.c.version
  }

  predicate Approves(r: Review) {
    r.action == APPROVE || r.action == EDIT_AND_APPROVE
  }

  /**
   * The last review approved the checkpoint's draft, which is grounded; the case holds that draft,
   * or the reviewer's text.
   */
  ghost predicate Released(l: Local) {
    && l.cp.recommendation.Some? && Grounded(l.cp.recommendation.value, l.cp.evidence, l.cp.policies)
    && l.c.reviews != []
    && var last := l.c.reviews[|l.c.reviews| - 1];
       Approves(last) && last.version == l.cp.version
       && l.c.recommendation == if last.edited.Some? then last.edited else l.cp.recommendation
  }

  predicate Placed(l: Local) {
    l.c.status == HARD_BLOCKED
    || ((l.cp.pc == AtInformation <==> l.c.status == WAITING_FOR_INFORMATION)
        && (l.cp.pc == AtReview <==> l.c.status == WAITING_FOR_HUMAN_REVIEW))
  }

  ghost predicate Blocking(l: Local) {
    && l.cp.hardBlocks == HardBlocks(l.cp.controls, l.cp.securityEvents)
    && (l.c.status != HARD_BLOCKED ==> l.cp.securityEvents == {})
    && (l.c.status == HARD_BLOCKED <==> l.cp.hardBlocks != {})
  }

  /** What holds whenever the thread is interrupted or has ended. */
  ghost predicate Quiescent(l: Local) {
    && SameCase(l) && Reviewed(l.c) && l.cp.status == l.c.status && Resting(l.c.status) && Placed(l) && Blocking(l)
    && (Waiting(l.c.status) ==> AwaitsAnswer(l))
    && (l.c.status == COMPLETED ==> Released(l))
  }

  /** What holds between the stages of a run. */
  ghost predicate Clear(l: Local) {
    && SameCase(l) && Reviewed(l.c)
    && l.cp.securityEvents == {} && l.cp.hardBlocks == {} && HardBlocks(l.cp.controls, {}) == {}
  }

  lemma FailedRests(l: Local, stage: Stage)
    requires Clear(l)
    ensures Quiescent(Failed(l, stage))
  {
  }

  lemma NoFalseAlarm(cp: Checkpoint, executions: seq<Execution>)
    requires AllInScope(cp.evidence, cp.caseId, cp.customerId) && NoneProhibited(executions)
    ensures !CrossScope(cp) && !ProhibitedExecuted(executions, cp.caseId)
  {
    ByIdScoped(cp);
  }

  lemma ByIdScoped(cp: Checkpoint)
    requires AllInScope(cp.evidence, cp.caseId, cp.customerId)
    ensures !CrossScope(cp)
  {
    forall id | id in ById(cp.evidence) ensures InScope(ById(cp.evidence)[id], cp.caseId, cp.customerId) {
      var k := ByIdAt(cp.evidence, id);
    }
  }

  lemma {:induction false} ByIdAt(evidence: seq<PA.Item>, id: string) returns (k: nat)
    requires id in ById(evidence)
    ensures k < |evidence| && ById(evidence)[id] == evidence[k]
  {
    var n := |evidence| - 1;
    if evidence[n].evidenceId == id {
      k := n;
    } else {
      k := ByIdAt(evidence[..n], id);
    }
  }

  // ----- drafting and validating -----

  lemma DraftKeeps(l: Local, d: Drafting)
    requires Clear(l) && l.cp.status != FAILED
    ensures var r := Draft(l, d);
            if r.cp.status == FAILED then Quiescent(r)
            else Clear(r) && r.cp.recommendation == Some(d.recommendation) && r.c.recommendation == r.cp.recommendation
                 && r.c.version == r.cp.version == l.c.version + 1 && r.c.reviews == l.c.reviews
    ensures Draft(l, d).cp.evidence == l.cp.evidence && Draft(l, d).c.reviews == l.c.reviews
  {
    if d.draftFault == BeforeWrites {
      FailedRests(l, DRAFT_RECOMMENDATION);
    } else if d.draftFault != NoFault {
      FailedRests(l.(c := WithDraft(l.c, d.recommendation)), DRAFT_RECOMMENDATION);
    }
  }

  /** Validation releases a draft to people exactly when it is grounded. */
  lemma ValidateRests(l: Local, executions: seq<Execution>, fault: Fault)
    requires Clear(l) && NoneProhibited(executions)
    requires l.cp.recommendation.Some? && l.c.recommendation == l.cp.recommendation && l.c.version == l.cp.version
    requires forall i :: 0 <= i < |l.c.reviews| ==> l.c.reviews[i].version < l.c.version
    ensures Quiescent(Validate(l, executions, fault))
    ensures Waiting(Validate(l, executions, fault).c.status) <==>
            fault == NoFault && Grounded(l.cp.recommendation.value, l.cp.evidence, l.cp.policies)
  {
    if fault != NoFault {
      FailedRests(l, VALIDATE_CONTROLS);
    } else {
      NoFalseAlarm(l.cp, executions);
      assert ObservedEvents(l.cp, executions) == {};
      GroundedExactly(l.cp.recommendation.value, l.cp.evidence, l.cp.policies);
    }
  }

  /** The case rests as the answer of the model asks: a blocked draft, more information, or a review. */
  ghost predicate EndsFor(l: Local, answer: Recommendation) {
    && l.cp.recommendation == l.c.recommendation == Some(answer) && l.cp.version == l.c.version
    && (l.c.status == HARD_BLOCKED <==> !Grounded(answer, l.cp.evidence, l.cp.policies))
    && (l.c.status == WAITING_FOR_INFORMATION <==>
        Grounded(answer, l.cp.evidence, l.cp.policies) && answer.kind == REQUEST_MORE_INFORMATION)
    && (l.c.status == WAITING_FOR_HUMAN_REVIEW <==>
        Grounded(answer, l.cp.evidence, l.cp.policies) && answer.kind != REQUEST_MORE_INFORMATION)
  }

  lemma ValidateEnds(l: Local, executions: seq<Execution>)
    requires Clear(l) && NoneProhibited(executions)
    requires l.cp.recommendation.Some? && l.c.recommendation == l.cp.recommendation && l.c.version == l.cp.version
    ensures EndsFor(Validate(l, executions, NoFault), l.cp.recommendation.value)
  {
    NoFalseAlarm(l.cp, executions);
    assert ObservedEvents(l.cp, executions) == {};
    GroundedExactly(l.cp.recommendation.value, l.cp.evidence, l.cp.policies);
  }

  /** Without faults, drafting anew ends as the model's answer asks, as the next version. */
  lemma DraftEnds(l: Local, d: Drafting, executions: seq<Execution>)
    requires Clear(l) && l.cp.status != FAILED && NoneProhibited(executions)
    requires d.draftFault == NoFault && d.validateFault == NoFault
    ensures var r := DraftAndValidate(l, d, executions);
            && EndsFor(r, d.recommendation) && r.c.version == l.c.version + 1 && r.c.reviews == l.c.reviews
            && r.cp.evidence == l.cp.evidence && r.cp.policies == l.cp.policies
  {
    DraftKeeps(l, d);
    ValidateEnds(Draft(l, d), executions);
  }

  lemma DraftAndValidateRests(l: Local, d: Drafting, executions: seq<Execution>)
    requires Clear(l) && l.cp.status != FAILED && NoneProhibited(executions)
    ensures Quiescent(DraftAndValidate(l, d, executions))
    ensures DraftAndValidate(l, d, executions).c.reviews == l.c.reviews
    ensures DraftAndValidate(l, d, executions).cp.evidence == l.cp.evidence
  {
    DraftKeeps(l, d);
    var drafted := Draft(l, d);
    if drafted.cp.status != FAILED {
      ValidateRests(drafted, executions, d.validateFault);
    }
  }

  // ----- retrieving -----

  lemma RetrievedKeeps(l: Local, evidence: seq<PA.Item>, stage: Stage, select: PS.Selector, q: Retrieval)
    requires Clear(l) && AllInScope(evidence, l.cp.caseId, l.cp.customerId)
    ensures var r := Retrieved(l, evidence, stage, select, q);
            && r.c.reviews == l.c.reviews
            && if r.cp.status == FAILED then Quiescent(r) else Clear(r)
  {
    FailedRests(l, stage);
  }

  lemma LoadKeeps(l: Local, env: Environment, q: Retrieval)
    requires Clear(l)
    ensures var r := Load(l, env.bank, env.select, q);
            && r.c.reviews == l.c.reviews
            && if r.cp.status == FAILED then Quiescent(r) else Clear(r)
  {
    ReadAllIsSafe(env.bank, AuthOf(l.cp), l.cp.alertId);
    var running := l.(c := l.c.(status := RUNNING));
    FailedRests(running, LOAD_AND_RETRIEVE);
    var read := ReadAll(env.bank, AuthOf(l.cp), l.cp.alertId);
    if read.items.Some? {
      RetrievedKeeps(running, read.items.value, LOAD_AND_RETRIEVE, env.select, q);
    }
  }

  /** A whole run from the start, at whatever stage it fails. */
  lemma RunRests(l: Local, env: Environment, q: Retrieval, d: Drafting, executions: seq<Execution>)
    requires Clear(l) && NoneProhibited(executions)
    ensures Quiescent(Run(l, env, q, d, executions))
    ensures Run(l, env, q, d, executions).c.reviews == l.c.reviews
  {
    LoadKeeps(l, env, q);
    var loaded := Load(l, env.bank, env.select, q);
    if loaded.cp.status != FAILED {
      DraftAndValidateRests(loaded, d, executions);
    }
  }

  /**
   * A run without faults reads the bank, selects policies for just that evidence, and ends as the
   * model's answer asks.
   */
  lemma RunEnds(l: Local, env: Environment, q: Retrieval, d: Drafting, executions: seq<Execution>)
    requires Clear(l) && l.cp.status != FAILED && NoneProhibited(executions)
    requires q.fault == NoFault && d.draftFault == NoFault && d.validateFault == NoFault
    requires ReadAll(env.bank, AuthOf(l.cp), l.cp.alertId).items.Some?
    requires env.select(ReadAll(env.bank, AuthOf(l.cp), l.cp.alertId).items.value, q.words).Ok?
    ensures var items := ReadAll(env.bank, AuthOf(l.cp), l.cp.alertId).items.value;
            var r := Run(l, env, q, d, executions);
            && EndsFor(r, d.recommendation) && r.c.version == l.c.version + 1 && r.c.reviews == l.c.reviews
            && r.cp.evidence == items && r.cp.policies == ChunksOf(env.select(items, q.words).value.matches)
  {
    LoadKeeps(l, env, q);
    DraftEnds(Load(l, env.bank, env.select, q), d, executions);
  }

  // ----- resuming -----

  lemma WaitingIsClear(l: Local)
    requires Quiescent(l) && l.c.status != HARD_BLOCKED
    ensures Clear(l)
  {
  }

  lemma CollectKeeps(l: Local, payload: Payload, env: Environment, q: Retrieval)
    requires Clear(l)
    ensures var r := Collect(l, payload, env, q);
            && r.c.reviews == l.c.reviews
            && (if r.cp.status == FAILED then Quiescent(r) else Clear(r))
            && (r.cp.evidence == l.cp.evidence
                || (payload.OfSubmission?
                    && r.cp.evidence == l.cp.evidence + [Supplement(env.uuid5, l.cp, payload.submission)]))
  {
    FailedRests(l, COLLECT_INFORMATION);
    if payload.OfSubmission? {
      var running := l.(c := l.c.(status := RUNNING));
      RetrievedKeeps(running, l.cp.evidence + [Supplement(env.uuid5, l.cp, payload.submission)], COLLECT_INFORMATION,
                     env.select, q);
    }
  }

  /** The names of two submissions differ, but their identifiers in the case do not. */
  predicate NameClash(uuid5: Uuid5, caseId: nat, a: string, b: string) {
    a != b && uuid5(caseId, a) == uuid5(caseId, b)
  }

  /**
   * Two submissions of one case get one evidence id exactly when they answer the same draft version
   * under the same submission id, or when just their two names clash.
   */
  lemma SupplementIdsExactly(uuid5: Uuid5, a: Checkpoint, x: Submission, b: Checkpoint, y: Submission)
    requires a.caseId == b.caseId
    ensures Supplement(uuid5, a, x).evidenceId == Supplement(uuid5, b, y).evidenceId <==>
            || (a.version == b.version && x.submissionId == y.submissionId)
            || NameClash(uuid5, a.caseId, SupplementName(a, x), SupplementName(b, y))
  {
    var u, v := uuid5(a.caseId, SupplementName(a, x)), uuid5(b.caseId, SupplementName(b, y));
    if "INFO-" + u == "INFO-" + v {
      SameTail("INFO-", u, v);
      if SupplementName(a, x) == SupplementName(b, y) {
        SessionKeys.FirstColon(SessionKeys.Decimal(a.version), x.submissionId, SessionKeys.Decimal(b.version),
                               y.submissionId);
        SessionKeys.DecimalInjective(a.version, b.version);
      }
    }
  }

  lemma SameTail(head: string, a: string, b: string)
    requires head + a == head + b
    ensures a == b
  {
    assert a == (head + a)[|head|..] && b == (head + b)[|head|..];
  }

  /** A waiting draft has not been reviewed, so no review of it is a duplicate. */
  lemma NeverDuplicate(l: Local, review: Review)
    requires Quiescent(l) && Waiting(l.c.status)
    ensures !Recorded(l.c.reviews, review.(version := l.cp.version))
  {
  }

  lemma ReviewedGrows(c: CaseData, review: Review)
    requires Reviewed(c) && review.version == c.version
    requires forall i :: 0 <= i < |c.reviews| ==> c.reviews[i].version < c.version
    ensures Reviewed(WithReview(c, review))
  {
  }

  function Text(c: CaseData, review: Review): CaseData {
    match review.edited case None => c case Some(r) => WithDraft(c, r)
  }

  lemma ReviewRecorded(l: Local, review: Review)
    requires Quiescent(l) && l.c.status == WAITING_FOR_HUMAN_REVIEW && review.version == l.cp.version
    ensures Clear(l.(c := WithReview(l.c, review))) && Clear(l.(c := Text(WithReview(l.c, review), review)))
  {
    ReviewedGrows(l.c, review);
  }

  lemma ApprovedRests(l: Local, review: Review)
    requires Quiescent(l) && l.c.status == WAITING_FOR_HUMAN_REVIEW && review.version == l.cp.version
    requires ValidReview(review) && Approves(review)
    ensures Quiescent(Local(Text(WithReview(l.c, review), review).(status := COMPLETED),
                            l.cp.(feedback := None, status := COMPLETED, pc := Ended)))
  {
    ReviewRecorded(l, review);
  }

  /** Failing after the review was recorded, before or after the edited text was saved. */
  lemma RecordedFailureRests(l: Local, review: Review)
    requires Quiescent(l) && l.c.status == WAITING_FOR_HUMAN_REVIEW && review.version == l.cp.version
    ensures Quiescent(Failed(l.(c := WithReview(l.c, review)), HUMAN_REVIEW))
    ensures Quiescent(Failed(l.(c := Text(WithReview(l.c, review), review)), HUMAN_REVIEW))
  {
    ReviewRecorded(l, review);
    FailedRests(l.(c := WithReview(l.c, review)), HUMAN_REVIEW);
    FailedRests(l.(c := Text(WithReview(l.c, review), review)), HUMAN_REVIEW);
  }

  lemma ReworkIsClear(l: Local, review: Review)
    requires Quiescent(l) && l.c.status == WAITING_FOR_HUMAN_REVIEW && review.version == l.cp.version
    ensures Clear(Local(Text(WithReview(l.c, review), review).(status := REWORK_REQUIRED),
                        l.cp.(feedback := Some(review.rationale), status := REWORK_REQUIRED, pc := Ended)))
  {
    ReviewRecorded(l, review);
  }

  /** What an answer that is recorded leads to. */
  lemma AnswerOutcome(l: Local, answer: Review, fault: Fault)
    requires l.cp.status != HARD_BLOCKED && fault != BeforeWrites
             && !Recorded(l.c.reviews, answer.(version := l.cp.version))
    ensures var review := answer.(version := l.cp.version);
            var text := Text(WithReview(l.c, review), review);
            HumanReview(l, OfReview(answer), fault)
            == if fault == BetweenWrites then Failed(l.(c := WithReview(l.c, review)), HUMAN_REVIEW)
               else if fault == AfterWrites then Failed(l.(c := text), HUMAN_REVIEW)
               else if Approves(review)
               then Local(text.(status := COMPLETED), l.cp.(feedback := None, status := COMPLETED, pc := Ended))
               else Local(text.(status := REWORK_REQUIRED),
                          l.cp.(feedback := Some(review.rationale), status := REWORK_REQUIRED, pc := Ended))
  {
  }

  lemma AnswerKeeps(l: Local, answer: Review, fault: Fault)
    requires Quiescent(l) && l.c.status == WAITING_FOR_HUMAN_REVIEW && ValidReview(answer) && fault != BeforeWrites
    ensures var r := HumanReview(l, OfReview(answer), fault);
            if r.cp.status == REWORK_REQUIRED then Clear(r) else Quiescent(r)
  {
    var review := answer.(version := l.cp.version);
    NeverDuplicate(l, answer);
    AnswerOutcome(l, answer, fault);
    if fault != NoFault {
      RecordedFailureRests(l, review);
    } else if Approves(review) {
      ApprovedRests(l, review);
    } else {
      ReworkIsClear(l, review);
    }
  }

  /** A review is recorded at most once; it completes the case, sends it back, or the stage fails. */
  lemma HumanReviewKeeps(l: Local, payload: Payload, fault: Fault)
    requires Quiescent(l) && l.c.status == WAITING_FOR_HUMAN_REVIEW
    requires payload.OfReview? ==> ValidReview(payload.review)
    ensures var r := HumanReview(l, payload, fault);
            if r.cp.status == REWORK_REQUIRED then Clear(r) else Quiescent(r)
  {
    FailedRests(l, HUMAN_REVIEW);
    if payload.OfReview? && fault != BeforeWrites {
      AnswerKeeps(l, payload.review, fault);
    }
  }

  lemma HumanReviewRecords(l: Local, payload: Payload, fault: Fault)
    requires l.c.status == l.cp.status == WAITING_FOR_HUMAN_REVIEW
    ensures var r := HumanReview(l, payload, fault);
            && r.cp.evidence == l.cp.evidence
            && (r.c.reviews == l.c.reviews
                || (payload.OfReview? && r.c.reviews == l.c.reviews + [payload.review.(version := l.cp.version)]))
  {
  }

  /** Resuming keeps the quiescent invariant; evidence and reviews grow by at most one item each. */
  lemma ResumeRests(l: Local, payload: Payload, env: Environment, q: Retrieval, fault: Fault, d: Drafting,
                    executions: seq<Execution>)
    requires Quiescent(l) && l.c.status != HARD_BLOCKED && NoneProhibited(executions)
    requires payload.OfReview? ==> ValidReview(payload.review)
    ensures var r := Resume(l, payload, env, q, fault, d, executions);
            && Quiescent(r)
            && (r.cp.evidence == l.cp.evidence
                || (payload.OfSubmission?
                    && r.cp.evidence == l.cp.evidence + [Supplement(env.uuid5, l.cp, payload.submission)]))
            && (r.c.reviews == l.c.reviews
                || (payload.OfReview? && r.c.reviews == l.c.reviews + [payload.review.(version := l.cp.version)]))
  {
    WaitingIsClear(l);
    if l.cp.pc == AtInformation {
      CollectKeeps(l, payload, env, q);
      var collected := Collect(l, payload, env, q);
      if collected.cp.status != FAILED {
        DraftAndValidateRests(collected, d, executions);
      }
    } else if l.cp.pc == AtReview {
      HumanReviewKeeps(l, payload, fault);
      HumanReviewRecords(l, payload, fault);
      var reviewed := HumanReview(l, payload, fault);
      if reviewed.cp.status == REWORK_REQUIRED {
        DraftAndValidateRests(reviewed, d, executions);
      }
    }
  }

  lemma HumanReviewRecordsExactly(l: Local, review: Review, fault: Fault)
    requires Quiescent(l) && l.c.status == WAITING_FOR_HUMAN_REVIEW && review.version == l.cp.version
    ensures HumanReview(l, OfReview(review), fault).c.reviews
            == if fault != BeforeWrites then l.c.reviews + [review] else l.c.reviews
  {
    NeverDuplicate(l, review);
  }

  /** Exactly when a review of the current version is recorded: one is awaited and the stage gets to write. */
  lemma ResumeRecordsExactly(l: Local, review: Review, env: Environment, q: Retrieval, fault: Fault, d: Drafting,
                             executions: seq<Execution>)
    requires Quiescent(l) && l.c.status != HARD_BLOCKED && NoneProhibited(executions)
    requires ValidReview(review) && review.version == l.c.version
    ensures Resume(l, OfReview(review), env, q, fault, d, executions).c.reviews
            == if l.c.status == WAITING_FOR_HUMAN_REVIEW && fault != BeforeWrites then l.c.reviews + [review]
              else l.c.reviews
  {
    WaitingIsClear(l);
    if l.cp.pc == AtReview {
      HumanReviewRecordsExactly(l, review, fault);
      HumanReviewKeeps(l, OfReview(review), fault);
      var reviewed := HumanReview(l, OfReview(review), fault);
      if reviewed.cp.status == REWORK_REQUIRED {
        DraftAndValidateRests(reviewed, d, executions);
      }
    }
  }

  lemma RejectedIsReworked(l: Local, review: Review, fault: Fault)
    requires Quiescent(l) && l.c.status == WAITING_FOR_HUMAN_REVIEW && fault == NoFault
    requires review.action == REJECT_AND_REQUEST_REWORK && review.edited.None? && review.version == l.c.version
    ensures var r := HumanReview(l, OfReview(review), fault);
            && r.cp.status == REWORK_REQUIRED && r.cp.feedback == Some(review.rationale) && Clear(r)
            && r.c.version == l.c.version && r.c.reviews == l.c.reviews + [review]
            && r.cp.evidence == l.cp.evidence && r.cp.policies == l.cp.policies
  {
    NeverDuplicate(l, review);
    AnswerOutcome(l, review, fault);
    ReworkIsClear(l, review);
  }

  /** Without faults a rejection is recorded, and a new version is drafted that ends as the model's answer asks. */
  lemma ReworkEnds(l: Local, review: Review, env: Environment, q: Retrieval, d: Drafting, executions: seq<Execution>)
    requires Quiescent(l) && l.c.status == WAITING_FOR_HUMAN_REVIEW && NoneProhibited(executions)
    requires review.action == REJECT_AND_REQUEST_REWORK && review.edited.None? && review.version == l.c.version
    requires d.draftFault == NoFault && d.validateFault == NoFault
    ensures var r := Resume(l, OfReview(review), env, q, NoFault, d, executions);
            && EndsFor(r, d.recommendation) && r.c.version == l.c.version + 1 && r.c.reviews == l.c.reviews + [review]
            && r.cp.evidence == l.cp.evidence && r.cp.policies == l.cp.policies
  {
    RejectedIsReworked(l, review, NoFault);
    DraftEnds(HumanReview(l, OfReview(review), NoFault), d, executions);
  }

  /** A critical event blocks the case, and blocks only accumulate. */
  lemma SecurityEventRests(l: Local, event: SecurityEvent, next: Pc)
    requires Quiescent(l) && IsCritical(event)
    ensures Quiescent(Revoke(l, event, next))
    ensures l.cp.hardBlocks + {CriticalEvent(event)} <= Revoke(l, event, next).cp.hardBlocks
  {
    var after := Revoke(l, event, next);
    BlocksGrow(l.cp.controls, l.cp.securityEvents, after.cp.securityEvents);
    assert CriticalEvent(event) in HardBlocks(l.cp.controls, after.cp.securityEvents);
  }
}
