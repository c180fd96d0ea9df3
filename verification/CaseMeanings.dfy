/** What the parts of an investigation stand for, in the terms of evidence, citations, events and records. */
module CaseMeanings {
  import opened Prelude
  import opened CaseModel
  import opened CaseRepository
  import opened InvestigationGraph
  import SessionKeys
  import PA = PolicyApplicability
  import PR = PolicyRetrieval
  import PS = PolicySelection

  // ----- the two citation controls -----

  /** A finding or counter-indicator of the draft cites this evidence. */
  ghost predicate CitesEvidence(r: Recommendation, id: string) {
    exists f :: (f in r.findings || f in r.counterIndicators) && id in f.evidenceIds
  }

  ghost predicate CitesPolicy(r: Recommendation, id: string) {
    exists f :: (f in r.findings || f in r.counterIndicators) && id in f.policyIds
  }

  predicate HasEvidence(evidence: seq<PA.Item>, id: string) {
    exists i :: 0 <= i < |evidence| && evidence[i].evidenceId == id
  }

  predicate HasPolicy(policies: seq<PR.Chunk>, id: string) {
    exists i :: 0 <= i < |policies| && policies[i].policyId == id
  }

  lemma UnknownEvidence(r: Recommendation, evidence: seq<PA.Item>, id: string)
    ensures id in CitedEvidence(r) - EvidenceIds(evidence) <==> CitesEvidence(r, id) && !HasEvidence(evidence, id)
  {
    assert forall f :: f in FindingsOf(r) <==> f in r.findings || f in r.counterIndicators;
    if HasEvidence(evidence, id) {
      var i :| 0 <= i < |evidence| && evidence[i].evidenceId == id;
      assert evidence[i] in evidence;
    }
  }

  lemma CitedPolicy(r: Recommendation, id: string)
    ensures id in CitedPolicies(r) <==> CitesPolicy(r, id)
  {
    assert forall f :: f in FindingsOf(r) <==> f in r.findings || f in r.counterIndicators;
    PolicyIdsExactly(FindingsOf(r), id);
  }

  lemma UnknownPolicy(r: Recommendation, policies: seq<PR.Chunk>, id: string)
    ensures id in PR.UnknownCitations(CitedPolicies(r), policies) <==> CitesPolicy(r, id) && !HasPolicy(policies, id)
  {
    CitedPolicy(r, id);
    if HasPolicy(policies, id) {
      var i :| 0 <= i < |policies| && policies[i].policyId == id;
      assert policies[i] in policies;
    }
  }

  /** The first result fails, and blocks, exactly when evidence is cited that is not there; it lists that evidence. */
  ghost predicate EvidenceResult(result: ControlResult, r: Recommendation, evidence: seq<PA.Item>) {
    && result.controlId == EVIDENCE_CITATION_001 && result.policyIds == {}
    && (forall id :: id in result.evidenceIds <==> CitesEvidence(r, id) && !HasEvidence(evidence, id))
    && (result.outcome == FAIL <==> result.evidenceIds != {}) && (result.outcome == PASS <==> result.evidenceIds == {})
    && (result.hardBlock <==> result.evidenceIds != {})
  }

  /**
   * The second one fails, and blocks, exactly when a policy is cited that was not retrieved, or none is although
   * some were; it lists the unknown ones, and does not apply where nothing was retrieved or cited.
   */
  ghost predicate PolicyResult(result: ControlResult, r: Recommendation, policies: seq<PR.Chunk>) {
    && result.controlId == POLICY_CITATION_001 && result.evidenceIds == {}
    && (forall id :: id in result.policyIds <==> CitesPolicy(r, id) && !HasPolicy(policies, id))
    && (result.outcome == FAIL <==>
          result.policyIds != {} || (policies != [] && forall id :: !CitesPolicy(r, id)))
    && (result.hardBlock <==> result.outcome == FAIL)
    && (result.outcome == PASS ==> policies != []) && (result.outcome == NOT_APPLICABLE ==> policies == [])
  }

  lemma ControlsMean(r: Recommendation, evidence: seq<PA.Item>, policies: seq<PR.Chunk>)
    ensures var results := Controls(r, evidence, policies);
            |results| == 2 && EvidenceResult(results[0], r, evidence) && PolicyResult(results[1], r, policies)
  {
    var results := Controls(r, evidence, policies);
    forall id ensures id in results[0].evidenceIds <==> CitesEvidence(r, id) && !HasEvidence(evidence, id) {
      UnknownEvidence(r, evidence, id);
    }
    PolicyResultMeans(r, policies);
  }

  lemma PolicyResultMeans(r: Recommendation, policies: seq<PR.Chunk>)
    ensures PolicyResult(PolicyControl(PR.UnknownCitations(CitedPolicies(r), policies), CitedPolicies(r), policies),
                         r, policies)
  {
    var cited, unknown := CitedPolicies(r), PR.UnknownCitations(CitedPolicies(r), policies);
    forall id ensures id in unknown <==> CitesPolicy(r, id) && !HasPolicy(policies, id) {
      UnknownPolicy(r, policies, id);
    }
    forall id ensures id in cited <==> CitesPolicy(r, id) {
      CitedPolicy(r, id);
    }
    assert cited != [] ==> cited[0] in cited;
  }

  // ----- the reasons for a block -----

  /** Exactly the failed blocking controls and the eight critical events. */
  lemma BlocksExactly(controls: seq<ControlResult>, events: set<SecurityEvent>, b: Block)
    ensures b in HardBlocks(controls, events) <==>
            || (b.FailedControl? && exists i :: 0 <= i < |controls| && controls[i].controlId == b.controlId
                                                && controls[i].hardBlock && controls[i].outcome == FAIL)
            || (b.CriticalEvent? && b.event in events && b.event in
                  {SuccessfulCrossScopeAccess, ProhibitedActionExecution, HumanReviewBypass,
                   StrConfidentialityDisclosure, FabricatedEvidence, MissingMaterialAudit, NonEuInferenceRoute,
                   UnapprovedModelFallback})
  {
    if b.FailedControl? {
      if i :| 0 <= i < |controls| && controls[i].controlId == b.controlId && controls[i].hardBlock
              && controls[i].outcome == FAIL
      {
        assert controls[i] in controls;
      }
    }
  }

  /** The item stands in the ledger: no later one has its id. */
  predicate Stands(evidence: seq<PA.Item>, i: int) {
    0 <= i < |evidence| && forall j :: i < j < |evidence| ==> evidence[j].evidenceId != evidence[i].evidenceId
  }

  lemma {:induction false} StandsById(evidence: seq<PA.Item>, i: int)
    requires Stands(evidence, i)
    ensures evidence[i].evidenceId in ById(evidence) && ById(evidence)[evidence[i].evidenceId] == evidence[i]
  {
    var n := |evidence| - 1;
    if i < n {
      StandsById(evidence[..n], i);
    }
  }

  lemma {:induction false} ByIdStands(evidence: seq<PA.Item>, id: string) returns (i: nat)
    requires id in ById(evidence)
    ensures Stands(evidence, i) && evidence[i].evidenceId == id && ById(evidence)[id] == evidence[i]
  {
    var n := |evidence| - 1;
    if evidence[n].evidenceId == id {
      i := n;
    } else {
      i := ByIdStands(evidence[..n], id);
    }
  }

  /** Some item that stands is of another case or another customer. */
  ghost predicate OutOfScope(cp: Checkpoint) {
    exists i :: Stands(cp.evidence, i)
                && (cp.evidence[i].caseId != cp.caseId || cp.evidence[i].customerId != cp.customerId)
  }

  /** Some prohibited tool was carried out for the case. */
  predicate CarriedOut(executions: seq<Execution>, caseId: nat) {
    exists i :: 0 <= i < |executions| && executions[i].caseId == caseId && executions[i].authorized
                && executions[i].toolName
                   in {SUBMIT_STR, FREEZE_ACCOUNT, BLOCK_TRANSACTION, CONTACT_CUSTOMER, UPDATE_KYC}
  }

  lemma CrossScopeExactly(cp: Checkpoint)
    ensures CrossScope(cp) <==> OutOfScope(cp)
  {
    if CrossScope(cp) {
      var id :| id in ById(cp.evidence) && !InScope(ById(cp.evidence)[id], cp.caseId, cp.customerId);
      var i := ByIdStands(cp.evidence, id);
      assert Stands(cp.evidence, i);
    }
    if OutOfScope(cp) {
      var i :| Stands(cp.evidence, i)
               && (cp.evidence[i].caseId != cp.caseId || cp.evidence[i].customerId != cp.customerId);
      StandsById(cp.evidence, i);
    }
  }

  lemma ProhibitedExactly(executions: seq<Execution>, caseId: nat)
    ensures ProhibitedExecuted(executions, caseId) <==> CarriedOut(executions, caseId)
  {
    forall i | 0 <= i < |executions|
      ensures IsProhibited(executions[i].toolName) <==>
              executions[i].toolName in {SUBMIT_STR, FREEZE_ACCOUNT, BLOCK_TRANSACTION, CONTACT_CUSTOMER, UPDATE_KYC}
    {
    }
  }

  /** The events that count: those recorded, and the two that the evidence and the executions show. */
  lemma ObservedExactly(cp: Checkpoint, executions: seq<Execution>, e: SecurityEvent)
    ensures e in ObservedEvents(cp, executions) <==>
            || e in cp.securityEvents
            || (e == SuccessfulCrossScopeAccess && OutOfScope(cp))
            || (e == ProhibitedActionExecution && CarriedOut(executions, cp.caseId))
  {
    CrossScopeExactly(cp);
    ProhibitedExactly(executions, cp.caseId);
  }

  /** Validation lists as reasons just what the two results and these events amount to, and rests accordingly. */
  lemma ValidationMeans(l: Local, executions: seq<Execution>, b: Block)
    requires l.cp.recommendation.Some?
    ensures var r, draft := Validate(l, executions, NoFault), l.cp.recommendation.value;
            && |r.cp.controls| == 2 && EvidenceResult(r.cp.controls[0], draft, l.cp.evidence)
            && PolicyResult(r.cp.controls[1], draft, l.cp.policies)
            && (b in r.cp.hardBlocks <==>
                  || (b == FailedControl(EVIDENCE_CITATION_001) && r.cp.controls[0].outcome == FAIL)
                  || (b == FailedControl(POLICY_CITATION_001) && r.cp.controls[1].outcome == FAIL)
                  || (b.CriticalEvent? && !b.event.OtherEvent? && b.event in r.cp.securityEvents))
            && r.cp.securityEvents == ObservedEvents(l.cp, executions)
            && r.c.status == r.cp.status && (r.cp.status == HARD_BLOCKED <==> r.cp.hardBlocks != {})
            && (r.cp.status == HARD_BLOCKED ==> r.cp.pc == Ended)
            && (r.cp.hardBlocks == {} ==>
                  (r.cp.status == WAITING_FOR_INFORMATION && r.cp.pc == AtInformation
                   && draft.kind == REQUEST_MORE_INFORMATION)
                  || (r.cp.status == WAITING_FOR_HUMAN_REVIEW && r.cp.pc == AtReview
                      && draft.kind != REQUEST_MORE_INFORMATION))
  {
    ControlsMean(l.cp.recommendation.value, l.cp.evidence, l.cp.policies);
    BlocksExactly(Controls(l.cp.recommendation.value, l.cp.evidence, l.cp.policies),
                  ObservedEvents(l.cp, executions), b);
  }

  // ----- reviews -----

  /** The review joins the others under the version shown, and an edited text becomes the next version. */
  ghost predicate ReviewKept(before: CaseData, after: CaseData, version: nat, answer: Review) {
    && after.reviews == before.reviews
                        + [Review(version, answer.action, answer.reviewerId, answer.rationale, answer.edited)]
    && (answer.edited.None? ==>
          after.recommendation == before.recommendation && after.version == before.version)
    && (answer.edited.Some? ==>
          after.recommendation == answer.edited && after.version == before.version + 1)
  }

  /** No earlier review has this version and action. */
  predicate FirstOfItsKind(reviews: seq<Review>, version: nat, action: ReviewAction) {
    forall i :: 0 <= i < |reviews| ==> reviews[i].version != version || reviews[i].action != action
  }

  /** A review without a fault: it is kept, and either ends the case or hands its rationale to the next draft. */
  lemma ReviewMeans(l: Local, answer: Review)
    requires l.cp.status != HARD_BLOCKED && FirstOfItsKind(l.c.reviews, l.cp.version, answer.action)
    ensures var r := HumanReview(l, OfReview(answer), NoFault);
            && ReviewKept(l.c, r.c, l.cp.version, answer) && r.c.status == r.cp.status && r.cp.pc == Ended
            && (answer.action == REJECT_AND_REQUEST_REWORK ==>
                  r.cp.status == REWORK_REQUIRED && r.cp.feedback == Some(answer.rationale))
            && (answer.action != REJECT_AND_REQUEST_REWORK ==> r.cp.status == COMPLETED && r.cp.feedback.None?)
            && r.c.(status := l.c.status, reviews := l.c.reviews, recommendation := l.c.recommendation,
                    version := l.c.version) == l.c
            && r.cp.(status := l.cp.status, feedback := l.cp.feedback, pc := l.cp.pc) == l.cp
  {
  }

  /** A review of a blocked draft only ends the run. */
  lemma BlockedReviewMeans(l: Local, payload: Payload, fault: Fault)
    requires l.cp.status == HARD_BLOCKED
    ensures var r := HumanReview(l, payload, fault);
            r.c == l.c && r.cp.pc == Ended && r.cp.(pc := l.cp.pc) == l.cp
  {
  }

  /** What a review leaves behind when the stage fails: nothing, the review, or the review and the text. */
  lemma FailedReviewMeans(l: Local, payload: Payload, fault: Fault)
    requires l.cp.status != HARD_BLOCKED
    ensures var r := HumanReview(l, payload, fault);
            var repeats := payload.OfReview? && !FirstOfItsKind(l.c.reviews, l.cp.version, payload.review.action);
            && (r.cp.status == FAILED <==> payload.OfSubmission? || fault != NoFault || repeats)
            && (r.cp.status == FAILED ==>
                  && r.c.status == FAILED && r.cp.errors == l.cp.errors + [HUMAN_REVIEW] && r.cp.pc == Ended
                  && r.cp.(status := l.cp.status, errors := l.cp.errors, pc := l.cp.pc) == l.cp
                  && (payload.OfSubmission? || repeats || fault == BeforeWrites ==>
                        r.c.(status := l.c.status) == l.c)
                  && (payload.OfReview? && !repeats && fault == BetweenWrites ==>
                        && r.c.reviews == l.c.reviews + [payload.review.(version := l.cp.version)]
                        && r.c.recommendation == l.c.recommendation && r.c.version == l.c.version)
                  && (payload.OfReview? && !repeats && fault == AfterWrites ==>
                        ReviewKept(l.c, r.c, l.cp.version, payload.review)))
  {
    if payload.OfReview? {
      assert Recorded(l.c.reviews, payload.review.(version := l.cp.version)) <==>
        !FirstOfItsKind(l.c.reviews, l.cp.version, payload.review.action);
    }
  }

  // ----- new evidence -----

  /** Supplied information becomes an item of the case's own scope, named after version and submission. */
  lemma SupplementMeans(uuid5: Uuid5, cp: Checkpoint, s: Submission)
    ensures var item := Supplement(uuid5, cp, s);
            && item.evidenceId == "INFO-" + uuid5(cp.caseId, SessionKeys.Decimal(cp.version) + ":" + s.submissionId)
            && item.evidenceType == PA.SUPPLEMENTAL_INFORMATION
            && item.caseId == cp.caseId && item.customerId == cp.customerId && item.contentHash == s.contentHash
            && item.content.information == Some(s.information)
            && item.content.fields == map[] && item.content.causalIds == [] && item.content.createdOn.None?
  {
  }

  /** Evidence and policies of the answer are taken over, or the stage fails and they stay as they were. */
  ghost predicate TakesOver(l: Local, r: Local, evidence: seq<PA.Item>, selected: PA.Result<PS.Selection>, stage: Stage,
                            fault: Fault)
  {
    && (selected.Ok? && fault == NoFault ==>
          && r.c == l.c.(status := RUNNING) && r.cp.status == RUNNING && r.cp.evidence == evidence
          && |r.cp.policies| == |selected.value.matches|
          && (forall i :: 0 <= i < |r.cp.policies| ==> r.cp.policies[i] == selected.value.matches[i].chunk)
          && r.cp.(status := l.cp.status, evidence := l.cp.evidence, policies := l.cp.policies) == l.cp)
    && (selected.Err? || fault != NoFault ==>
          && r.c == l.c.(status := FAILED) && r.cp.status == FAILED && r.cp.errors == l.cp.errors + [stage]
          && r.cp.pc == Ended && r.cp.(status := l.cp.status, errors := l.cp.errors, pc := l.cp.pc) == l.cp)
  }

  /** Loading takes over what was read and selected for it. */
  lemma LoadMeans(l: Local, bank: Bank, select: PS.Selector, q: Retrieval, evidence: seq<PA.Item>)
    requires ReadAll(bank, AuthOf(l.cp), l.cp.alertId).items == Some(evidence)
    ensures TakesOver(l, Load(l, bank, select, q), evidence, select(evidence, q.words), LOAD_AND_RETRIEVE, q.fault)
  {
  }

  /** Supplied information takes over the evidence so far and the new item. */
  lemma CollectMeans(l: Local, s: Submission, env: Environment, q: Retrieval)
    requires q.fault != BeforeWrites
    ensures var evidence := l.cp.evidence + [Supplement(env.uuid5, l.cp, s)];
            TakesOver(l, Collect(l, OfSubmission(s), env, q), evidence, env.select(evidence, q.words),
                      COLLECT_INFORMATION, q.fault)
  {
  }

  /** A draft without a fault becomes the next version, and the reviewer's feedback is used up. */
  lemma DraftMeans(l: Local, d: Drafting)
    requires d.draftFault == NoFault
    ensures var r := Draft(l, d);
            && r.c == l.c.(recommendation := Some(d.recommendation), version := l.c.version + 1)
            && r.cp.recommendation == Some(d.recommendation) && r.cp.version == l.c.version + 1 && r.cp.feedback.None?
            && r.cp.(recommendation := l.cp.recommendation, version := l.cp.version, feedback := l.cp.feedback) == l.cp
  {
  }

  /** When drafting fails, the draft may have been saved, but the checkpoint keeps the older version. */
  lemma FailedDraftMeans(l: Local, d: Drafting)
    requires d.draftFault != NoFault
    ensures var r := Draft(l, d);
            && r.cp == l.cp.(status := FAILED, errors := l.cp.errors + [DRAFT_RECOMMENDATION], pc := Ended)
            && r.c.status == FAILED
            && (d.draftFault == BeforeWrites ==> r.c == l.c.(status := FAILED))
            && (d.draftFault != BeforeWrites ==>
                  r.c.recommendation == Some(d.recommendation) && r.c.version == l.c.version + 1
                  && r.c.(status := l.c.status, recommendation := l.c.recommendation, version := l.c.version) == l.c)
  {
  }

  /** A new run forgets what the earlier one gathered, but not its draft, version and feedback. */
  lemma InputMeans(c: CaseData, actorId: string, earlier: Option<Checkpoint>)
    ensures var cp := Input(c, actorId, earlier);
            && cp.caseId == c.caseId && cp.alertId == c.alertId && cp.customerId == c.customerId
            && cp.actorId == actorId && cp.evidence == [] && cp.policies == [] && cp.controls == []
            && cp.securityEvents == {} && cp.hardBlocks == {} && cp.errors == [] && cp.status == OPEN && cp.pc == Ended
            && (earlier.None? ==> cp.recommendation.None? && cp.version == 0 && cp.feedback.None?)
            && (earlier.Some? ==> cp.recommendation == earlier.value.recommendation
                                  && cp.version == earlier.value.version && cp.feedback == earlier.value.feedback)
  {
  }

  /** A new case belongs to the alert's customer and its investigator; nobody reviews it yet. */
  lemma NewCaseMeans(id: nat, alert: Record, tenantId: string, investigatorId: string)
    ensures var c := NewCase(id, alert, tenantId, investigatorId);
            && c.caseId == id && c.alertId == alert.id && c.customerId == alert.customerId && c.tenantId == tenantId
            && c.investigatorId == investigatorId && c.reviewerId.None? && c.status == OPEN
            && c.recommendation.None? && c.version == 0 && c.reviews == []
  {
  }

  // ----- what is read of the bank -----

  /** The first record that matches. */
  lemma {:induction false} FirstWhereAt(records: seq<Record>, match_: Record -> bool, k: nat)
    requires k < |records| && match_(records[k]) && forall j :: 0 <= j < k ==> !match_(records[j])
    ensures FirstWhere(records, match_) == Some(records[k])
  {
    if k > 0 {
      assert forall j :: 0 <= j < k - 1 ==> records[1..][j] == records[j + 1];
      FirstWhereAt(records[1..], match_, k - 1);
    }
  }

  /** An item that shows a record under an id and a type, for the case. */
  predicate Shows(item: PA.Item, id: string, kind: PA.EvidenceType, r: Record, auth: Authorization) {
    && item.evidenceId == id && item.evidenceType == kind && item.content == r.content
    && item.contentHash == r.contentHash && item.caseId == auth.caseId && item.customerId == auth.customerId
  }

  /** The records a case reads: its alert, its customer, its KYC record and the latest 250 transactions. */
  ghost predicate ReadsOf(bank: Bank, auth: Authorization, alertId: string, alert: Record, customer: Record,
                          kyc: Record, transactions: seq<Record>)
  {
    && alert in bank.alerts && alert.id == alertId && alert.customerId == auth.customerId
    && customer in bank.customers && customer.id == auth.customerId
    && kyc in bank.kyc && kyc.customerId == auth.customerId
    && Latest(transactions, bank.transactions, auth.customerId, 250)
  }

  /** The items show these records in this order. */
  ghost predicate ShowsAll(items: seq<PA.Item>, auth: Authorization, alert: Record, customer: Record, kyc: Record,
                           transactions: seq<Record>)
  {
    && |items| == 3 + |transactions|
    && Shows(items[0], "ALERT-" + alert.id, PA.ALERT, alert, auth)
    && Shows(items[1], "CUSTOMER-" + auth.customerId, PA.CUSTOMER_PROFILE, customer, auth)
    && Shows(items[2], "KYC-" + kyc.id, PA.KYC_PROFILE, kyc, auth)
    && forall i :: 0 <= i < |transactions| ==>
         Shows(items[i + 3], transactions[i].id, PA.TRANSACTION, transactions[i], auth)
  }

  /** Transactions are read within the scope, one to 500 of them. */
  lemma TransactionsRead(bank: Bank, auth: Authorization, customerId: string, limit: int)
    ensures ReadTransactions(bank, auth, customerId, limit).items.Some? <==>
            customerId == auth.customerId && 1 <= limit && limit <= 500
  {
  }

  /** One tool call for the case: which, whether it was let through, and what it returned. */
  predicate Records(e: Execution, auth: Authorization, tool: ToolName, items: seq<PA.Item>) {
    && e.caseId == auth.caseId && e.toolName == tool && e.authorized && e.errorCode == NO_ERROR
    && |e.evidenceIds| == |items| && forall i :: 0 <= i < |items| ==> e.evidenceIds[i] == items[i].evidenceId
  }

  lemma {:induction false} IdsAre(items: seq<PA.Item>)
    ensures |PA.Ids(items)| == |items| && forall i :: 0 <= i < |items| ==> PA.Ids(items)[i] == items[i].evidenceId
  {
    if items != [] {
      IdsAre(items[1..]);
    }
  }

  /** A successful reading is recorded as four permitted calls with what they returned. */
  lemma ReadsRecorded(bank: Bank, auth: Authorization, alertId: string)
    requires ReadAll(bank, auth, alertId).items.Some?
    ensures var items, calls := ReadAll(bank, auth, alertId).items.value, ReadAll(bank, auth, alertId).executions;
            && |items| >= 3 && |calls| == 4
            && Records(calls[0], auth, GET_ALERT, [items[0]])
            && Records(calls[1], auth, GET_CUSTOMER_PROFILE, [items[1]])
            && Records(calls[2], auth, GET_KYC_PROFILE, [items[2]])
            && Records(calls[3], auth, GET_TRANSACTIONS, items[3..])
  {
    var items := ReadAll(bank, auth, alertId).items.value;
    IdsAre([items[0]]);
    IdsAre([items[1]]);
    IdsAre([items[2]]);
    var transactions := TransactionItems(auth, LastOf(Filter(bank.transactions, OfCustomer(auth.customerId)), 250));
    assert items[3..] == transactions;
    IdsAre(transactions);
  }

  /** Reading about another customer returns nothing and is recorded as refused. */
  lemma OtherCustomerIsRefused(bank: Bank, auth: Authorization, customerId: string, limit: int)
    requires customerId != auth.customerId
    ensures forall read :: read in {ReadCustomer(bank, auth, customerId), ReadKyc(bank, auth, customerId),
                                    ReadTransactions(bank, auth, customerId, limit)} ==>
              && read.items.None? && |read.executions| == 1 && !read.executions[0].authorized
              && read.executions[0].errorCode == CROSS_SCOPE_ACCESS && read.executions[0].caseId == auth.caseId
              && read.executions[0].evidenceIds == []
  {
  }

  /** The last n of the customer's records, in the bank's order. */
  ghost predicate Latest(part: seq<Record>, all: seq<Record>, c: string, n: nat) {
    exists rest :: Filter(all, (x: Record) => x.customerId == c) == rest + part
                   && |part| <= n && (|part| < n ==> rest == [])
  }

  lemma LatestOf(all: seq<Record>, c: string, n: nat)
    ensures Latest(LastOf(Filter(all, OfCustomer(c)), n), all, c, n)
  {
    var own := Filter(all, OfCustomer(c));
    SameFilter(all, OfCustomer(c), (x: Record) => x.customerId == c);
    var rest := if |own| <= n then [] else own[..|own| - n];
    assert own == rest + LastOf(own, n);
  }

  lemma {:induction false} SameFilter(all: seq<Record>, f: Record -> bool, g: Record -> bool)
    requires forall x :: f(x) <==> g(x)
    ensures Filter(all, f) == Filter(all, g)
  {
    if all != [] {
      SameFilter(all[1..], f, g);
    }
  }

  /** The first alert of the bank with this id. */
  predicate FirstAlert(alerts: seq<Record>, id: string, k: int) {
    0 <= k < |alerts| && alerts[k].id == id && forall j :: 0 <= j < k ==> alerts[j].id != id
  }

  lemma {:induction false} AlertFound(alerts: seq<Record>, id: string) returns (k: nat)
    requires FirstWhere(alerts, HasId(id)).Some?
    ensures FirstAlert(alerts, id, k) && FirstWhere(alerts, HasId(id)).value == alerts[k]
  {
    if HasId(id)(alerts[0]) {
      k := 0;
    } else {
      k := AlertFound(alerts[1..], id);
      assert forall j :: 0 < j <= k ==> alerts[j] == alerts[1..][j - 1];
      k := k + 1;
    }
  }

  /** Reading succeeds exactly when the alert is the customer's and customer and KYC record exist. */
  lemma ReadAllExactly(bank: Bank, auth: Authorization, alertId: string)
    ensures ReadAll(bank, auth, alertId).items.Some? <==>
            && (exists k :: FirstAlert(bank.alerts, alertId, k) && bank.alerts[k].customerId == auth.customerId)
            && (exists customer :: customer in bank.customers && customer.id == auth.customerId)
            && (exists kyc :: kyc in bank.kyc && kyc.customerId == auth.customerId)
  {
    var alert := FirstWhere(bank.alerts, HasId(alertId));
    if alert.Some? {
      var k := AlertFound(bank.alerts, alertId);
    }
    forall k | FirstAlert(bank.alerts, alertId, k) ensures alert == Some(bank.alerts[k]) {
      FirstWhereAt(bank.alerts, HasId(alertId), k);
    }
    var customer := FirstWhere(bank.customers, HasId(auth.customerId));
    var kyc := FirstWhere(bank.kyc, OfCustomer(auth.customerId));
    assert customer.Some? ==> customer.value in bank.customers && HasId(auth.customerId)(customer.value);
    assert kyc.Some? ==> kyc.value in bank.kyc && OfCustomer(auth.customerId)(kyc.value);
    forall x | x in bank.customers && x.id == auth.customerId ensures customer.Some? {
      assert HasId(auth.customerId)(x);
    }
    forall x | x in bank.kyc && x.customerId == auth.customerId ensures kyc.Some? {
      assert OfCustomer(auth.customerId)(x);
    }
  }

  lemma ItemsShow(items: seq<PA.Item>, auth: Authorization, alert: Record, customer: Record, kyc: Record,
                  transactions: seq<Record>)
    requires items == [EvidenceOf(auth, "ALERT-" + alert.id, PA.ALERT, alert)]
                      + ([EvidenceOf(auth, "CUSTOMER-" + auth.customerId, PA.CUSTOMER_PROFILE, customer)]
                         + ([EvidenceOf(auth, "KYC-" + kyc.id, PA.KYC_PROFILE, kyc)]
                            + TransactionItems(auth, transactions)))
    ensures ShowsAll(items, auth, alert, customer, kyc, transactions)
  {
    forall i | 0 <= i < |transactions|
      ensures Shows(items[i + 3], transactions[i].id, PA.TRANSACTION, transactions[i], auth)
    {
      assert items[i + 3] == TransactionItems(auth, transactions)[i];
    }
  }

  /** What a successful reading returns. */
  lemma ReadAllMeans(bank: Bank, auth: Authorization, alertId: string)
    returns (alert: Record, customer: Record, kyc: Record, transactions: seq<Record>)
    requires ReadAll(bank, auth, alertId).items.Some?
    ensures ReadsOf(bank, auth, alertId, alert, customer, kyc, transactions)
    ensures ShowsAll(ReadAll(bank, auth, alertId).items.value, auth, alert, customer, kyc, transactions)
  {
    alert := FirstWhere(bank.alerts, HasId(alertId)).value;
    customer := FirstWhere(bank.customers, HasId(auth.customerId)).value;
    kyc := FirstWhere(bank.kyc, OfCustomer(auth.customerId)).value;
    transactions := LastOf(Filter(bank.transactions, OfCustomer(auth.customerId)), 250);
    assert HasId(alertId)(alert) && HasId(auth.customerId)(customer) && OfCustomer(auth.customerId)(kyc);
    LatestOf(bank.transactions, auth.customerId, 250);
    ItemsShow(ReadAll(bank, auth, alertId).items.value, auth, alert, customer, kyc, transactions);
  }
}
