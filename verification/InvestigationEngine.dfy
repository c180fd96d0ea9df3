/** The investigation engine: the stages and the public calls, updating repository, tools and threads in place. */
module InvestigationEngine {
  import opened Prelude
  import opened CaseModel
  import opened CaseRepository
  import opened InvestigationGraph
  import opened InvestigationProtocol
  import AC = AuditChain
  import PA = PolicyApplicability
  import PR = PolicyRetrieval
  import PS = PolicySelection

  datatype EngineError =
    | UnknownCaseId | UnknownAlertId | AlreadyAssigned | IsHardBlocked | StaleVersion | NotWaitingForInformation
    | StillRunning | UnknownEvent

  class LangGraphInvestigationEngine {
    const repository: InMemoryInvestigationRepository
    const tools: InvestigationTools
    const setup: PS.Policies
    const uuid5: Uuid5
    var threads: map<nat, Checkpoint>

    constructor (repository: InMemoryInvestigationRepository, setup: PS.Policies, uuid5: Uuid5)
      ensures this.repository == repository && this.setup == setup && this.uuid5 == uuid5 && threads == map[]
      ensures fresh(tools) && tools.repository == repository && tools.executions == []
    {
      this.repository := repository;
      this.setup := setup;
      this.uuid5 := uuid5;
      threads := map[];
      tools := new InvestigationTools(repository);
    }

    ghost function State(): System
      reads this, repository, tools
    {
      System(repository.cases, threads, tools.executions)
    }

    function Env(): Environment {
      Environment(repository.bank, PS.Selecting(setup), uuid5)
    }

    // ----- failure capture -----

    method RecordFailure(cp: Checkpoint, stage: Stage) returns (r: Checkpoint)
      requires cp.caseId in repository.cases
      modifies repository
      ensures Updated(old(repository.cases), repository.cases, cp.caseId, r,
                      Failed(Local(old(repository.cases)[cp.caseId], cp), stage))
      ensures Grown(repository.hash, old(repository.auditEvents), repository.auditEvents)
    {
      var _ := repository.SetStatus(cp.caseId, FAILED);
      repository.Audit(AC.Call("investigation_failed", cp.actorId, "", ""));
      r := cp.(status := FAILED, errors := cp.errors + [stage], pc := Ended);
    }

    // ----- the stages -----

    method ReadProfiles(auth: Authorization) returns (items: Option<seq<PA.Item>>)
      requires tools.repository == repository
      modifies tools, repository`auditEvents
      ensures var read := Then(ReadKyc(repository.bank, auth, auth.customerId),
                               ReadTransactions(repository.bank, auth, auth.customerId, 250));
              items == read.items && tools.executions == old(tools.executions) + read.executions
      ensures Grown(repository.hash, old(repository.auditEvents), repository.auditEvents)
    {
      var kyc := tools.GetKycProfile(auth, auth.customerId);
      if kyc.None? { return None; }
      var transactions := tools.GetTransactions(auth, auth.customerId, 250);
      if transactions.None? { return None; }
      items := Some(kyc.value + transactions.value);
    }

    method ReadEvidence(auth: Authorization, alertId: string) returns (items: Option<seq<PA.Item>>)
      requires tools.repository == repository
      modifies tools, repository`auditEvents
      ensures items == ReadAll(repository.bank, auth, alertId).items
      ensures tools.executions == old(tools.executions) + ReadAll(repository.bank, auth, alertId).executions
      ensures Grown(repository.hash, old(repository.auditEvents), repository.auditEvents)
    {
      var alert := tools.GetAlert(auth, alertId);
      if alert.None? { return None; }
      var customer := tools.GetCustomerProfile(auth, auth.customerId);
      if customer.None? { return None; }
      var profiles := ReadProfiles(auth);
      if profiles.None? { return None; }
      items := Some(alert.value + (customer.value + profiles.value));
    }

    method Apply(cp: Checkpoint, evidence: seq<PA.Item>, selected: PA.Result<PS.Selection>, stage: Stage, fault: Fault)
      returns (r: Checkpoint)
      requires cp.caseId in repository.cases
      modifies repository
      ensures Updated(old(repository.cases), repository.cases, cp.caseId, r,
                      Applied(Local(old(repository.cases)[cp.caseId], cp), evidence, selected, stage, fault))
      ensures Grown(repository.hash, old(repository.auditEvents), repository.auditEvents)
    {
      if selected.Err? || fault != NoFault {
        r := RecordFailure(cp, stage);
        return;
      }
      r := cp.(evidence := evidence, policies := ChunksOf(selected.value.matches), status := RUNNING);
    }

    method Retrieve(cp: Checkpoint, evidence: seq<PA.Item>, stage: Stage, q: Retrieval) returns (r: Checkpoint)
      requires cp.caseId in repository.cases
      modifies repository
      ensures Updated(old(repository.cases), repository.cases, cp.caseId, r,
                      Retrieved(Local(old(repository.cases)[cp.caseId], cp), evidence, stage, PS.Selecting(setup), q))
      ensures Grown(repository.hash, old(repository.auditEvents), repository.auditEvents)
    {
      var selected := PS.SelectPolicies(evidence, q.words, setup);
      r := Apply(cp, evidence, selected, stage, q.fault);
    }

    method RetrieveIfRead(cp: Checkpoint, items: Option<seq<PA.Item>>, q: Retrieval) returns (r: Checkpoint)
      requires cp.caseId in repository.cases
      modifies repository
      ensures Updated(old(repository.cases), repository.cases, cp.caseId, r,
                      Loaded(Local(old(repository.cases)[cp.caseId], cp), items, PS.Selecting(setup), q))
      ensures Grown(repository.hash, old(repository.auditEvents), repository.auditEvents)
    {
      if items.None? {
        r := RecordFailure(cp, LOAD_AND_RETRIEVE);
      } else {
        r := Retrieve(cp, items.value, LOAD_AND_RETRIEVE, q);
      }
    }

    method LoadAndRetrieve(cp: Checkpoint, q: Retrieval) returns (r: Checkpoint)
      requires tools.repository == repository && cp.caseId in repository.cases
      modifies repository, tools
      ensures Updated(old(repository.cases), repository.cases, cp.caseId, r,
                      Load(Local(old(repository.cases)[cp.caseId], cp), repository.bank, PS.Selecting(setup), q))
      ensures tools.executions == old(tools.executions) + ReadAll(repository.bank, AuthOf(cp), cp.alertId).executions
      ensures Grown(repository.hash, old(repository.auditEvents), repository.auditEvents)
    {
      var _ := repository.SetStatus(cp.caseId, RUNNING);
      ghost var running := repository.cases;
      var items := ReadEvidence(AuthOf(cp), cp.alertId);
      r := RetrieveIfRead(cp, items, q);
      UpdatedAgain(old(repository.cases), running, repository.cases, cp.caseId, r,
                   Loaded(Local(running[cp.caseId], cp), items, PS.Selecting(setup), q));
    }

    method DraftRecommendation(cp: Checkpoint, d: Drafting) returns (r: Checkpoint)
      requires cp.caseId in repository.cases
      modifies repository
      ensures Updated(old(repository.cases), repository.cases, cp.caseId, r,
                      Draft(Local(old(repository.cases)[cp.caseId], cp), d))
      ensures Grown(repository.hash, old(repository.auditEvents), repository.auditEvents)
    {
      if d.draftFault == BeforeWrites {
        r := RecordFailure(cp, DRAFT_RECOMMENDATION);
        return;
      }
      var version := repository.SaveRecommendation(cp.caseId, d.recommendation);
      if d.draftFault != NoFault {
        r := RecordFailure(cp, DRAFT_RECOMMENDATION);
        return;
      }
      r := cp.(recommendation := Some(d.recommendation), version := version.value, feedback := None);
    }

    /** The citation controls and the critical events that count against the draft. */
    method EvaluateDraft(cp: Checkpoint, draft: Recommendation)
      returns (results: seq<ControlResult>, events: set<SecurityEvent>)
      ensures results == Controls(draft, cp.evidence, cp.policies) && events == ObservedEvents(cp, tools.executions)
    {
      var ledger := new EvidenceLedger(cp.evidence);
      var invalidEvidence := ledger.ValidateRecommendation(draft);
      assert invalidEvidence == CitedEvidence(draft) - EvidenceIds(cp.evidence);
      var invalidPolicies := PR.UnknownCitations(CitedPolicies(draft), cp.policies);
      results := [EvidenceControl(invalidEvidence), PolicyControl(invalidPolicies, CitedPolicies(draft), cp.policies)];
      events := cp.securityEvents;
      if exists id :: id in ledger.items && !InScope(ledger.items[id], cp.caseId, cp.customerId) {
        events := events + {SuccessfulCrossScopeAccess};
      }
      if ProhibitedExecuted(tools.executions, cp.caseId) {
        events := events + {ProhibitedActionExecution};
      }
    }

    method ValidateControls(cp: Checkpoint, fault: Fault) returns (r: Checkpoint)
      requires cp.caseId in repository.cases
      modifies repository
      ensures Updated(old(repository.cases), repository.cases, cp.caseId, r,
                      Validate(Local(old(repository.cases)[cp.caseId], cp), tools.executions, fault))
      ensures Grown(repository.hash, old(repository.auditEvents), repository.auditEvents)
    {
      if cp.recommendation.None? {
        r := RecordFailure(cp, VALIDATE_CONTROLS);
        return;
      }
      var draft := cp.recommendation.value;
      var results, events := EvaluateDraft(cp, draft);
      var blocks := HardBlocks(results, events);
      var status := Verdict(blocks, draft.kind);
      var _ := repository.SetStatus(cp.caseId, status);
      if blocks != {} {
        repository.Audit(AC.Call("investigation_hard_blocked", cp.actorId, "", ""));
      }
      if fault != NoFault {
        r := RecordFailure(cp, VALIDATE_CONTROLS);
        return;
      }
      r := cp.(controls := results, securityEvents := events, hardBlocks := blocks, status := status,
               pc := RouteAfterValidation(status));
    }

    method CollectInformation(cp: Checkpoint, payload: Payload, q: Retrieval) returns (r: Checkpoint)
      requires cp.caseId in repository.cases
      modifies repository
      ensures Updated(old(repository.cases), repository.cases, cp.caseId, r,
                      Collect(Local(old(repository.cases)[cp.caseId], cp), payload, Env(), q))
      ensures Grown(repository.hash, old(repository.auditEvents), repository.auditEvents)
    {
      if payload.OfReview? || q.fault == BeforeWrites {
        r := RecordFailure(cp, COLLECT_INFORMATION);
        return;
      }
      repository.Audit(AC.Call("case_information_supplied", payload.submission.actorId, "", ""));
      var _ := repository.SetStatus(cp.caseId, RUNNING);
      r := Retrieve(cp, cp.evidence + [Supplement(uuid5, cp, payload.submission)], COLLECT_INFORMATION, q);
    }

    method ReviewStage(cp: Checkpoint, payload: Payload, fault: Fault) returns (r: Checkpoint)
      requires cp.caseId in repository.cases
      modifies repository
      ensures Updated(old(repository.cases), repository.cases, cp.caseId, r,
                      HumanReview(Local(old(repository.cases)[cp.caseId], cp), payload, fault))
      ensures Grown(repository.hash, old(repository.auditEvents), repository.auditEvents)
    {
      if cp.status == HARD_BLOCKED { return cp.(pc := Ended); }
      if payload.OfSubmission? || fault == BeforeWrites {
        r := RecordFailure(cp, HUMAN_REVIEW);
        return;
      }
      var review := payload.review.(version := cp.version);
      var duplicate := repository.SaveReview(cp.caseId, review);
      if duplicate.Some? || fault == BetweenWrites {
        r := RecordFailure(cp, HUMAN_REVIEW);
        return;
      }
      if review.edited.Some? {
        var _ := repository.SaveRecommendation(cp.caseId, review.edited.value);
      }
      var rework := review.action == REJECT_AND_REQUEST_REWORK;
      var status := if rework then REWORK_REQUIRED else COMPLETED;
      var _ := repository.SetStatus(cp.caseId, status);
      if fault == AfterWrites {
        r := RecordFailure(cp, HUMAN_REVIEW);
        return;
      }
      r := cp.(feedback := if rework then Some(review.rationale) else None, status := status, pc := Ended);
    }

    // ----- runs -----

    method DraftThenValidate(cp: Checkpoint, d: Drafting) returns (r: Checkpoint)
      requires cp.caseId in repository.cases
      modifies repository
      ensures Updated(old(repository.cases), repository.cases, cp.caseId, r,
                      DraftAndValidate(Local(old(repository.cases)[cp.caseId], cp), d, tools.executions))
      ensures Grown(repository.hash, old(repository.auditEvents), repository.auditEvents)
    {
      r := DraftRecommendation(cp, d);
      if r.status == FAILED { return; }
      r := ValidateControls(r, d.validateFault);
    }

    /** The edge after retrieving or collecting. */
    method Continue(cp: Checkpoint, d: Drafting, ghost l: Local) returns (r: Checkpoint)
      requires cp.caseId in repository.cases && l == Local(repository.cases[cp.caseId], cp)
      modifies repository
      ensures Updated(old(repository.cases), repository.cases, cp.caseId, r, Continued(l, d, tools.executions))
      ensures Grown(repository.hash, old(repository.auditEvents), repository.auditEvents)
    {
      r := cp;
      if cp.status != FAILED {
        r := DraftThenValidate(cp, d);
      }
    }

    /** The edge after a review. */
    method Rework(cp: Checkpoint, d: Drafting, ghost l: Local) returns (r: Checkpoint)
      requires cp.caseId in repository.cases && l == Local(repository.cases[cp.caseId], cp)
      modifies repository
      ensures Updated(old(repository.cases), repository.cases, cp.caseId, r, Reworked(l, d, tools.executions))
      ensures Grown(repository.hash, old(repository.auditEvents), repository.auditEvents)
    {
      r := cp;
      if cp.status == REWORK_REQUIRED {
        r := DraftThenValidate(cp, d);
      }
    }

    method RunGraph(cp: Checkpoint, q: Retrieval, d: Drafting) returns (r: Checkpoint)
      requires tools.repository == repository && cp.caseId in repository.cases
      modifies repository, tools
      ensures tools.executions == old(tools.executions) + ReadAll(repository.bank, AuthOf(cp), cp.alertId).executions
      ensures Updated(old(repository.cases), repository.cases, cp.caseId, r,
                      InvestigationGraph.Run(Local(old(repository.cases)[cp.caseId], cp), Env(), q, d,
                                             tools.executions))
      ensures Grown(repository.hash, old(repository.auditEvents), repository.auditEvents)
    {
      ghost var before := repository.cases;
      ghost var loaded := Load(Local(before[cp.caseId], cp), repository.bank, PS.Selecting(setup), q);
      r := LoadAndRetrieve(cp, q);
      ghost var middle, retrieved := repository.cases, r;
      r := Continue(r, d, loaded);
      UpdatedTwice(before, middle, repository.cases, cp.caseId, retrieved, loaded, r,
                   Continued(loaded, d, tools.executions));
    }

    method ResumeInformation(cp: Checkpoint, payload: Payload, q: Retrieval, d: Drafting) returns (r: Checkpoint)
      requires cp.caseId in repository.cases
      modifies repository
      ensures Updated(old(repository.cases), repository.cases, cp.caseId, r,
                      Continued(Collect(Local(old(repository.cases)[cp.caseId], cp), payload, Env(), q), d,
                                tools.executions))
      ensures Grown(repository.hash, old(repository.auditEvents), repository.auditEvents)
    {
      ghost var before := repository.cases;
      ghost var collected := Collect(Local(before[cp.caseId], cp), payload, Env(), q);
      r := CollectInformation(cp, payload, q);
      ghost var middle, answered := repository.cases, r;
      r := Continue(r, d, collected);
      UpdatedTwice(before, middle, repository.cases, cp.caseId, answered, collected, r,
                   Continued(collected, d, tools.executions));
    }

    method ResumeReview(cp: Checkpoint, payload: Payload, fault: Fault, d: Drafting) returns (r: Checkpoint)
      requires cp.caseId in repository.cases
      modifies repository
      ensures Updated(old(repository.cases), repository.cases, cp.caseId, r,
                      Reworked(HumanReview(Local(old(repository.cases)[cp.caseId], cp), payload, fault), d,
                               tools.executions))
      ensures Grown(repository.hash, old(repository.auditEvents), repository.auditEvents)
    {
      r := ReviewStage(cp, payload, fault);
      r := Rework(r, d, Local(repository.cases[cp.caseId], r));
    }

    method ResumeGraph(cp: Checkpoint, payload: Payload, q: Retrieval, fault: Fault, d: Drafting)
      returns (r: Checkpoint)
      requires cp.caseId in repository.cases
      modifies repository
      ensures Updated(old(repository.cases), repository.cases, cp.caseId, r,
                      Resume(Local(old(repository.cases)[cp.caseId], cp), payload, Env(), q, fault, d,
                             tools.executions))
      ensures Grown(repository.hash, old(repository.auditEvents), repository.auditEvents)
    {
      match cp.pc {
        case Ended => r := cp;
        case AtInformation => r := ResumeInformation(cp, payload, q, d);
        case AtReview => r := ResumeReview(cp, payload, fault, d);
      }
    }

    /** `before` is the state before the case was created, if it is new. */
    method RunPrepared(c: CaseData, actorId: string, q: Retrieval, d: Drafting, ghost before: System)
      requires tools.repository == repository && State() == before.(cases := before.cases[c.caseId := c])
      modifies this`threads, repository, tools
      ensures State() == RunCase(before, c, actorId, Env(), q, d)
      ensures Grown(repository.hash, old(repository.auditEvents), repository.auditEvents)
    {
      RunCaseForgets(before, c, actorId, Env(), q, d);
      var r := RunGraph(Input(c, actorId, if c.caseId in threads then Some(threads[c.caseId]) else None), q, d);
      threads := threads[c.caseId := r];
    }

    method ResumeThread(id: nat, payload: Payload, q: Retrieval, fault: Fault, d: Drafting)
      requires id in repository.cases && id in threads && threads[id].caseId == id
      modifies this`threads, repository
      ensures State()
              == Put(old(State()), id, Resume(At(old(State()), id), payload, Env(), q, fault, d, tools.executions))
      ensures Grown(repository.hash, old(repository.auditEvents), repository.auditEvents)
    {
      var r := ResumeGraph(threads[id], payload, q, fault, d);
      threads := threads[id := r];
    }

    // ----- the public calls -----

    /** `rerunFailed` distinguishes the page, which runs a failed case again, from the API, which does not. */
    method StartCase(alertId: string, tenantId: string, actorId: string, id: nat, rerunFailed: bool, q: Retrieval,
                     d: Drafting)
      returns (error: Option<EngineError>)
      requires tools.repository == repository && ValidCases(repository.cases) && id !in repository.cases
               && id !in threads
      modifies this`threads, repository, tools
      ensures State() == Step(old(State()), Env(), Start(alertId, tenantId, actorId, id, rerunFailed, q, d))
      ensures error.Some? <==> Created(old(repository.cases), repository.bank, alertId, tenantId, actorId, id).Err?
      ensures Grown(repository.hash, old(repository.auditEvents), repository.auditEvents)
    {
      var prepared := repository.CreateCase(alertId, tenantId, actorId, id);
      if prepared.Err? { return Some(if prepared.error == UnknownAlert then UnknownAlertId else AlreadyAssigned); }
      var (c, created) := prepared.value;
      if created || (rerunFailed && c.status == FAILED) {
        RunPrepared(c, actorId, q, d, old(State()));
      }
      error := None;
    }

    method Review(id: nat, review: Review, q: Retrieval, fault: Fault, d: Drafting) returns (error: Option<EngineError>)
      requires id in threads ==> threads[id].caseId == id
      requires id in repository.cases ==> id in threads
      modifies this`threads, repository
      ensures State() == Step(old(State()), Env(), ReviewCase(id, review, q, fault, d))
      ensures error.None? <==> AcceptsReview(old(State()), id, review)
      ensures Grown(repository.hash, old(repository.auditEvents), repository.auditEvents)
    {
      if id !in repository.cases { return Some(UnknownCaseId); }
      if repository.cases[id].status == HARD_BLOCKED { return Some(IsHardBlocked); }
      if review.version != repository.cases[id].version { return Some(StaleVersion); }
      ResumeThread(id, OfReview(review), q, fault, d);
      error := None;
    }

    method SupplyInformation(id: nat, submission: Submission, q: Retrieval, d: Drafting)
      returns (error: Option<EngineError>)
      requires id in threads ==> threads[id].caseId == id
      requires id in repository.cases ==> id in threads
      modifies this`threads, repository
      ensures State() == Step(old(State()), Env(), InvestigationProtocol.SupplyInformation(id, submission, q, d))
      ensures error.None? <==> AcceptsInformation(old(State()), id)
      ensures Grown(repository.hash, old(repository.auditEvents), repository.auditEvents)
    {
      if id !in repository.cases { return Some(UnknownCaseId); }
      if repository.cases[id].status != WAITING_FOR_INFORMATION { return Some(NotWaitingForInformation); }
      ResumeThread(id, OfSubmission(submission), q, NoFault, d);
      error := None;
    }

    /** The thread may survive when the graph library fails to delete it. */
    method Reset(id: nat, actorId: string, purged: bool) returns (error: Option<EngineError>)
      modifies this`threads, repository
      ensures State() == Step(old(State()), Env(), InvestigationProtocol.Reset(id, purged))
      ensures error.None? <==> CanReset(old(State()), id)
      ensures Grown(repository.hash, old(repository.auditEvents), repository.auditEvents)
    {
      if id !in repository.cases { return Some(UnknownCaseId); }
      var status := repository.cases[id].status;
      if status == OPEN || status == RUNNING { return Some(StillRunning); }
      repository.Audit(AC.Call("investigation_reset", actorId, "", ""));
      var _ := repository.DeleteCase(id);
      if purged {
        threads := threads - {id};
      }
      error := None;
    }

    method RecordSecurityEvent(id: nat, event: SecurityEvent, next: Pc) returns (error: Option<EngineError>)
      requires id in repository.cases ==> id in threads
      modifies this`threads, repository
      ensures State() == Step(old(State()), Env(), InvestigationProtocol.RecordSecurityEvent(id, event, next))
      ensures error.None? <==> IsCritical(event) && id in old(repository.cases)
      ensures Grown(repository.hash, old(repository.auditEvents), repository.auditEvents)
    {
      if !IsCritical(event) { return Some(UnknownEvent); }
      if id !in repository.cases { return Some(UnknownCaseId); }
      var values := threads[id];
      var events := values.securityEvents + {event};
      var blocks := HardBlocks(values.controls, events);
      threads := threads[id := values.(securityEvents := events, hardBlocks := blocks, status := HARD_BLOCKED,
                                       pc := next)];
      var _ := repository.SetStatus(id, HARD_BLOCKED);
      assert State() == Put(old(State()), id, Revoke(At(old(State()), id), event, next));
      repository.Audit(AC.Call("investigation_hard_blocked", values.actorId, "", ""));
      error := None;
    }
  }

  lemma UpdatedAgain(a: map<nat, CaseData>, b: map<nat, CaseData>, c: map<nat, CaseData>, id: nat, x: Checkpoint,
                     l: Local)
    requires id in b && b == a[id := b[id]] && Updated(b, c, id, x, l)
    ensures Updated(a, c, id, x, l)
  {
  }

  lemma UpdatedTwice(a: map<nat, CaseData>, b: map<nat, CaseData>, c: map<nat, CaseData>, id: nat,
                     x: Checkpoint, l: Local, y: Checkpoint, k: Local)
    requires Updated(a, b, id, x, l) && Updated(b, c, id, y, k)
    ensures Updated(a, c, id, y, k)
  {
  }

  lemma RunCaseForgets(s: System, c: CaseData, actorId: string, env: Environment, q: Retrieval, d: Drafting)
    ensures RunCase(s.(cases := s.cases[c.caseId := c]), c, actorId, env, q, d) == RunCase(s, c, actorId, env, q, d)
  {
    var l := Local(c, Input(c, actorId, Earlier(s, c.caseId)));
    var r := InvestigationGraph.Run(l, env, q, d, s.executions + ReadAll(env.bank, AuthOf(l.cp), c.alertId).executions);
    assert s.cases[c.caseId := c][c.caseId := r.c] == s.cases[c.caseId := r.c];
  }

  /** The stage changed only the case `id`, to what the stage's specification says, and returned its checkpoint. */
  ghost predicate Updated(before: map<nat, CaseData>, after: map<nat, CaseData>, id: nat, cp: Checkpoint,
                          expected: Local)
  {
    after == before[id := expected.c] && cp == expected.cp && expected.cp.caseId == id
  }
}
