/** Cases, drafts and reviews, and the decision that blocks a release. */
module CaseModel {
  import opened Prelude
  import PA = PolicyApplicability
  import PR = PolicyRetrieval

  datatype Status =
    | OPEN | RUNNING | WAITING_FOR_INFORMATION | WAITING_FOR_HUMAN_REVIEW | REWORK_REQUIRED
    | COMPLETED | FAILED | HARD_BLOCKED

  datatype Kind = CLOSE_WITH_RATIONALE | REQUEST_MORE_INFORMATION | ESCALATE_TO_HUMAN_AML_ANALYST

  datatype Finding = Finding(claim: string, evidenceIds: seq<string>, policyIds: seq<string>)

  datatype Recommendation = Recommendation(kind: Kind, findings: seq<Finding>, counterIndicators: seq<Finding>,
                                           missing: seq<string>)

  datatype ReviewAction = APPROVE | EDIT_AND_APPROVE | REJECT_AND_REQUEST_REWORK

  datatype Review = Review(version: nat, action: ReviewAction, reviewerId: string, rationale: string,
                           edited: Option<Recommendation>)

  /** The schema ties the edited text to the action. */
  predicate ValidReview(r: Review) {
    r.edited.Some? <==> r.action == EDIT_AND_APPROVE
  }

  datatype CaseData = CaseData(
    caseId: nat, alertId: string, customerId: string, tenantId: string,
    investigatorId: string, reviewerId: Option<string>, status: Status,
    recommendation: Option<Recommendation>, version: nat, reviews: seq<Review>)

  datatype Outcome = PASS | FAIL | NOT_APPLICABLE

  datatype ControlId = EVIDENCE_CITATION_001 | POLICY_CITATION_001

  datatype ControlResult = ControlResult(
    controlId: ControlId, outcome: Outcome, hardBlock: bool, evidenceIds: set<string>, policyIds: set<string>)

  /** The critical event types; any other text is `OtherEvent`. */
  datatype SecurityEvent =
    | SuccessfulCrossScopeAccess | ProhibitedActionExecution | HumanReviewBypass | StrConfidentialityDisclosure
    | FabricatedEvidence | MissingMaterialAudit | NonEuInferenceRoute | UnapprovedModelFallback
    | OtherEvent(name: string)

  predicate IsCritical(event: SecurityEvent) {
    !event.OtherEvent?
  }

  /** A reason for a hard block. */
  datatype Block = FailedControl(controlId: ControlId) | CriticalEvent(event: SecurityEvent)

  // ----- citations -----

  function EvidenceIds(items: seq<PA.Item>): set<string> {
    set x | x in items :: x.evidenceId
  }

  function FindingsOf(r: Recommendation): seq<Finding> {
    r.findings + r.counterIndicators
  }

  function CitedEvidence(r: Recommendation): set<string> {
    set f, id | f in FindingsOf(r) && id in f.evidenceIds :: id
  }

  function PolicyIdsOf(fs: seq<Finding>): seq<string> {
    if fs == [] then [] else fs[0].policyIds + PolicyIdsOf(fs[1..])
  }

  function CitedPolicies(r: Recommendation): seq<string> {
    PolicyIdsOf(FindingsOf(r))
  }

  /** Every citation is known, and a retrieved policy is cited when there is one. */
  ghost predicate Grounded(r: Recommendation, evidence: seq<PA.Item>, policies: seq<PR.Chunk>) {
    && (forall f, id :: f in FindingsOf(r) && id in f.evidenceIds ==> exists x :: x in evidence && x.evidenceId == id)
    && (forall f, id :: f in FindingsOf(r) && id in f.policyIds ==> exists c :: c in policies && c.policyId == id)
    && (policies != [] ==> exists f :: f in FindingsOf(r) && f.policyIds != [])
  }

  // ----- the two citation controls -----

  function EvidenceControl(invalid: set<string>): ControlResult {
    ControlResult(EVIDENCE_CITATION_001, if invalid != {} then FAIL else PASS, invalid != {}, invalid, {})
  }

  function PolicyControl(invalid: set<string>, cited: seq<string>, policies: seq<PR.Chunk>): ControlResult {
    if invalid != {} || (policies != [] && cited == [])
    then ControlResult(POLICY_CITATION_001, FAIL, true, {}, invalid)
    else ControlResult(POLICY_CITATION_001, if policies != [] then PASS else NOT_APPLICABLE, false, {}, {})
  }

  function Controls(r: Recommendation, evidence: seq<PA.Item>, policies: seq<PR.Chunk>): seq<ControlResult> {
    [EvidenceControl(CitedEvidence(r) - EvidenceIds(evidence)),
     PolicyControl(PR.UnknownCitations(CitedPolicies(r), policies), CitedPolicies(r), policies)]
  }

  /** Failed blocking controls and critical events; the program lists them in ascending order. */
  function HardBlocks(controls: seq<ControlResult>, events: set<SecurityEvent>): set<Block> {
    (set c | c in controls && c.hardBlock && c.outcome == FAIL :: FailedControl(c.controlId))
    + (set e | e in events && IsCritical(e) :: CriticalEvent(e))
  }

  lemma {:induction false} PolicyIdsExactly(fs: seq<Finding>, id: string)
    ensures id in PolicyIdsOf(fs) <==> exists f :: f in fs && id in f.policyIds
  {
    if fs != [] {
      PolicyIdsExactly(fs[1..], id);
      if f :| f in fs && id in f.policyIds {
        assert f == fs[0] || f in fs[1..];
      }
    }
  }

  lemma {:induction false} NothingCited(fs: seq<Finding>)
    ensures PolicyIdsOf(fs) == [] <==> forall f :: f in fs ==> f.policyIds == []
  {
    if fs != [] {
      NothingCited(fs[1..]);
      assert forall f :: f in fs <==> f == fs[0] || f in fs[1..];
    }
  }

  lemma EvidenceControlExactly(r: Recommendation, evidence: seq<PA.Item>)
    ensures CitedEvidence(r) - EvidenceIds(evidence) == {} <==>
            forall f, id :: f in FindingsOf(r) && id in f.evidenceIds ==>
                exists x :: x in evidence && x.evidenceId == id
  {
    forall id ensures id in EvidenceIds(evidence) <==> exists x :: x in evidence && x.evidenceId == id {
    }
    if CitedEvidence(r) - EvidenceIds(evidence) == {} {
      forall f, id | f in FindingsOf(r) && id in f.evidenceIds ensures exists x :: x in evidence && x.evidenceId == id {
        assert id in CitedEvidence(r);
        assert id !in CitedEvidence(r) - EvidenceIds(evidence);
        assert id in EvidenceIds(evidence);
      }
    } else {
      var id :| id in CitedEvidence(r) - EvidenceIds(evidence);
      var f :| f in FindingsOf(r) && id in f.evidenceIds;
      assert !exists x :: x in evidence && x.evidenceId == id;
    }
  }

  lemma PolicyControlExactly(r: Recommendation, policies: seq<PR.Chunk>)
    ensures PR.UnknownCitations(CitedPolicies(r), policies) == {} <==>
            forall f, id :: f in FindingsOf(r) && id in f.policyIds ==> exists c :: c in policies && c.policyId == id
  {
    var unknown := PR.UnknownCitations(CitedPolicies(r), policies);
    forall id ensures id in PR.ChunkIds(policies) <==> exists c :: c in policies && c.policyId == id {
    }
    forall id ensures id in CitedPolicies(r) <==> exists f :: f in FindingsOf(r) && id in f.policyIds {
      PolicyIdsExactly(FindingsOf(r), id);
    }
    if unknown == {} {
      forall f, id | f in FindingsOf(r) && id in f.policyIds ensures exists c :: c in policies && c.policyId == id {
        assert id in CitedPolicies(r);
        assert id !in unknown;
        assert id in PR.ChunkIds(policies);
      }
    } else {
      var id :| id in unknown;
      var f :| f in FindingsOf(r) && id in f.policyIds;
      assert !exists c :: c in policies && c.policyId == id;
    }
  }

  /** The controls leave a draft unblocked exactly when it is grounded. */
  lemma GroundedExactly(r: Recommendation, evidence: seq<PA.Item>, policies: seq<PR.Chunk>)
    ensures HardBlocks(Controls(r, evidence, policies), {}) == {} <==> Grounded(r, evidence, policies)
  {
    var controls := Controls(r, evidence, policies);
    EvidenceControlExactly(r, evidence);
    PolicyControlExactly(r, policies);
    NothingCited(FindingsOf(r));
    BlocksOfTwo(controls[0], controls[1]);
    assert controls == [controls[0], controls[1]];
  }

  lemma BlocksOfTwo(a: ControlResult, b: ControlResult)
    ensures HardBlocks([a, b], {}) == {} <==> !(a.hardBlock && a.outcome == FAIL) && !(b.hardBlock && b.outcome == FAIL)
  {
    assert a in [a, b] && b in [a, b];
    if a.hardBlock && a.outcome == FAIL {
      assert FailedControl(a.controlId) in HardBlocks([a, b], {});
    }
    if b.hardBlock && b.outcome == FAIL {
      assert FailedControl(b.controlId) in HardBlocks([a, b], {});
    }
  }

  lemma BlocksGrow(controls: seq<ControlResult>, fewer: set<SecurityEvent>, more: set<SecurityEvent>)
    requires fewer <= more
    ensures HardBlocks(controls, fewer) <= HardBlocks(controls, more)
    ensures HardBlocks(controls, {}) <= HardBlocks(controls, fewer)
  {
  }

  // ----- the evidence ledger -----

  /** Later items replace earlier ones with the same id. */
  function ById(evidence: seq<PA.Item>): (r: map<string, PA.Item>)
    ensures r.Keys == EvidenceIds(evidence)
  {
    if evidence == [] then map[] else
      var before, last := evidence[..|evidence| - 1], evidence[|evidence| - 1];
      assert evidence == before + [last];
      ById(before)[last.evidenceId := last]
  }

  datatype LedgerError = EvidenceIdCollision(id: string)

  class EvidenceLedger {
    var items: map<string, PA.Item>

    constructor (evidence: seq<PA.Item>)
      ensures items == ById(evidence)
    {
      items := map[];
      new;
      for i := 0 to |evidence|
        invariant items == ById(evidence[..i])
      {
        assert evidence[..i + 1][..i] == evidence[..i];
        items := items[evidence[i].evidenceId := evidence[i]];
      }
      assert evidence[..|evidence|] == evidence;
    }

    /** An id keeps its content: another content under the same id is refused. */
    method Add(item: PA.Item) returns (error: Option<LedgerError>)
      modifies this
      ensures error.Some? <==>
              item.evidenceId in old(items) && old(items)[item.evidenceId].contentHash != item.contentHash
      ensures items == if error.Some? then old(items) else old(items)[item.evidenceId := item]
      ensures forall id :: id in old(items) ==> id in items && items[id].contentHash == old(items)[id].contentHash
    {
      if item.evidenceId in items && items[item.evidenceId].contentHash != item.contentHash {
        return Some(EvidenceIdCollision(item.evidenceId));
      }
      items := items[item.evidenceId := item];
      error := None;
    }

    /** An id is reported exactly when some finding or counter-indicator cites it and the ledger lacks it. */
    method ValidateRecommendation(r: Recommendation) returns (unknown: set<string>)
      ensures forall id :: id in unknown <==>
              id !in items && exists f :: f in r.findings + r.counterIndicators && id in f.evidenceIds
    {
      unknown := {};
      var findings := r.findings + r.counterIndicators;
      for i := 0 to |findings|
        invariant forall id :: id in unknown <==>
                  id !in items && exists k :: 0 <= k < i && id in findings[k].evidenceIds
      {
        unknown := unknown + set id | id in findings[i].evidenceIds && id !in items;
      }
      forall id | id !in items
        ensures (exists k :: 0 <= k < |findings| && id in findings[k].evidenceIds) <==>
                exists f :: f in findings && id in f.evidenceIds
      {
        if f :| f in findings && id in f.evidenceIds {
          var k :| 0 <= k < |findings| && findings[k] == f;
        }
        if k :| 0 <= k < |findings| && id in findings[k].evidenceIds {
          assert findings[k] in findings;
        }
      }
    }
  }
}
