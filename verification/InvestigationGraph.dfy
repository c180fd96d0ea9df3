/**
 * The five stages of an investigation, on the repository's case and the thread's checkpoint.
 * A run goes from one interrupt, or the start, to the next interrupt or to the end.
 */
module InvestigationGraph {
  import opened Prelude
  import opened CaseModel
  import opened CaseRepository
  import SessionKeys
  import PA = PolicyApplicability
  import PR = PolicyRetrieval
  import PS = PolicySelection

  datatype Pc = Ended | AtInformation | AtReview

  datatype Stage = LOAD_AND_RETRIEVE | DRAFT_RECOMMENDATION | VALIDATE_CONTROLS | COLLECT_INFORMATION | HUMAN_REVIEW

  datatype Checkpoint = Checkpoint(
    caseId: nat, alertId: string, customerId: string, actorId: string,
    evidence: seq<PA.Item>, policies: seq<PR.Chunk>,
    recommendation: Option<Recommendation>, version: nat, feedback: Option<string>,
    controls: seq<ControlResult>, securityEvents: set<SecurityEvent>, hardBlocks: set<Block>,
    errors: seq<Stage>, status: Status, pc: Pc)

  datatype Local = Local(c: CaseData, cp: Checkpoint)

  // ----- what the environment decides -----

  /** Where a stage raises, if it does: before it writes anything, between its writes, or after them. */
  datatype Fault = NoFault | BeforeWrites | BetweenWrites | AfterWrites

  /** The words of the policy query, and whether a hook raises. */
  datatype Retrieval = Retrieval(words: set<string>, fault: Fault)

  /** What the language model answers, and whether drafting or validating raises. */
  datatype Drafting = Drafting(recommendation: Recommendation, draftFault: Fault, validateFault: Fault)

  datatype Submission = Submission(actorId: string, information: map<string, string>, submissionId: string,
                                   contentHash: nat)

  /** An interrupted stage may be resumed with either kind of payload. */
  datatype Payload = OfSubmission(submission: Submission) | OfReview(review: Review)

  // ----- the stages -----

  function Failed(l: Local, stage: Stage): Local {
    Local(l.c.(status := FAILED), l.cp.(status := FAILED, errors := l.cp.errors + [stage], pc := Ended))
  }

  function ChunksOf(matches: seq<PR.Match>): (r: seq<PR.Chunk>)
    ensures |r| == |matches|
    ensures forall i :: 0 <= i < |r| ==> r[i] == matches[i].chunk
  {
    if matches == [] then [] else ChunksOf(matches[..|matches| - 1]) + [matches[|matches| - 1].chunk]
  }

  function AuthOf(cp: Checkpoint): Authorization {
    Authorization(cp.caseId, cp.customerId, cp.actorId)
  }

  function Applied(l: Local, evidence: seq<PA.Item>, selected: PA.Result<PS.Selection>, stage: Stage,
                   fault: Fault): Local
  {
    match selected
    case Err(_) => Failed(l, stage)
    case Ok(selection) =>
      if fault != NoFault then Failed(l, stage)
      else Local(l.c, l.cp.(evidence := evidence, policies := ChunksOf(selection.matches), status := RUNNING))
  }

  /** New evidence and policies, or a failure. */
  function Retrieved(l: Local, evidence: seq<PA.Item>, stage: Stage, select: PS.Selector, q: Retrieval): Local {
    Applied(l, evidence, select(evidence, q.words), stage, q.fault)
  }

  /** What the stage makes of the evidence it read, if reading succeeded. */
  function Loaded(l: Local, items: Option<seq<PA.Item>>, select: PS.Selector, q: Retrieval): Local {
    match items
    case None => Failed(l, LOAD_AND_RETRIEVE)
    case Some(evidence) => Retrieved(l, evidence, LOAD_AND_RETRIEVE, select, q)
  }

  function Load(l: Local, bank: Bank, select: PS.Selector, q: Retrieval): Local {
    Loaded(l.(c := l.c.(status := RUNNING)), ReadAll(bank, AuthOf(l.cp), l.cp.alertId).items, select, q)
  }

  /** A draft may be saved and the stage still fail: the checkpoint then keeps the older version. */
  function Draft(l: Local, d: Drafting): Local {
    if d.draftFault == BeforeWrites then Failed(l, DRAFT_RECOMMENDATION) else
    var saved := l.(c := WithDraft(l.c, d.recommendation));
    if d.draftFault != NoFault then Failed(saved, DRAFT_RECOMMENDATION)
    else saved.(cp := l.cp.(recommendation := Some(d.recommendation), version := saved.c.version, feedback := None))
  }

  predicate CrossScope(cp: Checkpoint) {
    exists id :: id in ById(cp.evidence) && !InScope(ById(cp.evidence)[id], cp.caseId, cp.customerId)
  }

  predicate ProhibitedExecuted(executions: seq<Execution>, caseId: nat) {
    exists i :: 0 <= i < |executions| && executions[i].caseId == caseId && executions[i].authorized
                && IsProhibited(executions[i].toolName)
  }

  function ObservedEvents(cp: Checkpoint, executions: seq<Execution>): set<SecurityEvent> {
    cp.securityEvents
    + (if CrossScope(cp) then {SuccessfulCrossScopeAccess} else {})
    + (if ProhibitedExecuted(executions, cp.caseId) then {ProhibitedActionExecution} else {})
  }

  function Verdict(blocks: set<Block>, kind: Kind): Status {
    if blocks != {} then HARD_BLOCKED
    else if kind == REQUEST_MORE_INFORMATION then WAITING_FOR_INFORMATION
    else WAITING_FOR_HUMAN_REVIEW
  }

  function RouteAfterValidation(status: Status): Pc {
    if status == FAILED || status == HARD_BLOCKED then Ended
    else if status == WAITING_FOR_INFORMATION then AtInformation
    else AtReview
  }

  function Validate(l: Local, executions: seq<Execution>, fault: Fault): Local {
    if l.cp.recommendation.None? || fault != NoFault then Failed(l, VALIDATE_CONTROLS) else
    var draft := l.cp.recommendation.value;
    var controls := Controls(draft, l.cp.evidence, l.cp.policies);
    var events := ObservedEvents(l.cp, executions);
    var blocks := HardBlocks(controls, events);
    var status := Verdict(blocks, draft.kind);
    Local(l.c.(status := status),
          l.cp.(controls := controls, securityEvents := events, hardBlocks := blocks, status := status,
                pc := RouteAfterValidation(status)))
  }

  function DraftAndValidate(l: Local, d: Drafting, executions: seq<Execution>): Local {
    var drafted := Draft(l, d);
    if drafted.cp.status == FAILED then drafted else Validate(drafted, executions, d.validateFault)
  }

  /** The name-based identifier of a text within the namespace of a case. */
  type Uuid5 = (nat, string) -> string

  function SupplementName(cp: Checkpoint, s: Submission): string {
    SessionKeys.Decimal(cp.version) + ":" + s.submissionId
  }

  function Supplement(uuid5: Uuid5, cp: Checkpoint, s: Submission): PA.Item {
    PA.Item("INFO-" + uuid5(cp.caseId, SupplementName(cp, s)), PA.SUPPLEMENTAL_INFORMATION, cp.caseId, cp.customerId,
            s.contentHash,
            PA.Content(map[], [], Some(s.information), PA.Absent, PA.Absent, None))
  }

  /** A review payload lacks the submission's fields. */
  function Collect(l: Local, payload: Payload, env: Environment, q: Retrieval): Local {
    if payload.OfReview? || q.fault == BeforeWrites then Failed(l, COLLECT_INFORMATION) else
    var item := Supplement(env.uuid5, l.cp, payload.submission);
    Retrieved(l.(c := l.c.(status := RUNNING)), l.cp.evidence + [item], COLLECT_INFORMATION, env.select, q)
  }

  /** The review is recorded under the version of the checkpoint. */
  function HumanReview(l: Local, payload: Payload, fault: Fault): Local {
    if l.cp.status == HARD_BLOCKED then l.(cp := l.cp.(pc := Ended)) else
    if payload.OfSubmission? || fault == BeforeWrites then Failed(l, HUMAN_REVIEW) else
    var review := payload.review.(version := l.cp.version);
    if Recorded(l.c.reviews, review) then Failed(l, HUMAN_REVIEW) else
    var reviewed := l.(c := WithReview(l.c, review));
    if fault == BetweenWrites then Failed(reviewed, HUMAN_REVIEW) else
    var edited := match review.edited case None => reviewed case Some(r) => reviewed.(c := WithDraft(reviewed.c, r));
    if fault == AfterWrites then Failed(edited, HUMAN_REVIEW) else
    var rework := review.action == REJECT_AND_REQUEST_REWORK;
    var status := if rework then REWORK_REQUIRED else COMPLETED;
    Local(edited.c.(status := status),
          l.cp.(feedback := if rework then Some(review.rationale) else None, status := status, pc := Ended))
  }

  // ----- runs between interrupts -----

  /** The input of a run; what it does not name survives from an earlier run of the thread. */
  function Input(c: CaseData, actorId: string, earlier: Option<Checkpoint>): Checkpoint {
    match earlier
    case None =>
      Checkpoint(c.caseId, c.alertId, c.customerId, actorId, [], [], None, 0, None, [], {}, {}, [], OPEN, Ended)
    case Some(cp) =>
      cp.(caseId := c.caseId, alertId := c.alertId, customerId := c.customerId, actorId := actorId,
          evidence := [], policies := [], controls := [], securityEvents := {}, hardBlocks := {}, errors := [],
          status := OPEN, pc := Ended)
  }

  /** The data the tools read, the service that selects policies, and how identifiers are derived from names. */
  datatype Environment = Environment(bank: Bank, select: PS.Selector, uuid5: Uuid5)

  /** Draft and validate, unless the stage before failed. */
  function Continued(l: Local, d: Drafting, executions: seq<Execution>): Local {
    if l.cp.status == FAILED then l else DraftAndValidate(l, d, executions)
  }

  /** Draft again only when the reviewer asked for it. */
  function Reworked(l: Local, d: Drafting, executions: seq<Execution>): Local {
    if l.cp.status == REWORK_REQUIRED then DraftAndValidate(l, d, executions) else l
  }

  function Run(l: Local, env: Environment, q: Retrieval, d: Drafting, executions: seq<Execution>): Local {
    Continued(Load(l, env.bank, env.select, q), d, executions)
  }

  function Resume(l: Local, payload: Payload, env: Environment, q: Retrieval, fault: Fault, d: Drafting,
                  executions: seq<Execution>): Local
  {
    match l.cp.pc
    case Ended => l
    case AtInformation => Continued(Collect(l, payload, env, q), d, executions)
    case AtReview => Reworked(HumanReview(l, payload, fault), d, executions)
  }

  /** A trusted critical event revokes the release; `next` is where the graph library leaves the thread. */
  function Revoke(l: Local, event: SecurityEvent, next: Pc): Local {
    var events := l.cp.securityEvents + {event};
    Local(l.c.(status := HARD_BLOCKED),
          l.cp.(securityEvents := events, hardBlocks := HardBlocks(l.cp.controls, events), status := HARD_BLOCKED,
                pc := next))
  }
}
