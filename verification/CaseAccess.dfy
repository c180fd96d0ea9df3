/** Who may do what to a case, and what that guarantees about who approves it. */
module CaseAccess {
  import opened Prelude
  import opened CaseModel
  import opened CaseRepository
  import opened InvestigationGraph
  import opened InvestigationStages
  import opened InvestigationProtocol

  datatype Role = ADMINISTRATOR | ANALYST | REVIEWER | RESEARCHER | OtherRole(name: string)

  datatype Actor = Actor(actorId: string, roles: set<Role>, tenantId: string)

  datatype CaseAction = CLAIM_REVIEW | READ_CASE | READ_EVIDENCE | READ_TRACE | RESET | REVIEW | SUPPLY_INFORMATION

  datatype Denial =
    | OtherTenant | ReviewerRoleRequired | OwnReview | NotTheAssignedReviewer | ResearcherRoleRequired
    | NotAssigned | NotAuthorized

  predicate IsAdministrator(actor: Actor) {
    ADMINISTRATOR in actor.roles
  }

  /** The reason for a refusal, if it is refused. */
  function AuthorizeCase(actor: Actor, c: CaseData, action: CaseAction): Option<Denial> {
    if IsAdministrator(actor) then None
    else if actor.tenantId != c.tenantId then Some(OtherTenant)
    else
      var isInvestigator, isReviewer := actor.actorId == c.investigatorId, Some(actor.actorId) == c.reviewerId;
      match action
      case CLAIM_REVIEW =>
        if REVIEWER !in actor.roles then Some(ReviewerRoleRequired) else if isInvestigator then Some(OwnReview)
          else None
      case REVIEW => if REVIEWER !in actor.roles || !isReviewer then Some(NotTheAssignedReviewer) else None
      case READ_TRACE => if RESEARCHER !in actor.roles then Some(ResearcherRoleRequired) else None
      case READ_CASE => if RESEARCHER in actor.roles || isInvestigator || isReviewer then None else Some(NotAssigned)
      case READ_EVIDENCE => if RESEARCHER in actor.roles || isInvestigator || isReviewer then None
        else Some(NotAssigned)
      case SUPPLY_INFORMATION => if isInvestigator || isReviewer then None else Some(NotAuthorized)
      case RESET => if isInvestigator then None else Some(NotAuthorized)
  }

  // ----- the calls of the interface -----

  datatype Call =
    | StartInvestigation(actor: Actor, alertId: string, id: nat, page: bool, q: Retrieval, d: Drafting)
    | ResumeInvestigation(actor: Actor, id: nat, information: map<string, string>, submissionId: string,
                          contentHash: nat, q: Retrieval, d: Drafting)
    | ClaimReview(actor: Actor, id: nat)
    | SubmitReview(actor: Actor, id: nat, version: nat, action: ReviewAction, rationale: string,
                   edited: Option<Recommendation>, q: Retrieval, fault: Fault, d: Drafting)
    | ResetInvestigation(actor: Actor, id: nat, purged: bool)
    | TrustedEvent(id: nat, event: SecurityEvent, next: Pc)

  predicate HasRole(actor: Actor, allowed: set<Role>) {
    IsAdministrator(actor) || actor.roles * allowed != {}
  }

  predicate Permitted(s: System, actor: Actor, allowed: set<Role>, id: nat, action: CaseAction) {
    HasRole(actor, allowed) && id in s.cases && AuthorizeCase(actor, s.cases[id], action).None?
  }

  function ReviewOf(call: Call): Review
    requires call.SubmitReview?
  {
    Review(call.version, call.action, call.actor.actorId, call.rationale, call.edited)
  }

  /** The engine call that a permitted request leads to. */
  function Granted(s: System, call: Call): Option<Action> {
    match call
    case StartInvestigation(actor, alertId, id, page, q, d) =>
      if HasRole(actor, {ANALYST, REVIEWER}) then Some(Start(alertId, actor.tenantId, actor.actorId, id, page, q, d))
        else None
    case ResumeInvestigation(actor, id, information, submissionId, contentHash, q, d) =>
      if Permitted(s, actor, {ANALYST, REVIEWER}, id, SUPPLY_INFORMATION)
      then Some(SupplyInformation(id, Submission(actor.actorId, information, submissionId, contentHash), q, d))
        else None
    case ClaimReview(actor, id) =>
      if Permitted(s, actor, {REVIEWER}, id, CLAIM_REVIEW) && s.cases[id].status == WAITING_FOR_HUMAN_REVIEW
      then Some(AssignReviewer(id, actor.actorId)) else None
    case SubmitReview(actor, id, version, action, rationale, edited, q, fault, d) =>
      if Permitted(s, actor, {REVIEWER}, id, REVIEW) && ValidReview(ReviewOf(call))
      then Some(ReviewCase(id, ReviewOf(call), q, fault, d)) else None
    case ResetInvestigation(actor, id, purged) =>
      if Permitted(s, actor, {ANALYST, REVIEWER}, id, RESET) then Some(Reset(id, purged)) else None
    case TrustedEvent(id, event, next) => Some(RecordSecurityEvent(id, event, next))
  }

  // ----- who is let through -----

  /** The actor is concerned with the case, as its investigator or as its assigned reviewer. */
  predicate Investigates(actor: Actor, c: CaseData) {
    actor.actorId == c.investigatorId
  }

  predicate Reviews(actor: Actor, c: CaseData) {
    c.reviewerId.Some? && c.reviewerId.value == actor.actorId
  }

  /**
   * Within the tenant a review is claimed by a reviewer who does not investigate the case, and given by the
   * reviewer it is assigned to. Researchers see traces, and with the two people concerned cases and evidence.
   * These two supply information, and the investigator resets. Administrators may do all of it, in any tenant.
   */
  lemma AccessMeans(actor: Actor, c: CaseData, action: CaseAction)
    ensures var let_in, everywhere := AuthorizeCase(actor, c, action).None?, ADMINISTRATOR in actor.roles;
            && (everywhere ==> let_in)
            && (!everywhere && actor.tenantId != c.tenantId ==> AuthorizeCase(actor, c, action) == Some(OtherTenant))
            && (!everywhere && actor.tenantId == c.tenantId ==>
                  && (action == CLAIM_REVIEW ==> (let_in <==> REVIEWER in actor.roles && !Investigates(actor, c)))
                  && (action == REVIEW ==> (let_in <==> REVIEWER in actor.roles && Reviews(actor, c)))
                  && (action == READ_TRACE ==> (let_in <==> RESEARCHER in actor.roles))
                  && (action in {READ_CASE, READ_EVIDENCE} ==>
                        (let_in <==> RESEARCHER in actor.roles || Investigates(actor, c) || Reviews(actor, c)))
                  && (action == SUPPLY_INFORMATION ==> (let_in <==> Investigates(actor, c) || Reviews(actor, c)))
                  && (action == RESET ==> (let_in <==> Investigates(actor, c))))
  {
  }

  /** Why a person of the tenant is turned away. */
  lemma DenialMeans(actor: Actor, c: CaseData, action: CaseAction)
    requires ADMINISTRATOR !in actor.roles && actor.tenantId == c.tenantId
    requires AuthorizeCase(actor, c, action).Some?
    ensures var denial := AuthorizeCase(actor, c, action).value;
            && (denial == ReviewerRoleRequired <==> action == CLAIM_REVIEW && REVIEWER !in actor.roles)
            && (denial == OwnReview <==> action == CLAIM_REVIEW && REVIEWER in actor.roles)
            && (denial == NotTheAssignedReviewer <==> action == REVIEW)
            && (denial == ResearcherRoleRequired <==> action == READ_TRACE)
            && (denial == NotAssigned <==> action in {READ_CASE, READ_EVIDENCE})
            && (denial == NotAuthorized <==> action in {SUPPLY_INFORMATION, RESET})
  {
  }

  /** The roles that a request needs besides: the administrator's or one of these. */
  predicate Holds(actor: Actor, a: Role, b: Role) {
    ADMINISTRATOR in actor.roles || a in actor.roles || b in actor.roles
  }

  lemma RolesMean(actor: Actor, a: Role, b: Role)
    ensures HasRole(actor, {a, b}) <==> Holds(actor, a, b)
  {
    if a in actor.roles {
      assert a in actor.roles * {a, b};
    }
    if b in actor.roles {
      assert b in actor.roles * {a, b};
    }
  }

  /** Starting is for analysts and reviewers; the case becomes the actor's, in the actor's tenant. */
  lemma StartGranted(s: System, call: Call)
    requires call.StartInvestigation?
    ensures Granted(s, call).Some? <==> Holds(call.actor, ANALYST, REVIEWER)
    ensures Granted(s, call).Some? ==>
              Granted(s, call).value == Start(call.alertId, call.actor.tenantId, call.actor.actorId, call.id, call.page,
                                              call.q, call.d)
  {
    RolesMean(call.actor, ANALYST, REVIEWER);
  }

  /** Claiming and giving a review are for reviewers, who are named in what they claim and give. */
  lemma ReviewGranted(s: System, call: Call)
    requires call.ClaimReview? || call.SubmitReview?
    ensures Granted(s, call).Some? <==>
            && (REVIEWER in call.actor.roles || ADMINISTRATOR in call.actor.roles) && call.id in s.cases
            && (call.ClaimReview? ==>
                  && s.cases[call.id].status == WAITING_FOR_HUMAN_REVIEW
                  && AuthorizeCase(call.actor, s.cases[call.id], CLAIM_REVIEW).None?)
            && (call.SubmitReview? ==>
                  && AuthorizeCase(call.actor, s.cases[call.id], REVIEW).None?
                  && (call.edited.Some? <==> call.action == EDIT_AND_APPROVE))
    ensures Granted(s, call).Some? && call.ClaimReview? ==>
              Granted(s, call).value == AssignReviewer(call.id, call.actor.actorId)
    ensures Granted(s, call).Some? && call.SubmitReview? ==>
              Granted(s, call).value
              == ReviewCase(call.id, Review(call.version, call.action, call.actor.actorId, call.rationale, call.edited),
                            call.q, call.fault, call.d)
  {
    RolesMean(call.actor, REVIEWER, REVIEWER);
    assert {REVIEWER, REVIEWER} == {REVIEWER};
  }

  /** Supplying information and resetting are for analysts and reviewers who are concerned with the case. */
  lemma OtherGranted(s: System, call: Call)
    requires call.ResumeInvestigation? || call.ResetInvestigation?
    ensures Granted(s, call).Some? <==>
            && Holds(call.actor, ANALYST, REVIEWER) && call.id in s.cases
            && AuthorizeCase(call.actor, s.cases[call.id],
                             if call.ResumeInvestigation? then SUPPLY_INFORMATION else RESET).None?
    ensures Granted(s, call).Some? && call.ResumeInvestigation? ==>
              Granted(s, call).value
              == SupplyInformation(call.id, Submission(call.actor.actorId, call.information, call.submissionId,
                                                       call.contentHash), call.q, call.d)
    ensures Granted(s, call).Some? && call.ResetInvestigation? ==>
              Granted(s, call).value == Reset(call.id, call.purged)
  {
    RolesMean(call.actor, ANALYST, REVIEWER);
  }

  ghost function Served(s: System, env: Environment, call: Call): System {
    match Granted(s, call) case None => s case Some(a) => Step(s, env, a)
  }

  /** `directory` gives the tenant of each actor id. */
  type Directory = string -> string

  /** A new case id was never used. */
  predicate Admissible(s: System, call: Call) {
    call.StartInvestigation? ==> call.id !in s.cases && call.id !in s.threads
  }

  /** A call by somebody who is no administrator, under the tenant the directory lists. */
  predicate Ordinary(directory: Directory, call: Call) {
    !call.TrustedEvent? ==> !IsAdministrator(call.actor) && call.actor.tenantId == directory(call.actor.actorId)
  }

  ghost function ServedAll(env: Environment, calls: seq<Call>): System {
    if calls == [] then System(map[], map[], [])
    else Served(ServedAll(env, calls[..|calls| - 1]), env, calls[|calls| - 1])
  }

  ghost predicate AdmissibleRun(env: Environment, calls: seq<Call>) {
    forall i :: 0 <= i < |calls| ==> Admissible(ServedAll(env, calls[..i]), calls[i])
  }

  ghost predicate OrdinaryRun(env: Environment, directory: Directory, calls: seq<Call>) {
    AdmissibleRun(env, calls) && forall i :: 0 <= i < |calls| ==> Ordinary(directory, calls[i])
  }

  // ----- separation of duties -----

  /** The reviewer is of the case's tenant and not its investigator, and wrote all its reviews. */
  ghost predicate Separated(c: CaseData, directory: Directory) {
    && (c.reviewerId.Some? ==> c.reviewerId.value != c.investigatorId && directory(c.reviewerId.value) == c.tenantId)
    && forall i :: 0 <= i < |c.reviews| ==> Some(c.reviews[i].reviewerId) == c.reviewerId
  }

  ghost predicate AllSeparated(s: System, directory: Directory) {
    forall id :: id in s.cases ==> Separated(s.cases[id], directory)
  }

  /**
   * What separation needs of a call: a first claim by somebody of the case's tenant other than its
   * investigator, and a review that is recorded only from the assigned reviewer.
   */
  predicate Proper(s: System, directory: Directory, call: Call) {
    match call
    case ClaimReview(actor, id) =>
      Granted(s, call).Some? && s.cases[id].reviewerId.None? ==>
        actor.actorId != s.cases[id].investigatorId && directory(actor.actorId) == s.cases[id].tenantId
    case SubmitReview(actor, id, _, _, _, _, _, fault, _) =>
      Granted(s, call).Some? && AcceptsReview(s, id, ReviewOf(call))
      && s.cases[id].status == WAITING_FOR_HUMAN_REVIEW && fault != BeforeWrites ==>
        Some(actor.actorId) == s.cases[id].reviewerId
    case _ => true
  }

  ghost predicate ProperRun(env: Environment, directory: Directory, calls: seq<Call>) {
    forall i :: 0 <= i < |calls| ==> ProperAt(env, directory, calls, i)
  }

  /** The i-th call of the run is proper when it is made. */
  ghost predicate ProperAt(env: Environment, directory: Directory, calls: seq<Call>, i: nat)
    requires i < |calls|
  {
    Proper(ServedAll(env, calls[..i]), directory, calls[i])
  }

  /** The access rules make every ordinary call proper. */
  lemma OrdinaryIsProper(s: System, directory: Directory, call: Call)
    requires Ordinary(directory, call)
    ensures Proper(s, directory, call)
  {
  }

  lemma GrantedIsLegal(s: System, call: Call)
    requires Admissible(s, call) && Granted(s, call).Some?
    ensures Legal(s, Granted(s, call).value)
  {
  }

  lemma PutSeparated(s: System, id: nat, l: Local, directory: Directory)
    requires AllSeparated(s, directory) && Separated(l.c, directory)
    ensures AllSeparated(Put(s, id, l), directory)
  {
  }

  lemma RunCaseSeparates(s: System, c: CaseData, actorId: string, env: Environment, directory: Directory, q: Retrieval,
                         d: Drafting)
    requires Sound(s) && AllSeparated(s, directory) && Reviewed(c) && Separated(c, directory)
    ensures AllSeparated(RunCase(s, c, actorId, env, q, d), directory)
  {
    var l := Local(c, Input(c, actorId, Earlier(s, c.caseId)));
    var executions := s.executions + ReadAll(env.bank, AuthOf(l.cp), c.alertId).executions;
    ReadAllIsSafe(env.bank, AuthOf(l.cp), c.alertId);
    InputIsClear(c, actorId, Earlier(s, c.caseId));
    RunRests(l, env, q, d, executions);
    RunSameIdentity(l, env, q, d, executions);
    PutSeparated(s, c.caseId, Run(l, env, q, d, executions), directory);
  }

  lemma StartSeparates(s: System, env: Environment, directory: Directory, a: Action)
    requires Sound(s) && AllSeparated(s, directory) && a.Start? && Legal(s, a)
    ensures AllSeparated(Step(s, env, a), directory)
  {
    var created := Created(s.cases, env.bank, a.alertId, a.tenantId, a.actorId, a.id);
    if created.Ok? {
      var c := created.value.0;
      if !created.value.1 {
        var id := Existing(s.cases, a.alertId, a.tenantId).value;
        assert QuiescentAt(s, id) && Separated(s.cases[id], directory);
      }
      if created.value.1 || (a.rerunFailed && c.status == FAILED) {
        RunCaseSeparates(s, c, a.actorId, env, directory, a.q, a.d);
      }
    }
  }

  /** Replacing one case leaves all separated exactly when the new one is. */
  lemma PutSeparatedExactly(s: System, id: nat, l: Local, directory: Directory)
    requires AllSeparated(s, directory)
    ensures AllSeparated(Put(s, id, l), directory) <==> Separated(l.c, directory)
  {
    assert Put(s, id, l).cases[id] == l.c;
  }

  lemma AssignSeparatesExactly(c: CaseData, actorId: string, directory: Directory)
    requires Separated(c, directory) && c.reviewerId in {None, Some(actorId)}
    ensures Separated(c.(reviewerId := Some(actorId)), directory) <==>
            c.reviewerId.Some? || (actorId != c.investigatorId && directory(actorId) == c.tenantId)
  {
  }

  lemma ClaimServed(s: System, env: Environment, call: Call)
    requires call.ClaimReview? && Granted(s, call).Some? && call.id in s.threads
    requires s.cases[call.id].reviewerId in {None, Some(call.actor.actorId)}
    ensures Served(s, env, call)
            == Put(s, call.id, Local(s.cases[call.id].(reviewerId := Some(call.actor.actorId)), s.threads[call.id]))
  {
    assert s.threads[call.id := s.threads[call.id]] == s.threads;
  }

  lemma ClaimRefused(s: System, env: Environment, call: Call)
    requires call.ClaimReview?
    requires Granted(s, call).Some? ==> s.cases[call.id].reviewerId !in {None, Some(call.actor.actorId)}
    ensures Served(s, env, call) == s
  {
  }

  lemma ClaimSeparatesExactly(s: System, env: Environment, directory: Directory, call: Call)
    requires Sound(s) && AllSeparated(s, directory) && call.ClaimReview?
    ensures AllSeparated(Served(s, env, call), directory) <==> Proper(s, directory, call)
  {
    if Granted(s, call).Some? && s.cases[call.id].reviewerId in {None, Some(call.actor.actorId)} {
      var c := s.cases[call.id];
      assert Separated(c, directory) && QuiescentAt(s, call.id);
      AssignSeparatesExactly(c, call.actor.actorId, directory);
      ClaimServed(s, env, call);
      PutSeparatedExactly(s, call.id, Local(c.(reviewerId := Some(call.actor.actorId)), s.threads[call.id]), directory);
    } else {
      ClaimRefused(s, env, call);
    }
  }

  lemma SubmitSeparatesExactly(s: System, env: Environment, directory: Directory, call: Call)
    requires Sound(s) && AllSeparated(s, directory) && call.SubmitReview?
    ensures AllSeparated(Served(s, env, call), directory) <==> Proper(s, directory, call)
  {
    var review := ReviewOf(call);
    if Granted(s, call).Some? && AcceptsReview(s, call.id, review) {
      var l := At(s, call.id);
      assert QuiescentAt(s, call.id) && Separated(l.c, directory);
      var r := Resume(l, OfReview(review), env, call.q, call.fault, call.d, s.executions);
      ResumeRecordsExactly(l, review, env, call.q, call.fault, call.d, s.executions);
      ResumeSameIdentity(l, OfReview(review), env, call.q, call.fault, call.d, s.executions);
      OneMoreReview(l.c, r.c, review, directory);
      PutSeparatedExactly(s, call.id, r, directory);
    }
  }

  lemma OneMoreReview(c: CaseData, r: CaseData, review: Review, directory: Directory)
    requires Separated(c, directory) && SameIdentity(c, r)
             && (r.reviews == c.reviews || r.reviews == c.reviews + [review])
    ensures Separated(r, directory) <==> r.reviews == c.reviews || Some(review.reviewerId) == c.reviewerId
  {
    if r.reviews != c.reviews {
      assert r.reviews[|c.reviews|] == review;
    }
  }

  lemma InformationSeparates(s: System, env: Environment, directory: Directory, call: Call)
    requires Sound(s) && AllSeparated(s, directory) && call.ResumeInvestigation?
    ensures AllSeparated(Served(s, env, call), directory)
  {
    var submission := Submission(call.actor.actorId, call.information, call.submissionId, call.contentHash);
    if Granted(s, call).Some? && AcceptsInformation(s, call.id) {
      var l := At(s, call.id);
      assert QuiescentAt(s, call.id) && Separated(l.c, directory);
      ResumeRests(l, OfSubmission(submission), env, call.q, NoFault, call.d, s.executions);
      ResumeSameIdentity(l, OfSubmission(submission), env, call.q, NoFault, call.d, s.executions);
      PutSeparated(s, call.id, Resume(l, OfSubmission(submission), env, call.q, NoFault, call.d, s.executions),
                   directory);
    }
  }

  lemma RevokedSeparates(s: System, id: nat, event: SecurityEvent, next: Pc, directory: Directory)
    requires AllSeparated(s, directory) && id in s.cases && id in s.threads
    ensures AllSeparated(Put(s, id, Revoke(At(s, id), event, next)), directory)
  {
    assert Separated(s.cases[id], directory);
  }

  lemma EventSeparates(s: System, env: Environment, directory: Directory, call: Call)
    requires AllSeparated(s, directory) && call.TrustedEvent?
    ensures AllSeparated(Served(s, env, call), directory)
  {
    if call.id in s.cases && call.id in s.threads {
      RevokedSeparates(s, call.id, call.event, call.next, directory);
    }
  }

  lemma BeginSeparates(s: System, env: Environment, directory: Directory, call: Call)
    requires Sound(s) && AllSeparated(s, directory) && call.StartInvestigation? && Admissible(s, call)
    ensures AllSeparated(Served(s, env, call), directory)
  {
    if Granted(s, call).Some? {
      StartSeparates(s, env, directory, Granted(s, call).value);
    }
  }

  lemma ResetSeparates(s: System, env: Environment, directory: Directory, call: Call)
    requires AllSeparated(s, directory) && call.ResetInvestigation?
    ensures AllSeparated(Served(s, env, call), directory)
  {
  }

  /** A call keeps all cases separated exactly when it is proper. */
  lemma ServedSeparatesExactly(s: System, env: Environment, directory: Directory, call: Call)
    requires Sound(s) && AllSeparated(s, directory) && Admissible(s, call)
    ensures AllSeparated(Served(s, env, call), directory) <==> Proper(s, directory, call)
  {
    match call
    case StartInvestigation(_, _, _, _, _, _) => BeginSeparates(s, env, directory, call);
    case ResumeInvestigation(_, _, _, _, _, _, _) => InformationSeparates(s, env, directory, call);
    case ClaimReview(_, _) => ClaimSeparatesExactly(s, env, directory, call);
    case SubmitReview(_, _, _, _, _, _, _, _, _) => SubmitSeparatesExactly(s, env, directory, call);
    case ResetInvestigation(_, _, _) => ResetSeparates(s, env, directory, call);
    case TrustedEvent(_, _, _) => EventSeparates(s, env, directory, call);
  }

  lemma FrontAdmissible(env: Environment, calls: seq<Call>)
    requires AdmissibleRun(env, calls) && calls != []
    ensures AdmissibleRun(env, calls[..|calls| - 1])
    ensures Admissible(ServedAll(env, calls[..|calls| - 1]), calls[|calls| - 1])
  {
    var before := calls[..|calls| - 1];
    forall i | 0 <= i < |before| ensures Admissible(ServedAll(env, before[..i]), before[i]) {
      assert before[..i] == calls[..i];
    }
  }

  lemma {:induction false} ServedRunsStaySound(env: Environment, calls: seq<Call>)
    requires AdmissibleRun(env, calls)
    ensures Sound(ServedAll(env, calls))
  {
    if calls != [] {
      var before, last := calls[..|calls| - 1], calls[|calls| - 1];
      FrontAdmissible(env, calls);
      ServedRunsStaySound(env, before);
      var s := ServedAll(env, before);
      if Granted(s, last).Some? {
        GrantedIsLegal(s, last);
        StepSound(s, env, Granted(s, last).value);
      }
    }
  }

  /** All cases are separated after the first i calls of the run. */
  ghost predicate SeparatedAt(env: Environment, directory: Directory, calls: seq<Call>, i: nat)
    requires i <= |calls|
  {
    AllSeparated(ServedAll(env, calls[..i]), directory)
  }

  ghost predicate AlwaysSeparated(env: Environment, directory: Directory, calls: seq<Call>) {
    forall i :: 0 <= i <= |calls| ==> SeparatedAt(env, directory, calls, i)
  }

  /** A run, administrators included, is separated at every moment exactly when each of its calls is proper. */
  lemma {:induction false} RunSeparatesExactly(env: Environment, directory: Directory, calls: seq<Call>)
    requires AdmissibleRun(env, calls)
    ensures AlwaysSeparated(env, directory, calls) <==> ProperRun(env, directory, calls)
  {
    assert calls[..|calls|] == calls;
    if calls == [] {
      assert SeparatedAt(env, directory, calls, 0);
    } else {
      var before, last := calls[..|calls| - 1], calls[|calls| - 1];
      FrontAdmissible(env, calls);
      RunSeparatesExactly(env, directory, before);
      ServedRunsStaySound(env, before);
      AlwaysSnoc(env, directory, calls);
      ProperSnoc(env, directory, calls);
      if AlwaysSeparated(env, directory, before) {
        assert before[..|before|] == before && SeparatedAt(env, directory, before, |before|);
        ServedSeparatesExactly(ServedAll(env, before), env, directory, last);
      }
    }
  }

  lemma AlwaysSnoc(env: Environment, directory: Directory, calls: seq<Call>)
    requires calls != []
    ensures AlwaysSeparated(env, directory, calls) <==>
            AlwaysSeparated(env, directory, calls[..|calls| - 1]) && SeparatedAt(env, directory, calls, |calls|)
  {
    var before := calls[..|calls| - 1];
    forall i | 0 <= i <= |before|
      ensures SeparatedAt(env, directory, before, i) == SeparatedAt(env, directory, calls, i)
    {
      assert before[..i] == calls[..i];
    }
  }

  lemma ProperSnoc(env: Environment, directory: Directory, calls: seq<Call>)
    requires calls != []
    ensures ProperRun(env, directory, calls) <==>
            ProperRun(env, directory, calls[..|calls| - 1])
            && ProperAt(env, directory, calls, |calls| - 1)
  {
    var before := calls[..|calls| - 1];
    forall i | 0 <= i < |before| ensures ProperAt(env, directory, before, i) == ProperAt(env, directory, calls, i) {
      assert before[..i] == calls[..i];
    }
  }

  /** Without administrators every run stays separated. */
  lemma OrdinaryRunsStaySeparated(env: Environment, directory: Directory, calls: seq<Call>)
    requires OrdinaryRun(env, directory, calls)
    ensures Sound(ServedAll(env, calls)) && AllSeparated(ServedAll(env, calls), directory)
  {
    forall i | 0 <= i < |calls| ensures ProperAt(env, directory, calls, i) {
      OrdinaryIsProper(ServedAll(env, calls[..i]), directory, calls[i]);
    }
    RunSeparatesExactly(env, directory, calls);
    ServedRunsStaySound(env, calls);
    assert calls[..|calls|] == calls && SeparatedAt(env, directory, calls, |calls|);
  }

  /**
   * In any run without administrators, a completed case was approved by its assigned reviewer, who
   * is of the case's tenant and is not its investigator.
   */
  lemma ApproverIsIndependent(env: Environment, directory: Directory, calls: seq<Call>, id: nat)
    requires OrdinaryRun(env, directory, calls)
    requires id in ServedAll(env, calls).cases && ServedAll(env, calls).cases[id].status == COMPLETED
    ensures var c := ServedAll(env, calls).cases[id];
            && c.reviews != [] && Approves(c.reviews[|c.reviews| - 1])
            && c.reviewerId == Some(c.reviews[|c.reviews| - 1].reviewerId)
            && c.reviewerId.value != c.investigatorId && directory(c.reviewerId.value) == c.tenantId
  {
    OrdinaryRunsStaySeparated(env, directory, calls);
    assert QuiescentAt(ServedAll(env, calls), id);
    assert Separated(ServedAll(env, calls).cases[id], directory);
  }

  predicate Fixed(before: System, after: System, id: nat) {
    id in before.cases && id in after.cases ==>
      && after.cases[id].investigatorId == before.cases[id].investigatorId
      && (before.cases[id].reviewerId.Some? ==> after.cases[id].reviewerId == before.cases[id].reviewerId)
  }

  /** Once made, an assignment stays until the case is reset, and the investigator never changes. */
  lemma AssignmentIsFixed(s: System, env: Environment, call: Call, id: nat)
    requires Sound(s)
    requires call.StartInvestigation? ==> call.id !in s.cases && call.id !in s.threads
    ensures Fixed(s, Served(s, env, call), id)
  {
    match call
    case StartInvestigation(_, _, _, _, _, _) =>
      if Granted(s, call).Some? && id in s.cases { StartFixes(s, env, Granted(s, call).value, id); }
    case SubmitReview(_, _, _, _, _, _, _, _, _) => ReviewFixes(s, env, call, id);
    case ResumeInvestigation(_, _, _, _, _, _, _) => InformationFixes(s, env, call, id);
    case _ => OtherFixes(s, env, call, id);
  }

  lemma ReviewFixes(s: System, env: Environment, call: Call, id: nat)
    requires call.SubmitReview?
    ensures Fixed(s, Served(s, env, call), id)
  {
    if AcceptsReview(s, call.id, ReviewOf(call)) {
      ResumeSameIdentity(At(s, call.id), OfReview(ReviewOf(call)), env, call.q, call.fault, call.d, s.executions);
    }
  }

  lemma InformationFixes(s: System, env: Environment, call: Call, id: nat)
    requires call.ResumeInvestigation?
    ensures Fixed(s, Served(s, env, call), id)
  {
    var submission := Submission(call.actor.actorId, call.information, call.submissionId, call.contentHash);
    if AcceptsInformation(s, call.id) {
      ResumeSameIdentity(At(s, call.id), OfSubmission(submission), env, call.q, NoFault, call.d, s.executions);
    }
  }

  lemma OtherFixes(s: System, env: Environment, call: Call, id: nat)
    requires call.ClaimReview? || call.ResetInvestigation? || call.TrustedEvent?
    ensures Fixed(s, Served(s, env, call), id)
  {
  }

  lemma RunCaseFixes(s: System, c: CaseData, actorId: string, env: Environment, q: Retrieval, d: Drafting, id: nat)
    requires id in s.cases && (c.caseId == id ==> c == s.cases[id])
    ensures var t := RunCase(s, c, actorId, env, q, d); id in t.cases && SameIdentity(s.cases[id], t.cases[id])
  {
    var l := Local(c, Input(c, actorId, Earlier(s, c.caseId)));
    RunSameIdentity(l, env, q, d, s.executions + ReadAll(env.bank, AuthOf(l.cp), c.alertId).executions);
  }

  lemma StartFixes(s: System, env: Environment, a: Action, id: nat)
    requires Sound(s) && a.Start? && Legal(s, a) && id in s.cases
    ensures id in StartCase(s, env, a).cases && SameIdentity(s.cases[id], StartCase(s, env, a).cases[id])
  {
    var created := Created(s.cases, env.bank, a.alertId, a.tenantId, a.actorId, a.id);
    if created.Ok? {
      var c := created.value.0;
      if !created.value.1 {
        assert QuiescentAt(s, Existing(s.cases, a.alertId, a.tenantId).value);
      }
      if created.value.1 || (a.rerunFailed && c.status == FAILED) {
        RunCaseFixes(s, c, a.actorId, env, a.q, a.d, id);
      }
    }
  }

  lemma AdministratorClaims(s: System, env: Environment, actor: Actor, id: nat)
    requires id in s.cases && s.cases[id].status == WAITING_FOR_HUMAN_REVIEW && s.cases[id].reviewerId.None?
    requires IsAdministrator(actor)
    ensures Served(s, env, ClaimReview(actor, id))
            == s.(cases := s.cases[id := s.cases[id].(reviewerId := Some(actor.actorId))])
  {
  }

  lemma AdministratorApproves(s: System, env: Environment, actor: Actor, id: nat, q: Retrieval, d: Drafting)
    requires Sound(s) && id in s.cases && s.cases[id].status == WAITING_FOR_HUMAN_REVIEW && IsAdministrator(actor)
    ensures var done := Served(s, env, SubmitReview(actor, id, s.cases[id].version, APPROVE, "", None, q, NoFault, d));
            && id in done.cases && done.cases[id].status == COMPLETED
            && done.cases[id].reviewerId == s.cases[id].reviewerId
               && done.cases[id].investigatorId == s.cases[id].investigatorId
  {
    var call := SubmitReview(actor, id, s.cases[id].version, APPROVE, "", None, q, NoFault, d);
    assert Granted(s, call) == Some(ReviewCase(id, ReviewOf(call), q, NoFault, d));
    ApprovalCompletes(s, env, id, Review(s.cases[id].version, APPROVE, actor.actorId, "", None), q, d);
  }

  /** So an administrator who is proper in neither call breaks it: they can approve a case of their own. */
  lemma AdministratorsCanApproveTheirOwn(s: System, env: Environment, actor: Actor, id: nat, q: Retrieval, d: Drafting)
    requires Sound(s) && id in s.cases && s.cases[id].status == WAITING_FOR_HUMAN_REVIEW && s.cases[id].reviewerId.None?
    requires IsAdministrator(actor) && actor.actorId == s.cases[id].investigatorId
    ensures var claimed := Served(s, env, ClaimReview(actor, id));
            var done := Served(claimed, env,
                               SubmitReview(actor, id, s.cases[id].version, APPROVE, "", None, q, NoFault, d));
            && id in done.cases && done.cases[id].status == COMPLETED
            && done.cases[id].reviewerId == Some(done.cases[id].investigatorId)
  {
    var claimed := s.(cases := s.cases[id := s.cases[id].(reviewerId := Some(actor.actorId))]);
    ClaimSound(s, id, actor.actorId);
    AdministratorClaims(s, env, actor, id);
    AdministratorApproves(claimed, env, actor, id, q, d);
  }
}
