/** The in-memory repository of cases, with its audit log, and the case-scoped tools that read the bank. */
module CaseRepository {
  import opened Prelude
  import opened CaseModel
  import PA = PolicyApplicability
  import AC = AuditChain

  // ----- the bank -----

  /** A customer record's id is the customer id. */
  datatype Record = Record(id: string, customerId: string, content: PA.Content, contentHash: nat)

  datatype Bank = Bank(alerts: seq<Record>, customers: seq<Record>, kyc: seq<Record>, transactions: seq<Record>)

  function FirstWhere(records: seq<Record>, match_: Record -> bool): (r: Option<Record>)
    ensures r.Some? ==> r.value in records && match_(r.value)
    ensures r.None? ==> forall x :: x in records ==> !match_(x)
  {
    if records == [] then None else if match_(records[0]) then Some(records[0]) else FirstWhere(records[1..], match_)
  }

  function HasId(id: string): Record -> bool {
    (x: Record) => x.id == id
  }

  function OfCustomer(id: string): Record -> bool {
    (x: Record) => x.customerId == id
  }

  // ----- the repository -----

  datatype RepositoryError = UnknownCase | UnknownAlert | AssignedToAnother | DuplicateReview | ReviewAlreadyAssigned

  datatype Result<T> = Ok(value: T) | Err(error: RepositoryError)

  predicate SameAlert(c: CaseData, alertId: string, tenantId: string) {
    c.alertId == alertId && c.tenantId == tenantId
  }

  /** Every case is stored under its id, and an alert has at most one case in a tenant. */
  ghost predicate ValidCases(cases: map<nat, CaseData>) {
    && (forall id :: id in cases ==> cases[id].caseId == id)
    && (forall i, j :: i in cases && j in cases && SameAlert(cases[i], cases[j].alertId, cases[j].tenantId) ==> i == j)
  }

  ghost function Existing(cases: map<nat, CaseData>, alertId: string, tenantId: string): (r: Option<nat>)
    ensures r.Some? ==> r.value in cases && SameAlert(cases[r.value], alertId, tenantId)
    ensures r.None? ==> forall id :: id in cases ==> !SameAlert(cases[id], alertId, tenantId)
  {
    if exists id :: id in cases && SameAlert(cases[id], alertId, tenantId)
    then var id :| id in cases && SameAlert(cases[id], alertId, tenantId); Some(id)
    else None
  }

  function NewCase(id: nat, alert: Record, tenantId: string, investigatorId: string): CaseData {
    CaseData(id, alert.id, alert.customerId, tenantId, investigatorId, None, OPEN, None, 0, [])
  }

  /** The case, and whether it is a new one. */
  ghost function Created(cases: map<nat, CaseData>, bank: Bank, alertId: string, tenantId: string,
                         investigatorId: string, id: nat): Result<(CaseData, bool)>
  {
    match Existing(cases, alertId, tenantId)
    case Some(old_) =>
      if cases[old_].investigatorId != investigatorId then Err(AssignedToAnother) else Ok((cases[old_], false))
    case None =>
      match FirstWhere(bank.alerts, HasId(alertId))
      case None => Err(UnknownAlert)
      case Some(alert) => Ok((NewCase(id, alert, tenantId, investigatorId), true))
  }

  predicate Recorded(reviews: seq<Review>, r: Review) {
    exists i :: 0 <= i < |reviews| && reviews[i].version == r.version && reviews[i].action == r.action
  }

  function WithDraft(c: CaseData, r: Recommendation): CaseData {
    c.(version := c.version + 1, recommendation := Some(r))
  }

  function WithReview(c: CaseData, r: Review): CaseData {
    c.(reviews := c.reviews + [r])
  }

  /** The log only grows, and keeps verifying. */
  ghost predicate Grown(h: AC.Hash, before: seq<AC.AuditEvent>, after: seq<AC.AuditEvent>) {
    before <= after && (AC.WellBuilt(h, before) ==> AC.WellBuilt(h, after))
  }

  /** A log grown from nothing verifies, in whatever order it is presented. */
  lemma GrownLogVerifies(h: AC.Hash, log: seq<AC.AuditEvent>, presented: seq<AC.AuditEvent>)
    requires Grown(h, [], log) && multiset(presented) == multiset(log)
    ensures AC.Invalid(h, presented) == []
  {
    AC.SortsBack(log, presented);
    AC.ReportedNothing(h, log);
  }

  class InMemoryInvestigationRepository {
    const bank: Bank
    const hash: AC.Hash
    var cases: map<nat, CaseData>
    var auditEvents: seq<AC.AuditEvent>

    constructor (bank: Bank, hash: AC.Hash)
      ensures this.bank == bank && this.hash == hash && cases == map[] && auditEvents == []
    {
      this.bank := bank;
      this.hash := hash;
      cases := map[];
      auditEvents := [];
    }

    /** `id` stands for the new random case id. */
    method CreateCase(alertId: string, tenantId: string, investigatorId: string, id: nat)
      returns (r: Result<(CaseData, bool)>)
      requires ValidCases(cases) && id !in cases
      modifies this`cases
      ensures r == Created(old(cases), bank, alertId, tenantId, investigatorId, id)
      ensures cases == if r.Ok? && r.value.1 then old(cases)[id := r.value.0] else old(cases)
      ensures ValidCases(cases)
    {
      var ids := cases.Keys;
      while ids != {}
        invariant ids <= cases.Keys && cases == old(cases)
        invariant forall k :: k in cases && k !in ids ==> !SameAlert(cases[k], alertId, tenantId)
        decreases |ids|
      {
        var k :| k in ids;
        if cases[k].alertId == alertId && cases[k].tenantId == tenantId {
          if cases[k].investigatorId != investigatorId { return Err(AssignedToAnother); }
          return Ok((cases[k], false));
        }
        ids := ids - {k};
      }
      var alert := FirstWhere(bank.alerts, HasId(alertId));
      if alert.None? { return Err(UnknownAlert); }
      var c := NewCase(id, alert.value, tenantId, investigatorId);
      cases := cases[id := c];
      r := Ok((c, true));
    }

    method DeleteCase(id: nat) returns (error: Option<RepositoryError>)
      modifies this`cases
      ensures error == if id in old(cases) then None else Some(UnknownCase)
      ensures cases == old(cases) - {id}
    {
      if id !in cases { return Some(UnknownCase); }
      cases := cases - {id};
      error := None;
    }

    /** The new version number; each draft and each edited text counts. */
    method SaveRecommendation(id: nat, r: Recommendation) returns (version: Result<nat>)
      modifies this`cases
      ensures version.Ok? <==> id in old(cases)
      ensures version.Err? ==> cases == old(cases)
      ensures version.Ok? ==>
              cases == old(cases)[id := WithDraft(old(cases)[id], r)] && version.value == cases[id].version
    {
      if id !in cases { return Err(UnknownCase); }
      var c := cases[id];
      cases := cases[id := c.(version := c.version + 1, recommendation := Some(r))];
      version := Ok(cases[id].version);
    }

    /** One review per version and action. */
    method SaveReview(id: nat, r: Review) returns (error: Option<RepositoryError>)
      modifies this`cases
      ensures error == if id !in old(cases) then Some(UnknownCase)
                       else if Recorded(old(cases)[id].reviews, r) then Some(DuplicateReview) else None
      ensures cases == if error.None? then old(cases)[id := WithReview(old(cases)[id], r)] else old(cases)
    {
      if id !in cases { return Some(UnknownCase); }
      if Recorded(cases[id].reviews, r) { return Some(DuplicateReview); }
      cases := cases[id := cases[id].(reviews := cases[id].reviews + [r])];
      error := None;
    }

    /** A review stays with the first reviewer who claims it. */
    method AssignReviewer(id: nat, reviewerId: string) returns (error: Option<RepositoryError>)
      modifies this`cases
      ensures error == if id !in old(cases) then Some(UnknownCase)
                       else if old(cases)[id].reviewerId in {None, Some(reviewerId)} then None
                         else Some(ReviewAlreadyAssigned)
      ensures cases == if error.None? then old(cases)[id := old(cases)[id].(reviewerId := Some(reviewerId))]
              else old(cases)
    {
      if id !in cases { return Some(UnknownCase); }
      if cases[id].reviewerId.Some? && cases[id].reviewerId.value != reviewerId { return Some(ReviewAlreadyAssigned); }
      cases := cases[id := cases[id].(reviewerId := Some(reviewerId))];
      error := None;
    }

    method SetStatus(id: nat, status: Status) returns (error: Option<RepositoryError>)
      modifies this`cases
      ensures error == if id in old(cases) then None else Some(UnknownCase)
      ensures cases == if id in old(cases) then old(cases)[id := old(cases)[id].(status := status)] else old(cases)
    {
      if id !in cases { return Some(UnknownCase); }
      cases := cases[id := cases[id].(status := status)];
      error := None;
    }

    method Audit(call: AC.Call)
      modifies this`auditEvents
      ensures auditEvents == AC.Append(hash, old(auditEvents), call)
      ensures Grown(hash, old(auditEvents), auditEvents)
    {
      ghost var before := auditEvents;
      var previous := if auditEvents == [] then AC.GENESIS else auditEvents[|auditEvents| - 1].eventHash;
      var sequence := |auditEvents| + 1;
      var content := AC.Content(sequence, call.eventType, call.actorId, call.caseId, call.payload, previous);
      auditEvents := auditEvents
        + [AC.AuditEvent(sequence, call.eventType, call.actorId, call.caseId, call.payload, previous, hash(content))];
      if AC.WellBuilt(hash, before) {
        AC.AppendKeeps(hash, before, call);
      }
    }
  }

  // ----- the tools -----

  datatype ToolName =
    | GET_ALERT | GET_CUSTOMER_PROFILE | GET_KYC_PROFILE | GET_TRANSACTIONS
    | SUBMIT_STR | FREEZE_ACCOUNT | BLOCK_TRANSACTION | CONTACT_CUSTOMER | UPDATE_KYC
    | OtherTool(name: string)

  predicate IsProhibited(tool: ToolName) {
    tool.SUBMIT_STR? || tool.FREEZE_ACCOUNT? || tool.BLOCK_TRANSACTION? || tool.CONTACT_CUSTOMER? || tool.UPDATE_KYC?
  }

  datatype ErrorCode = NO_ERROR | CROSS_SCOPE_ACCESS | PROHIBITED_ACTION

  datatype Authorization = Authorization(caseId: nat, customerId: string, actorId: string)

  datatype Execution = Execution(caseId: nat, toolName: ToolName, authorized: bool, evidenceIds: seq<string>,
                                 errorCode: ErrorCode)

  datatype ToolError = UnknownTool | ProhibitedAction

  datatype Read = Read(items: Option<seq<PA.Item>>, executions: seq<Execution>)

  function Denied(auth: Authorization, tool: ToolName): Read {
    Read(None, [Execution(auth.caseId, tool, false, [], CROSS_SCOPE_ACCESS)])
  }

  function Granted(auth: Authorization, tool: ToolName, items: seq<PA.Item>): Read {
    Read(Some(items), [Execution(auth.caseId, tool, true, PA.Ids(items), NO_ERROR)])
  }

  function EvidenceOf(auth: Authorization, evidenceId: string, evidenceType: PA.EvidenceType, r: Record): PA.Item {
    PA.Item(evidenceId, evidenceType, auth.caseId, auth.customerId, r.contentHash, r.content)
  }

  /** The alert is looked up before its customer is checked. */
  function ReadAlert(bank: Bank, auth: Authorization, alertId: string): Read {
    match FirstWhere(bank.alerts, HasId(alertId))
    case None => Read(None, [])
    case Some(alert) =>
      if alert.customerId != auth.customerId then Denied(auth, GET_ALERT)
      else Granted(auth, GET_ALERT, [EvidenceOf(auth, "ALERT-" + alert.id, PA.ALERT, alert)])
  }

  function ReadCustomer(bank: Bank, auth: Authorization, customerId: string): Read {
    if customerId != auth.customerId then Denied(auth, GET_CUSTOMER_PROFILE) else
    match FirstWhere(bank.customers, HasId(customerId))
    case None => Read(None, [])
    case Some(r) => Granted(auth, GET_CUSTOMER_PROFILE,
                            [EvidenceOf(auth, "CUSTOMER-" + customerId, PA.CUSTOMER_PROFILE, r)])
  }

  function ReadKyc(bank: Bank, auth: Authorization, customerId: string): Read {
    if customerId != auth.customerId then Denied(auth, GET_KYC_PROFILE) else
    match FirstWhere(bank.kyc, OfCustomer(customerId))
    case None => Read(None, [])
    case Some(r) => Granted(auth, GET_KYC_PROFILE, [EvidenceOf(auth, "KYC-" + r.id, PA.KYC_PROFILE, r)])
  }

  function LastOf<T>(s: seq<T>, n: nat): seq<T> {
    if |s| <= n then s else s[|s| - n..]
  }

  function TransactionItems(auth: Authorization, records: seq<Record>): (r: seq<PA.Item>)
    ensures |r| == |records|
    ensures forall i :: 0 <= i < |r| ==> r[i] == EvidenceOf(auth, records[i].id, PA.TRANSACTION, records[i])
  {
    if records == [] then [] else
      TransactionItems(auth, records[..|records| - 1])
      + [EvidenceOf(auth, records[|records| - 1].id, PA.TRANSACTION, records[|records| - 1])]
  }

  /** The last `limit` transactions of the customer. */
  function ReadTransactions(bank: Bank, auth: Authorization, customerId: string, limit: int): Read {
    if customerId != auth.customerId then Denied(auth, GET_TRANSACTIONS)
    else if !(1 <= limit <= 500) then Read(None, [])
    else Granted(auth, GET_TRANSACTIONS,
                 TransactionItems(auth, LastOf(Filter(bank.transactions, OfCustomer(customerId)), limit)))
  }

  /** No prohibited tool was ever carried out. */
  predicate NoneProhibited(executions: seq<Execution>) {
    forall i :: 0 <= i < |executions| ==> executions[i].authorized ==> !IsProhibited(executions[i].toolName)
  }

  class InvestigationTools {
    const repository: InMemoryInvestigationRepository
    var executions: seq<Execution>

    constructor (repository: InMemoryInvestigationRepository)
      ensures this.repository == repository && executions == []
    {
      this.repository := repository;
      executions := [];
    }

    method Authorize(auth: Authorization, customerId: string, tool: ToolName) returns (ok: bool)
      modifies this`executions, repository`auditEvents
      ensures ok <==> customerId == auth.customerId
      ensures executions == old(executions) + if ok then [] else Denied(auth, tool).executions
      ensures Grown(repository.hash, old(repository.auditEvents), repository.auditEvents)
    {
      ok := customerId == auth.customerId;
      if !ok {
        executions := executions + [Execution(auth.caseId, tool, false, [], CROSS_SCOPE_ACCESS)];
        repository.Audit(AC.Call("tool_authorization_denied", auth.actorId, "", ""));
      }
    }

    method RecordAccess(auth: Authorization, tool: ToolName, items: seq<PA.Item>)
      modifies this`executions, repository`auditEvents
      ensures executions == old(executions) + Granted(auth, tool, items).executions
      ensures Grown(repository.hash, old(repository.auditEvents), repository.auditEvents)
    {
      executions := executions + [Execution(auth.caseId, tool, true, PA.Ids(items), NO_ERROR)];
      repository.Audit(AC.Call("tool_access", auth.actorId, "", ""));
    }

    method GetAlert(auth: Authorization, alertId: string) returns (items: Option<seq<PA.Item>>)
      modifies this`executions, repository`auditEvents
      ensures items == ReadAlert(repository.bank, auth, alertId).items
              && executions == old(executions) + ReadAlert(repository.bank, auth, alertId).executions
      ensures Grown(repository.hash, old(repository.auditEvents), repository.auditEvents)
    {
      var alert := FirstWhere(repository.bank.alerts, HasId(alertId));
      if alert.None? { return None; }
      var ok := Authorize(auth, alert.value.customerId, GET_ALERT);
      if !ok { return None; }
      var evidence := [EvidenceOf(auth, "ALERT-" + alert.value.id, PA.ALERT, alert.value)];
      RecordAccess(auth, GET_ALERT, evidence);
      items := Some(evidence);
    }

    method GetCustomerProfile(auth: Authorization, customerId: string) returns (items: Option<seq<PA.Item>>)
      modifies this`executions, repository`auditEvents
      ensures items == ReadCustomer(repository.bank, auth, customerId).items
              && executions == old(executions) + ReadCustomer(repository.bank, auth, customerId).executions
      ensures Grown(repository.hash, old(repository.auditEvents), repository.auditEvents)
    {
      var ok := Authorize(auth, customerId, GET_CUSTOMER_PROFILE);
      if !ok { return None; }
      var customer := FirstWhere(repository.bank.customers, HasId(customerId));
      if customer.None? { return None; }
      var evidence := [EvidenceOf(auth, "CUSTOMER-" + customerId, PA.CUSTOMER_PROFILE, customer.value)];
      RecordAccess(auth, GET_CUSTOMER_PROFILE, evidence);
      items := Some(evidence);
    }

    method GetKycProfile(auth: Authorization, customerId: string) returns (items: Option<seq<PA.Item>>)
      modifies this`executions, repository`auditEvents
      ensures items == ReadKyc(repository.bank, auth, customerId).items
              && executions == old(executions) + ReadKyc(repository.bank, auth, customerId).executions
      ensures Grown(repository.hash, old(repository.auditEvents), repository.auditEvents)
    {
      var ok := Authorize(auth, customerId, GET_KYC_PROFILE);
      if !ok { return None; }
      var kyc := FirstWhere(repository.bank.kyc, OfCustomer(customerId));
      if kyc.None? { return None; }
      var evidence := [EvidenceOf(auth, "KYC-" + kyc.value.id, PA.KYC_PROFILE, kyc.value)];
      RecordAccess(auth, GET_KYC_PROFILE, evidence);
      items := Some(evidence);
    }

    method GetTransactions(auth: Authorization, customerId: string, limit: int) returns (items: Option<seq<PA.Item>>)
      modifies this`executions, repository`auditEvents
      ensures items == ReadTransactions(repository.bank, auth, customerId, limit).items
              && executions == old(executions) + ReadTransactions(repository.bank, auth, customerId, limit).executions
      ensures Grown(repository.hash, old(repository.auditEvents), repository.auditEvents)
    {
      var ok := Authorize(auth, customerId, GET_TRANSACTIONS);
      if !ok { return None; }
      if !(1 <= limit <= 500) { return None; }
      var evidence :=
          TransactionItems(auth, LastOf(Filter(repository.bank.transactions, OfCustomer(customerId)), limit));
      RecordAccess(auth, GET_TRANSACTIONS, evidence);
      items := Some(evidence);
    }

    /** A prohibited tool is recorded as refused; it is never carried out. */
    method InvokeProhibited(auth: Authorization, tool: ToolName) returns (error: ToolError)
      modifies this`executions, repository`auditEvents
      ensures error == if IsProhibited(tool) then ProhibitedAction else UnknownTool
      ensures executions == old(executions)
                            + if IsProhibited(tool) then [Execution(auth.caseId, tool, false, [], PROHIBITED_ACTION)]
                              else []
      ensures Grown(repository.hash, old(repository.auditEvents), repository.auditEvents)
    {
      if !IsProhibited(tool) { return UnknownTool; }
      executions := executions + [Execution(auth.caseId, tool, false, [], PROHIBITED_ACTION)];
      repository.Audit(AC.Call("prohibited_tool_denied", auth.actorId, "", ""));
      error := ProhibitedAction;
    }
  }

  // ----- what the tools guarantee -----

  /** The four reads of a case, in order, up to the first that fails. */
  function ReadAll(bank: Bank, auth: Authorization, alertId: string): Read {
    Then(ReadAlert(bank, auth, alertId),
      Then(ReadCustomer(bank, auth, auth.customerId),
        Then(ReadKyc(bank, auth, auth.customerId),
          ReadTransactions(bank, auth, auth.customerId, 250))))
  }

  function Then(first: Read, second: Read): Read {
    match first.items
    case None => first
    case Some(a) =>
      Read(match second.items case None => None case Some(b) => Some(a + b), first.executions + second.executions)
  }

  predicate InScope(item: PA.Item, caseId: nat, customerId: string) {
    item.caseId == caseId && item.customerId == customerId
  }

  ghost predicate AllInScope(items: seq<PA.Item>, caseId: nat, customerId: string) {
    forall i :: 0 <= i < |items| ==> InScope(items[i], caseId, customerId)
  }

  /** The item shows a record of the case's own customer. */
  ghost predicate OwnRecord(item: PA.Item, bank: Bank, auth: Authorization) {
    || (exists r :: r in bank.alerts + bank.kyc + bank.transactions
                    && r.customerId == auth.customerId && item.content == r.content)
    || (exists r :: r in bank.customers && r.id == auth.customerId && item.content == r.content)
  }

  ghost predicate SafeRead(read: Read, bank: Bank, auth: Authorization) {
    && (read.items.Some? ==> forall i :: 0 <= i < |read.items.value| ==> OwnRecord(read.items.value[i], bank, auth))
    && NoneProhibited(read.executions)
    && (forall i :: 0 <= i < |read.executions| ==> read.executions[i].caseId == auth.caseId)
    && (read.items.Some? ==> AllInScope(read.items.value, auth.caseId, auth.customerId))
  }

  lemma ThenSafe(first: Read, second: Read, bank: Bank, auth: Authorization)
    requires SafeRead(first, bank, auth) && SafeRead(second, bank, auth)
    ensures SafeRead(Then(first, second), bank, auth)
  {
  }

  lemma OneItem(bank: Bank, auth: Authorization, tool: ToolName, id: string, kind: PA.EvidenceType, r: Record)
    requires !IsProhibited(tool)
    requires OwnRecord(EvidenceOf(auth, id, kind, r), bank, auth)
    ensures SafeRead(Granted(auth, tool, [EvidenceOf(auth, id, kind, r)]), bank, auth)
  {
  }

  lemma AlertIsSafe(bank: Bank, auth: Authorization, id: string)
    ensures SafeRead(ReadAlert(bank, auth, id), bank, auth)
  {
    var alert := FirstWhere(bank.alerts, HasId(id));
    if alert.Some? && alert.value.customerId == auth.customerId {
      assert alert.value in bank.alerts + bank.kyc + bank.transactions;
      OneItem(bank, auth, GET_ALERT, "ALERT-" + alert.value.id, PA.ALERT, alert.value);
    }
  }

  lemma CustomerIsSafe(bank: Bank, auth: Authorization, id: string)
    ensures SafeRead(ReadCustomer(bank, auth, id), bank, auth)
  {
    var customer := FirstWhere(bank.customers, HasId(id));
    if id == auth.customerId && customer.Some? {
      assert customer.value in bank.customers && HasId(id)(customer.value);
      OneItem(bank, auth, GET_CUSTOMER_PROFILE, "CUSTOMER-" + id, PA.CUSTOMER_PROFILE, customer.value);
    }
  }

  lemma KycIsSafe(bank: Bank, auth: Authorization, id: string)
    ensures SafeRead(ReadKyc(bank, auth, id), bank, auth)
  {
    var kyc := FirstWhere(bank.kyc, OfCustomer(id));
    if id == auth.customerId && kyc.Some? {
      assert kyc.value in bank.alerts + bank.kyc + bank.transactions && OfCustomer(id)(kyc.value);
      OneItem(bank, auth, GET_KYC_PROFILE, "KYC-" + kyc.value.id, PA.KYC_PROFILE, kyc.value);
    }
  }

  lemma TransactionsAreSafe(bank: Bank, auth: Authorization, id: string, limit: int)
    ensures SafeRead(ReadTransactions(bank, auth, id, limit), bank, auth)
  {
    if id == auth.customerId && 1 <= limit <= 500 {
      var own := Filter(bank.transactions, OfCustomer(id));
      var records := LastOf(own, limit);
      forall i | 0 <= i < |records|
        ensures records[i] in bank.alerts + bank.kyc + bank.transactions && records[i].customerId == auth.customerId
      {
        assert records[i] in own && OfCustomer(id)(records[i]);
      }
    }
  }

  /** Whatever the bank holds, the tools return only the case's own customer and carry out nothing prohibited. */
  lemma ReadAllIsSafe(bank: Bank, auth: Authorization, alertId: string)
    ensures SafeRead(ReadAll(bank, auth, alertId), bank, auth)
  {
    AlertIsSafe(bank, auth, alertId);
    CustomerIsSafe(bank, auth, auth.customerId);
    KycIsSafe(bank, auth, auth.customerId);
    TransactionsAreSafe(bank, auth, auth.customerId, 250);
    var last := ReadTransactions(bank, auth, auth.customerId, 250);
    ThenSafe(ReadKyc(bank, auth, auth.customerId), last, bank, auth);
    ThenSafe(ReadCustomer(bank, auth, auth.customerId), Then(ReadKyc(bank, auth, auth.customerId), last), bank, auth);
    ThenSafe(ReadAlert(bank, auth, alertId),
      Then(ReadCustomer(bank, auth, auth.customerId), Then(ReadKyc(bank, auth, auth.customerId), last)), bank, auth);
  }
}
