/** Which facts the evidence of a case supports, and which policies they select. */
module PolicyApplicability {
  import opened Prelude
  import PolicyRetrieval

  /** A field read as a decimal number. */
  datatype Number = Absent | Unparsable | Value(amount: real)

  /**
   * `fields` holds every field, its value rendered as text. The other components are fields that are
   * not read as text; `information` is None when that field is present but is not an object.
   */
  datatype Content = Content(
    fields: map<string, string>, causalIds: seq<string>, information: Option<map<string, string>>,
    amount: Number, turnover: Number, createdOn: Option<int>)

  datatype EvidenceType =
    | ALERT | CUSTOMER_PROFILE | KYC_PROFILE | TRANSACTION | SUPPLEMENTAL_INFORMATION | OtherEvidence(name: string)

  datatype Item = Item(
    evidenceId: string, evidenceType: EvidenceType, caseId: nat, customerId: string, contentHash: nat, content: Content)

  datatype Error =
    | MissingEvidence | UnreadableAmount | UnreadableDate
    | Policy(error: PolicyRetrieval.Error)

  datatype Result<T> = Ok(value: T) | Err(error: Error)

  datatype FactId =
    | ActivityVariance | OwnerUnavailable | BusinessCustomer | AmountExceedsTurnover | GeographyUnavailable
    | HighRiskCustomer | KycMissingFact | KycNotCurrent | PepUnavailable | EnhancedExamination
    | RapidMovement | PurposeUnavailable | RepeatedCredits | SanctionsUnavailable

  function FactName(id: FactId): string {
    match id
    case ActivityVariance => "activity_variance_pattern"
    case OwnerUnavailable => "beneficial_owner_data_unavailable"
    case BusinessCustomer => "business_customer"
    case AmountExceedsTurnover => "causal_amount_exceeds_expected_monthly_turnover"
    case GeographyUnavailable => "counterparty_geography_unavailable"
    case HighRiskCustomer => "high_risk_customer"
    case KycMissingFact => "kyc_missing"
    case KycNotCurrent => "kyc_not_current"
    case PepUnavailable => "pep_status_unavailable"
    case EnhancedExamination => "potential_enhanced_examination_pattern"
    case RapidMovement => "rapid_funds_movement_pattern"
    case PurposeUnavailable => "relationship_purpose_unavailable"
    case RepeatedCredits => "repeated_credit_pattern"
    case SanctionsUnavailable => "sanctions_screening_status_unavailable"
  }

  /** The recorded facts with the evidence they rest on. */
  type Facts = map<FactId, seq<string>>

  // ----- reading the evidence -----

  function OfType(t: EvidenceType): Item -> bool {
    (x: Item) => x.evidenceType == t
  }

  function First(items: seq<Item>, t: EvidenceType): (r: Option<Item>)
    ensures r.Some? ==> r.value in items && r.value.evidenceType == t
  {
    if items == [] then None else if items[0].evidenceType == t then Some(items[0]) else First(items[1..], t)
  }

  function Get(c: Content, field: string): string {
    if field in c.fields then c.fields[field] else ""
  }

  function InformationOf(x: Item): map<string, string> {
    match x.content.information case None => map[] case Some(m) => m
  }

  /** Later submissions replace earlier fields of the same name. */
  function Merged(supplemental: seq<Item>): map<string, string> {
    if supplemental == [] then map[]
    else Merged(supplemental[..|supplemental| - 1]) + InformationOf(supplemental[|supplemental| - 1])
  }

  function Lower(s: string): string {
    if s == [] then [] else
      (if 'A' <= s[0] <= 'Z' then [s[0] - 'A' + 'a'] else [s[0]]) + Lower(s[1..])
  }

  datatype View = View(
    alert: Item, customer: Item, kyc: Option<Item>, causal: seq<Item>, supplemental: seq<Item>)

  function CausalOf(alert: Item): Item -> bool {
    (x: Item) => x.evidenceType == TRANSACTION && x.evidenceId in alert.content.causalIds
  }

  function ViewOf(evidence: seq<Item>): Option<View> {
    match (First(evidence, ALERT), First(evidence, CUSTOMER_PROFILE))
    case (Some(alert), Some(customer)) =>
      Some(View(alert, customer, First(evidence, KYC_PROFILE),
                Filter(evidence, CausalOf(alert)), Filter(evidence, OfType(SUPPLEMENTAL_INFORMATION))))
    case _ => None
  }

  function Ids(items: seq<Item>): seq<string> {
    if items == [] then [] else [items[0].evidenceId] + Ids(items[1..])
  }

  /** The order of first occurrence, each id once. */
  function Unique(ids: seq<string>): seq<string> {
    if ids == [] then [] else
      var before, last := Unique(ids[..|ids| - 1]), ids[|ids| - 1];
      if last in before then before else before + [last]
  }

  // ----- the facts -----

  predicate Business(v: View) {
    Lower(Get(v.customer.content, "customer_type")) == "business"
  }

  predicate KycMissing(v: View) {
    v.kyc.None? || Lower(Get(v.kyc.value.content, "status")) == "missing"
  }

  predicate InKyc(v: View, field: string) {
    v.kyc.Some? && field in v.kyc.value.content.fields
  }

  predicate Blank(m: map<string, string>, field: string) {
    field !in m || IsBlank(m[field])
  }

  predicate PurposeInKyc(v: View) {
    v.kyc.Some? && !IsBlank(Get(v.kyc.value.content, "purpose"))
  }

  function Turnover(v: View): real {
    match v.customer.content.turnover case Value(x) => x case _ => 0.0
  }

  /** Whether an amount exceeds the bound; the scan stops at the first one that does. */
  function AnyAbove(items: seq<Item>, bound: real): Option<bool> {
    if items == [] then Some(false)
    else match items[0].content.amount
      case Unparsable => None
      case Absent => if 0.0 > bound then Some(true) else AnyAbove(items[1..], bound)
      case Value(x) => if x > bound then Some(true) else AnyAbove(items[1..], bound)
  }

  function ExceedsTurnover(v: View): Option<bool> {
    if Turnover(v) > 0.0 then AnyAbove(v.causal, Turnover(v)) else Some(false)
  }

  predicate Geography(v: View) {
    exists x :: x in v.causal && "counterparty_country_code" in x.content.fields
  }

  predicate Holds(v: View, id: FactId) {
    var rule, info := Get(v.alert.content, "rule_id"), Merged(v.supplemental);
    match id
    case ActivityVariance => rule == "EXPECTED_ACTIVITY_VARIANCE"
    case RapidMovement => rule == "RAPID_FUNDS_MOVEMENT"
    case RepeatedCredits => rule == "STRUCTURING_LIKE_REPEATED_CREDITS"
    case EnhancedExamination => rule == "RAPID_FUNDS_MOVEMENT" || rule == "STRUCTURING_LIKE_REPEATED_CREDITS"
    case HighRiskCustomer => Lower(Get(v.customer.content, "risk_level")) == "high"
    case BusinessCustomer => Business(v)
    case OwnerUnavailable => Business(v) && !InKyc(v, "beneficial_owner") && "beneficial_owner" !in info
    case KycMissingFact => KycMissing(v)
    case KycNotCurrent => !KycMissing(v) && Lower(Get(v.kyc.value.content, "status")) != "current"
    case PurposeUnavailable => !PurposeInKyc(v) && Blank(info, "purpose")
    case PepUnavailable => "pep_status" !in v.customer.content.fields && "pep_status" !in info
    case SanctionsUnavailable =>
      "sanctions_screening_status" !in v.customer.content.fields && "sanctions_screening_status" !in info
    case AmountExceedsTurnover => ExceedsTurnover(v) == Some(true)
    case GeographyUnavailable => !Geography(v) && "counterparty_country_code" !in info
  }

  function KycIds(v: View): seq<string> {
    match v.kyc case None => [] case Some(k) => [k.evidenceId]
  }

  function CausalIds(v: View): seq<string> {
    [v.alert.evidenceId] + Ids(v.causal)
  }

  /** The evidence recorded with a fact. */
  function Support(v: View, id: FactId): seq<string> {
    match id
    case ActivityVariance | RapidMovement | RepeatedCredits | EnhancedExamination | GeographyUnavailable => CausalIds(v)
    case OwnerUnavailable | PurposeUnavailable => [v.customer.evidenceId] + KycIds(v) + Ids(v.supplemental)
    case KycMissingFact => [v.customer.evidenceId] + KycIds(v)
    case KycNotCurrent => KycIds(v)
    case AmountExceedsTurnover => [v.customer.evidenceId] + CausalIds(v)
    case HighRiskCustomer | BusinessCustomer | PepUnavailable | SanctionsUnavailable => [v.customer.evidenceId]
  }

  /** The order in which the facts are considered. */
  ghost function Rank(id: FactId): nat {
    match id
    case ActivityVariance => 0
    case RapidMovement => 1
    case RepeatedCredits => 2
    case EnhancedExamination => 3
    case HighRiskCustomer => 4
    case BusinessCustomer => 5
    case OwnerUnavailable => 6
    case KycMissingFact => 7
    case KycNotCurrent => 8
    case PurposeUnavailable => 9
    case PepUnavailable => 10
    case SanctionsUnavailable => 11
    case AmountExceedsTurnover => 12
    case GeographyUnavailable => 13
  }

  /** Of the first n facts, exactly those that hold are recorded, each with its evidence. */
  ghost predicate Records(facts: Facts, v: View, n: nat) {
    forall id ::
      && (id in facts <==> Rank(id) < n && Holds(v, id))
      && (id in facts ==> facts[id] == Unique(Support(v, id)))
  }

  function Add(facts: Facts, id: FactId, evidence: seq<string>): Facts {
    facts[id := Unique(evidence)]
  }

  lemma Considered(before: Facts, after: Facts, v: View, id: FactId)
    requires Records(before, v, Rank(id))
    requires after == if Holds(v, id) then Add(before, id, Support(v, id)) else before
    ensures Records(after, v, Rank(id) + 1)
  {
    assert forall other :: Rank(other) == Rank(id) ==> other == id;
  }

  /** The fact is recorded with its evidence if it holds. */
  function AddIf(facts: Facts, v: View, id: FactId): Facts {
    if Holds(v, id) then Add(facts, id, Support(v, id)) else facts
  }

  lemma PatternsConsidered(before: Facts, after: Facts, v: View)
    requires Records(before, v, 0)
    requires var two := AddIf(AddIf(before, v, ActivityVariance), v, RapidMovement);
             after == AddIf(AddIf(two, v, RepeatedCredits), v, EnhancedExamination)
    ensures Records(after, v, 4)
  {
    var one := AddIf(before, v, ActivityVariance);
    var two := AddIf(one, v, RapidMovement);
    var three := AddIf(two, v, RepeatedCredits);
    Considered(before, one, v, ActivityVariance);
    Considered(one, two, v, RapidMovement);
    Considered(two, three, v, RepeatedCredits);
    Considered(three, after, v, EnhancedExamination);
  }

  method AddPatterns(before: Facts, v: View) returns (facts: Facts)
    requires Records(before, v, 0)
    ensures Records(facts, v, 4)
  {
    facts := before;
    var rule, causal := Get(v.alert.content, "rule_id"), CausalIds(v);
    if rule == "EXPECTED_ACTIVITY_VARIANCE" {
      facts := Add(facts, ActivityVariance, causal);
    } else if rule == "RAPID_FUNDS_MOVEMENT" {
      facts := Add(facts, RapidMovement, causal);
      facts := Add(facts, EnhancedExamination, causal);
    } else if rule == "STRUCTURING_LIKE_REPEATED_CREDITS" {
      facts := Add(facts, RepeatedCredits, causal);
      facts := Add(facts, EnhancedExamination, causal);
    }
    PatternsConsidered(before, facts, v);
  }

  method AddCustomer(before: Facts, v: View, info: map<string, string>) returns (facts: Facts)
    requires Records(before, v, 4) && info == Merged(v.supplemental)
    ensures Records(facts, v, 7)
  {
    facts := before;
    if Lower(Get(v.customer.content, "risk_level")) == "high" {
      facts := Add(facts, HighRiskCustomer, [v.customer.evidenceId]);
    }
    Considered(before, facts, v, HighRiskCustomer);
    ghost var first := facts;
    if Business(v) {
      facts := Add(facts, BusinessCustomer, [v.customer.evidenceId]);
    }
    Considered(first, facts, v, BusinessCustomer);
    ghost var second := facts;
    if Business(v) && !InKyc(v, "beneficial_owner") && "beneficial_owner" !in info {
      facts := Add(facts, OwnerUnavailable, [v.customer.evidenceId] + KycIds(v) + Ids(v.supplemental));
    }
    Considered(second, facts, v, OwnerUnavailable);
  }

  method AddKyc(before: Facts, v: View, info: map<string, string>) returns (facts: Facts)
    requires Records(before, v, 7) && info == Merged(v.supplemental)
    ensures Records(facts, v, 10)
  {
    facts := before;
    if KycMissing(v) {
      facts := Add(facts, KycMissingFact, [v.customer.evidenceId] + KycIds(v));
    }
    Considered(before, facts, v, KycMissingFact);
    ghost var first := facts;
    if !KycMissing(v) && Lower(Get(v.kyc.value.content, "status")) != "current" {
      facts := Add(facts, KycNotCurrent, [v.kyc.value.evidenceId]);
    }
    Considered(first, facts, v, KycNotCurrent);
    ghost var second := facts;
    if !PurposeInKyc(v) && Blank(info, "purpose") {
      facts := Add(facts, PurposeUnavailable, [v.customer.evidenceId] + KycIds(v) + Ids(v.supplemental));
    }
    Considered(second, facts, v, PurposeUnavailable);
  }

  method AddScreening(before: Facts, v: View, info: map<string, string>) returns (facts: Facts)
    requires Records(before, v, 10) && info == Merged(v.supplemental)
    ensures Records(facts, v, 12)
  {
    facts := before;
    if "pep_status" !in v.customer.content.fields && "pep_status" !in info {
      facts := Add(facts, PepUnavailable, [v.customer.evidenceId]);
    }
    Considered(before, facts, v, PepUnavailable);
    ghost var first := facts;
    if "sanctions_screening_status" !in v.customer.content.fields && "sanctions_screening_status" !in info {
      facts := Add(facts, SanctionsUnavailable, [v.customer.evidenceId]);
    }
    Considered(first, facts, v, SanctionsUnavailable);
  }

  method AddTransfers(before: Facts, v: View, info: map<string, string>) returns (r: Option<Facts>)
    requires Records(before, v, 12) && info == Merged(v.supplemental)
    ensures r.None? <==> ExceedsTurnover(v).None?
    ensures r.Some? ==> Records(r.value, v, 14)
  {
    var facts := before;
    var turnover := match v.customer.content.turnover case Value(x) => x case _ => 0.0;
    if turnover > 0.0 {
      var above := AnyAbove(v.causal, turnover);
      if above.None? { return None; }
      if above.value {
        facts := Add(facts, AmountExceedsTurnover, [v.customer.evidenceId] + CausalIds(v));
      }
    }
    Considered(before, facts, v, AmountExceedsTurnover);
    ghost var first := facts;
    if !Geography(v) && "counterparty_country_code" !in info {
      facts := Add(facts, GeographyUnavailable, CausalIds(v));
    }
    Considered(first, facts, v, GeographyUnavailable);
    r := Some(facts);
  }

  method MergeInformation(supplemental: seq<Item>) returns (info: map<string, string>)
    ensures info == Merged(supplemental)
  {
    info := map[];
    for i := 0 to |supplemental|
      invariant info == Merged(supplemental[..i])
    {
      assert supplemental[..i + 1][..i] == supplemental[..i];
      if supplemental[i].content.information.Some? {
        info := info + supplemental[i].content.information.value;
      }
    }
    assert supplemental[..|supplemental|] == supplemental;
  }

  /** An error when alert or customer are missing, or when an amount that is compared cannot be read. */
  function Outcome(evidence: seq<Item>): Option<Error> {
    match ViewOf(evidence)
    case None => Some(MissingEvidence)
    case Some(v) => if ExceedsTurnover(v).None? then Some(UnreadableAmount) else None
  }

  method DeriveFrom(v: View) returns (r: Option<Facts>)
    ensures r == if ExceedsTurnover(v).None? then None else Some(FactsOf(v))
  {
    var info := MergeInformation(v.supplemental);
    var facts: Facts := map[];
    facts := AddPatterns(facts, v);
    facts := AddCustomer(facts, v, info);
    facts := AddKyc(facts, v, info);
    facts := AddScreening(facts, v, info);
    r := AddTransfers(facts, v, info);
    if r.Some? {
      RecordsAll(r.value, v);
    }
  }

  method Derive(evidence: seq<Item>) returns (r: Result<Facts>)
    ensures r == match Outcome(evidence)
                 case Some(e) => Err(e)
                 case None => Ok(FactsOf(ViewOf(evidence).value))
  {
    var view := ViewOf(evidence);
    if view.None? { return Err(MissingEvidence); }
    var facts := DeriveFrom(view.value);
    if facts.None? { return Err(UnreadableAmount); }
    r := Ok(facts.value);
  }

  /** Every fact that holds, with its evidence. */
  function FactsOf(v: View): Facts {
    map id: FactId | Holds(v, id) :: Unique(Support(v, id))
  }

  lemma RecordsAll(facts: Facts, v: View)
    requires Records(facts, v, 14)
    ensures facts == FactsOf(v)
  {
  }
}
