/** What each derived fact says about the evidence items, by the name under which the mappings know it. */
module FactMeanings {
  import opened Prelude
  import opened PolicyApplicability
  import PolicySelection
  import PR = PolicyRetrieval

  // ----- the items a derivation looks at -----

  ghost predicate FirstAt(evidence: seq<Item>, x: Item, k: nat) {
    k < |evidence| && evidence[k] == x && forall j :: 0 <= j < k ==> evidence[j].evidenceType != x.evidenceType
  }

  /** x is the first item of its type. */
  ghost predicate IsFirst(evidence: seq<Item>, x: Item) {
    exists k: nat :: FirstAt(evidence, x, k)
  }

  lemma {:induction false} FirstMeans(items: seq<Item>, t: EvidenceType)
    ensures match First(items, t)
            case Some(x) => x.evidenceType == t && IsFirst(items, x)
            case None => forall x :: x in items ==> x.evidenceType != t
  {
    if items != [] {
      if items[0].evidenceType == t {
        assert FirstAt(items, items[0], 0);
      } else {
        FirstMeans(items[1..], t);
        if First(items, t).Some? {
          var x := First(items, t).value;
          var k: nat :| FirstAt(items[1..], x, k);
          assert FirstAt(items, x, k + 1) by {
            forall j | 0 <= j < k + 1 ensures items[j].evidenceType != t {
              assert j == 0 || items[j] == items[1..][j - 1];
            }
          }
        } else {
          assert forall x :: x in items <==> x == items[0] || x in items[1..];
        }
      }
    }
  }

  lemma OneFirst(items: seq<Item>, x: Item, y: Item)
    requires IsFirst(items, x) && IsFirst(items, y) && x.evidenceType == y.evidenceType
    ensures x == y
  {
    var k: nat :| FirstAt(items, x, k);
    var l: nat :| FirstAt(items, y, l);
    assert k == l;
  }

  lemma FirstIs(items: seq<Item>, x: Item)
    requires IsFirst(items, x)
    ensures First(items, x.evidenceType) == Some(x)
  {
    FirstMeans(items, x.evidenceType);
    var k: nat :| FirstAt(items, x, k);
    assert items[k] in items;
    OneFirst(items, x, First(items, x.evidenceType).value);
  }

  /** The alert, the customer and the profile, if any, that a derivation reads. */
  ghost predicate Reads(evidence: seq<Item>, alert: Item, customer: Item, kyc: Option<Item>) {
    && alert.evidenceType == ALERT && IsFirst(evidence, alert)
    && customer.evidenceType == CUSTOMER_PROFILE && IsFirst(evidence, customer)
    && match kyc
       case Some(k) => k.evidenceType == KYC_PROFILE && IsFirst(evidence, k)
       case None => forall x :: x in evidence ==> x.evidenceType != KYC_PROFILE
  }

  lemma ViewReads(evidence: seq<Item>, alert: Item, customer: Item, kyc: Option<Item>)
    requires Reads(evidence, alert, customer, kyc)
    ensures ViewOf(evidence) == Some(View(alert, customer, kyc, Filter(evidence, CausalOf(alert)),
                                          Filter(evidence, OfType(SUPPLEMENTAL_INFORMATION))))
  {
    FirstIs(evidence, alert);
    FirstIs(evidence, customer);
    if kyc.Some? {
      FirstIs(evidence, kyc.value);
    } else {
      FirstMeans(evidence, KYC_PROFILE);
    }
  }

  /** A transaction that the alert names. */
  predicate Causal(alert: Item, x: Item) {
    && x.evidenceType == TRANSACTION
    && exists i :: 0 <= i < |alert.content.causalIds| && alert.content.causalIds[i] == x.evidenceId
  }

  lemma CausalMeans(evidence: seq<Item>, alert: Item, x: Item)
    ensures x in Filter(evidence, CausalOf(alert)) <==> x in evidence && Causal(alert, x)
  {
  }

  // ----- what was supplied -----

  predicate Tells(x: Item, field: string) {
    x.evidenceType == SUPPLEMENTAL_INFORMATION && x.content.information.Some? && field in x.content.information.value
  }

  /** Some supplied item carries the field. */
  ghost predicate Told(evidence: seq<Item>, field: string) {
    exists x :: x in evidence && Tells(x, field)
  }

  ghost predicate LastTells(evidence: seq<Item>, field: string, i: nat) {
    i < |evidence| && Tells(evidence[i], field) && forall j :: i < j < |evidence| ==> !Tells(evidence[j], field)
  }

  /** The last supplied item that carries the field gives its text. */
  ghost predicate ToldAs(evidence: seq<Item>, field: string, text: string) {
    exists i: nat :: LastTells(evidence, field, i) && evidence[i].content.information.value[field] == text
  }

  function MergedOf(evidence: seq<Item>): map<string, string> {
    Merged(Filter(evidence, OfType(SUPPLEMENTAL_INFORMATION)))
  }

  lemma MergedSnoc(before: seq<Item>, x: Item)
    ensures MergedOf(before + [x]) == MergedOf(before) +
            if x.evidenceType == SUPPLEMENTAL_INFORMATION then InformationOf(x) else map[]
  {
    PolicySelection.FilterSnoc(before, x, OfType(SUPPLEMENTAL_INFORMATION));
    if x.evidenceType == SUPPLEMENTAL_INFORMATION {
      PolicySelection.MergedSnoc(Filter(before, OfType(SUPPLEMENTAL_INFORMATION)), x);
    } else {
      var told := Filter(before, OfType(SUPPLEMENTAL_INFORMATION));
      assert told + [] == told && MergedOf(before) + map[] == MergedOf(before);
    }
  }

  lemma ToldSnoc(before: seq<Item>, x: Item, field: string, text: string)
    ensures ToldAs(before + [x], field, text) <==>
            if Tells(x, field) then x.content.information.value[field] == text else ToldAs(before, field, text)
  {
    var evidence := before + [x];
    if Tells(x, field) {
      assert LastTells(evidence, field, |before|);
    } else {
      forall i: nat | i < |before| ensures LastTells(evidence, field, i) <==> LastTells(before, field, i) {
        assert forall j :: i < j < |before| ==> evidence[j] == before[j];
        assert LastTells(before, field, i) ==> forall j :: i < j < |evidence| ==>
            evidence[j] == x || evidence[j] == before[j];
      }
    }
  }

  /** Later submissions replace earlier fields of the same name. */
  lemma {:induction false} SuppliedMeans(evidence: seq<Item>, field: string, text: string)
    ensures (field in MergedOf(evidence) && MergedOf(evidence)[field] == text) <==> ToldAs(evidence, field, text)
  {
    if evidence != [] {
      var before, x := evidence[..|evidence| - 1], evidence[|evidence| - 1];
      assert evidence == before + [x];
      SuppliedMeans(before, field, text);
      MergedSnoc(before, x);
      ToldSnoc(before, x, field, text);
    }
  }

  lemma AnyToldSnoc(before: seq<Item>, x: Item, field: string)
    ensures Told(before + [x], field) <==> Told(before, field) || Tells(x, field)
  {
    assert (before + [x])[|before|] == x;
    if Told(before, field) {
      var y :| y in before && Tells(y, field);
      assert y in before + [x];
    }
  }

  lemma {:induction false} ToldMeans(evidence: seq<Item>, field: string)
    ensures field in MergedOf(evidence) <==> Told(evidence, field)
  {
    if evidence != [] {
      var before, x := evidence[..|evidence| - 1], evidence[|evidence| - 1];
      assert evidence == before + [x];
      ToldMeans(before, field);
      MergedSnoc(before, x);
      AnyToldSnoc(before, x, field);
    }
  }

  // ----- the facts and their names -----

  /** These facts are what a derivation from the evidence returns. */
  ghost predicate Derived(evidence: seq<Item>, facts: Facts) {
    Outcome(evidence).None? && facts == FactsOf(ViewOf(evidence).value)
  }

  /** The fact is recorded under this name. */
  ghost predicate Named(facts: Facts, name: string) {
    name in PolicySelection.FactNames(facts)
  }

  function NameLength(id: FactId): nat {
    match id
    case ActivityVariance => 25
    case OwnerUnavailable => 33
    case BusinessCustomer => 17
    case AmountExceedsTurnover => 47
    case GeographyUnavailable => 34
    case HighRiskCustomer => 18
    case KycMissingFact => 11
    case KycNotCurrent => 15
    case PepUnavailable => 22
    case EnhancedExamination => 38
    case RapidMovement => 28
    case PurposeUnavailable => 32
    case RepeatedCredits => 23
    case SanctionsUnavailable => 38
  }

  lemma NameHasLength(id: FactId)
    ensures |FactName(id)| == NameLength(id)
  {
  }

  lemma NamesDiffer(a: FactId, b: FactId)
    requires FactName(a) == FactName(b)
    ensures a == b
  {
    NameHasLength(a);
    NameHasLength(b);
    assert FactName(EnhancedExamination)[0] == 'p' && FactName(SanctionsUnavailable)[0] == 's';
  }

  lemma NamedExactly(facts: Facts, id: FactId)
    ensures Named(facts, FactName(id)) <==> id in facts
  {
    if Named(facts, FactName(id)) {
      var other :| other in facts && FactName(other) == FactName(id);
      NamesDiffer(other, id);
    }
  }

  lemma Recorded(evidence: seq<Item>, alert: Item, customer: Item, kyc: Option<Item>, facts: Facts, id: FactId)
    requires Reads(evidence, alert, customer, kyc) && Derived(evidence, facts)
    ensures ViewOf(evidence).Some?
    ensures Named(facts, FactName(id)) <==> Holds(ViewOf(evidence).value, id)
  {
    NamedExactly(facts, id);
    ViewReads(evidence, alert, customer, kyc);
  }

  // ----- the alert's rule -----

  predicate Says(x: Item, field: string, text: string) {
    field in x.content.fields && x.content.fields[field] == text
  }

  lemma VarianceFact(evidence: seq<Item>, alert: Item, customer: Item, kyc: Option<Item>, facts: Facts)
    requires Reads(evidence, alert, customer, kyc) && Derived(evidence, facts)
    ensures Named(facts, "activity_variance_pattern") <==> Says(alert, "rule_id", "EXPECTED_ACTIVITY_VARIANCE")
  {
    Recorded(evidence, alert, customer, kyc, facts, ActivityVariance);
    ViewReads(evidence, alert, customer, kyc);
  }

  lemma RapidFact(evidence: seq<Item>, alert: Item, customer: Item, kyc: Option<Item>, facts: Facts)
    requires Reads(evidence, alert, customer, kyc) && Derived(evidence, facts)
    ensures Named(facts, "rapid_funds_movement_pattern") <==> Says(alert, "rule_id", "RAPID_FUNDS_MOVEMENT")
  {
    Recorded(evidence, alert, customer, kyc, facts, RapidMovement);
    ViewReads(evidence, alert, customer, kyc);
  }

  lemma RepeatedFact(evidence: seq<Item>, alert: Item, customer: Item, kyc: Option<Item>, facts: Facts)
    requires Reads(evidence, alert, customer, kyc) && Derived(evidence, facts)
    ensures Named(facts, "repeated_credit_pattern") <==> Says(alert, "rule_id", "STRUCTURING_LIKE_REPEATED_CREDITS")
  {
    Recorded(evidence, alert, customer, kyc, facts, RepeatedCredits);
    ViewReads(evidence, alert, customer, kyc);
  }

  /** Both the rapid and the repeated pattern ask for enhanced examination, and nothing else does. */
  lemma ExaminationFact(evidence: seq<Item>, alert: Item, customer: Item, kyc: Option<Item>, facts: Facts)
    requires Reads(evidence, alert, customer, kyc) && Derived(evidence, facts)
    ensures Named(facts, "potential_enhanced_examination_pattern") <==>
            Says(alert, "rule_id", "RAPID_FUNDS_MOVEMENT")
                || Says(alert, "rule_id", "STRUCTURING_LIKE_REPEATED_CREDITS")
  {
    Recorded(evidence, alert, customer, kyc, facts, EnhancedExamination);
    ViewReads(evidence, alert, customer, kyc);
  }

  // ----- the customer and the profile -----

  /** The texts agree but for the case of ASCII letters, the second being in lower case. */
  predicate SaysInAnyCase(x: Item, field: string, text: string) {
    field in x.content.fields && |x.content.fields[field]| == |text|
    && forall i :: 0 <= i < |text| ==>
         text[i] == x.content.fields[field][i]
         || ('A' <= x.content.fields[field][i] <= 'Z' && text[i] as int == x.content.fields[field][i] as int + 32)
  }

  predicate LowerCase(text: string) {
    forall i :: 0 <= i < |text| ==> !('A' <= text[i] <= 'Z')
  }

  lemma {:induction false} LowerAt(s: string, i: nat)
    ensures |Lower(s)| == |s|
    ensures i < |s| ==> Lower(s)[i] as int == if 'A' <= s[i] <= 'Z' then s[i] as int + 32 else s[i] as int
  {
    if s != [] {
      LowerAt(s[1..], if i == 0 then 0 else i - 1);
    }
  }

  lemma AnyCaseMeans(x: Item, field: string, text: string)
    requires LowerCase(text) && text != []
    ensures Lower(Get(x.content, field)) == text <==> SaysInAnyCase(x, field, text)
  {
    var s := Get(x.content, field);
    LowerAt(s, 0);
    forall i: nat | i < |s| ensures Lower(s)[i] as int == if 'A' <= s[i] <= 'Z' then s[i] as int + 32 else s[i] as int {
      LowerAt(s, i);
    }
    if SaysInAnyCase(x, field, text) {
      assert forall i :: 0 <= i < |text| ==> Lower(s)[i] == text[i];
    }
  }

  /** The status text of the profile, as far as it decides a fact. */
  lemma KycStatusMeans(kyc: Item, v: View)
    requires v.kyc == Some(kyc)
    ensures Holds(v, KycMissingFact) <==> SaysInAnyCase(kyc, "status", "missing")
    ensures Holds(v, KycNotCurrent) <==>
            !SaysInAnyCase(kyc, "status", "missing") && !SaysInAnyCase(kyc, "status", "current")
  {
    AnyCaseMeans(kyc, "status", "missing");
    AnyCaseMeans(kyc, "status", "current");
  }

  lemma RiskFact(evidence: seq<Item>, alert: Item, customer: Item, kyc: Option<Item>, facts: Facts)
    requires Reads(evidence, alert, customer, kyc) && Derived(evidence, facts)
    ensures Named(facts, "high_risk_customer") <==> SaysInAnyCase(customer, "risk_level", "high")
  {
    Recorded(evidence, alert, customer, kyc, facts, HighRiskCustomer);
    ViewReads(evidence, alert, customer, kyc);
    AnyCaseMeans(customer, "risk_level", "high");
  }

  lemma BusinessFact(evidence: seq<Item>, alert: Item, customer: Item, kyc: Option<Item>, facts: Facts)
    requires Reads(evidence, alert, customer, kyc) && Derived(evidence, facts)
    ensures Named(facts, "business_customer") <==> SaysInAnyCase(customer, "customer_type", "business")
  {
    Recorded(evidence, alert, customer, kyc, facts, BusinessCustomer);
    ViewReads(evidence, alert, customer, kyc);
    AnyCaseMeans(customer, "customer_type", "business");
  }

  lemma OwnerFact(evidence: seq<Item>, alert: Item, customer: Item, kyc: Option<Item>, facts: Facts)
    requires Reads(evidence, alert, customer, kyc) && Derived(evidence, facts)
    ensures Named(facts, "beneficial_owner_data_unavailable") <==>
            && SaysInAnyCase(customer, "customer_type", "business")
            && (kyc.None? || "beneficial_owner" !in kyc.value.content.fields)
            && !Told(evidence, "beneficial_owner")
  {
    Recorded(evidence, alert, customer, kyc, facts, OwnerUnavailable);
    ViewReads(evidence, alert, customer, kyc);
    AnyCaseMeans(customer, "customer_type", "business");
    ToldMeans(evidence, "beneficial_owner");
  }

  lemma MissingKycFact(evidence: seq<Item>, alert: Item, customer: Item, kyc: Option<Item>, facts: Facts)
    requires Reads(evidence, alert, customer, kyc) && Derived(evidence, facts)
    ensures Named(facts, "kyc_missing") <==> kyc.None? || SaysInAnyCase(kyc.value, "status", "missing")
  {
    Recorded(evidence, alert, customer, kyc, facts, KycMissingFact);
    ViewReads(evidence, alert, customer, kyc);
    if kyc.Some? {
      KycStatusMeans(kyc.value, ViewOf(evidence).value);
    }
  }

  lemma StaleKycFact(evidence: seq<Item>, alert: Item, customer: Item, kyc: Option<Item>, facts: Facts)
    requires Reads(evidence, alert, customer, kyc) && Derived(evidence, facts)
    ensures Named(facts, "kyc_not_current") <==>
            kyc.Some? && !SaysInAnyCase(kyc.value, "status", "missing")
                && !SaysInAnyCase(kyc.value, "status", "current")
  {
    Recorded(evidence, alert, customer, kyc, facts, KycNotCurrent);
    ViewReads(evidence, alert, customer, kyc);
    if kyc.Some? {
      KycStatusMeans(kyc.value, ViewOf(evidence).value);
    }
  }

  /** A text with something other than white space in it. */
  predicate SaysSomething(text: string) {
    exists i :: 0 <= i < |text| && !IsSpace(text[i])
  }

  lemma PurposeFact(evidence: seq<Item>, alert: Item, customer: Item, kyc: Option<Item>, facts: Facts)
    requires Reads(evidence, alert, customer, kyc) && Derived(evidence, facts)
    ensures Named(facts, "relationship_purpose_unavailable") <==>
            && (kyc.None? || "purpose" !in kyc.value.content.fields
                || !SaysSomething(kyc.value.content.fields["purpose"]))
            && forall text :: ToldAs(evidence, "purpose", text) ==> !SaysSomething(text)
  {
    Recorded(evidence, alert, customer, kyc, facts, PurposeUnavailable);
    ViewReads(evidence, alert, customer, kyc);
    PurposeTold(evidence);
  }

  lemma PurposeTold(evidence: seq<Item>)
    ensures Blank(MergedOf(evidence), "purpose") <==>
            forall text :: ToldAs(evidence, "purpose", text) ==> !SaysSomething(text)
  {
    var info := MergedOf(evidence);
    forall text ensures ToldAs(evidence, "purpose", text) <==> "purpose" in info && info["purpose"] == text {
      SuppliedMeans(evidence, "purpose", text);
    }
    if "purpose" in info {
      assert ToldAs(evidence, "purpose", info["purpose"]);
      assert SaysSomething(info["purpose"]) <==> !IsBlank(info["purpose"]);
    }
  }

  lemma PepFact(evidence: seq<Item>, alert: Item, customer: Item, kyc: Option<Item>, facts: Facts)
    requires Reads(evidence, alert, customer, kyc) && Derived(evidence, facts)
    ensures Named(facts, "pep_status_unavailable") <==>
            "pep_status" !in customer.content.fields && !Told(evidence, "pep_status")
  {
    Recorded(evidence, alert, customer, kyc, facts, PepUnavailable);
    ViewReads(evidence, alert, customer, kyc);
    ToldMeans(evidence, "pep_status");
  }

  lemma SanctionsFact(evidence: seq<Item>, alert: Item, customer: Item, kyc: Option<Item>, facts: Facts)
    requires Reads(evidence, alert, customer, kyc) && Derived(evidence, facts)
    ensures Named(facts, "sanctions_screening_status_unavailable") <==>
            "sanctions_screening_status" !in customer.content.fields && !Told(evidence, "sanctions_screening_status")
  {
    Recorded(evidence, alert, customer, kyc, facts, SanctionsUnavailable);
    ViewReads(evidence, alert, customer, kyc);
    ToldMeans(evidence, "sanctions_screening_status");
  }

  // ----- the causal transactions -----

  lemma GeographyFact(evidence: seq<Item>, alert: Item, customer: Item, kyc: Option<Item>, facts: Facts)
    requires Reads(evidence, alert, customer, kyc) && Derived(evidence, facts)
    ensures Named(facts, "counterparty_geography_unavailable") <==>
            && (forall x :: x in evidence && Causal(alert, x) ==> "counterparty_country_code" !in x.content.fields)
            && !Told(evidence, "counterparty_country_code")
  {
    Recorded(evidence, alert, customer, kyc, facts, GeographyUnavailable);
    ViewReads(evidence, alert, customer, kyc);
    ToldMeans(evidence, "counterparty_country_code");
    forall x ensures x in ViewOf(evidence).value.causal <==> x in evidence && Causal(alert, x) {
      CausalMeans(evidence, alert, x);
    }
  }

  predicate Above(x: Item, bound: real) {
    x.content.amount.Value? && x.content.amount.amount > bound
  }

  /** The i-th item is a causal transaction above the bound, and all causal ones before it can be read. */
  predicate ExceedsAt(items: seq<Item>, alert: Item, bound: real, i: nat) {
    && i < |items| && Causal(alert, items[i]) && Above(items[i], bound)
    && forall j :: 0 <= j < i && Causal(alert, items[j]) ==> items[j].content.amount != Unparsable
  }

  /** The i-th item is a causal transaction that cannot be read, and no causal one before it is above the bound. */
  predicate UnreadableAt(items: seq<Item>, alert: Item, bound: real, i: nat) {
    && i < |items| && Causal(alert, items[i]) && items[i].content.amount == Unparsable
    && forall j :: 0 <= j < i && Causal(alert, items[j]) ==> !Above(items[j], bound)
  }

  lemma NextExceeds(items: seq<Item>, alert: Item, bound: real, i: nat)
    requires items != [] && !(Causal(alert, items[0]) && items[0].content.amount == Unparsable)
    ensures ExceedsAt(items, alert, bound, i + 1) <==> ExceedsAt(items[1..], alert, bound, i)
  {
    assert forall j :: 0 < j < |items| ==> items[j] == items[1..][j - 1];
    if ExceedsAt(items, alert, bound, i + 1) {
      assert forall j :: 0 <= j < i ==> items[1..][j] == items[j + 1];
    }
  }

  lemma NextUnreadable(items: seq<Item>, alert: Item, bound: real, i: nat)
    requires items != [] && !(Causal(alert, items[0]) && Above(items[0], bound))
    ensures UnreadableAt(items, alert, bound, i + 1) <==> UnreadableAt(items[1..], alert, bound, i)
  {
    assert forall j :: 0 < j < |items| ==> items[j] == items[1..][j - 1];
    if UnreadableAt(items, alert, bound, i + 1) {
      assert forall j :: 0 <= j < i ==> items[1..][j] == items[j + 1];
    }
  }

  lemma ExceedsLater(items: seq<Item>, alert: Item, bound: real)
    requires items != []
             && !(Causal(alert, items[0]) && (items[0].content.amount == Unparsable || Above(items[0], bound)))
    ensures (exists i: nat :: ExceedsAt(items, alert, bound, i)) <==>
            exists i: nat :: ExceedsAt(items[1..], alert, bound, i)
  {
    if i: nat :| ExceedsAt(items, alert, bound, i) {
      NextExceeds(items, alert, bound, i - 1);
    }
    if i: nat :| ExceedsAt(items[1..], alert, bound, i) {
      NextExceeds(items, alert, bound, i);
    }
  }

  lemma UnreadableLater(items: seq<Item>, alert: Item, bound: real)
    requires items != []
             && !(Causal(alert, items[0]) && (items[0].content.amount == Unparsable || Above(items[0], bound)))
    ensures (exists i: nat :: UnreadableAt(items, alert, bound, i)) <==>
            exists i: nat :: UnreadableAt(items[1..], alert, bound, i)
  {
    if i: nat :| UnreadableAt(items, alert, bound, i) {
      NextUnreadable(items, alert, bound, i - 1);
    }
    if i: nat :| UnreadableAt(items[1..], alert, bound, i) {
      NextUnreadable(items, alert, bound, i);
    }
  }

  /** The scan of the causal transactions, one item of the evidence at a time. */
  lemma ScanHead(items: seq<Item>, alert: Item, bound: real)
    requires items != [] && bound > 0.0
    ensures AnyAbove(Filter(items, CausalOf(alert)), bound) ==
            if !Causal(alert, items[0]) then AnyAbove(Filter(items[1..], CausalOf(alert)), bound)
            else if items[0].content.amount == Unparsable then None
            else if Above(items[0], bound) then Some(true)
            else AnyAbove(Filter(items[1..], CausalOf(alert)), bound)
  {
    var rest := Filter(items[1..], CausalOf(alert));
    assert CausalOf(alert)(items[0]) <==> Causal(alert, items[0]);
    assert ([items[0]] + rest)[1..] == rest && [] + rest == rest;
  }

  lemma {:induction false} AboveExactly(items: seq<Item>, alert: Item, bound: real)
    requires bound > 0.0
    ensures AnyAbove(Filter(items, CausalOf(alert)), bound) == Some(true) <==>
            exists i: nat :: ExceedsAt(items, alert, bound, i)
  {
    if items != [] {
      AboveExactly(items[1..], alert, bound);
      ScanHead(items, alert, bound);
      if Causal(alert, items[0]) && Above(items[0], bound) {
        assert ExceedsAt(items, alert, bound, 0);
      } else if !(Causal(alert, items[0]) && items[0].content.amount == Unparsable) {
        ExceedsLater(items, alert, bound);
      }
    }
  }

  lemma {:induction false} UnreadableExactly(items: seq<Item>, alert: Item, bound: real)
    requires bound > 0.0
    ensures AnyAbove(Filter(items, CausalOf(alert)), bound).None? <==>
            exists i: nat :: UnreadableAt(items, alert, bound, i)
  {
    if items != [] {
      UnreadableExactly(items[1..], alert, bound);
      ScanHead(items, alert, bound);
      if Causal(alert, items[0]) && items[0].content.amount == Unparsable {
        assert UnreadableAt(items, alert, bound, 0);
      } else if !(Causal(alert, items[0]) && Above(items[0], bound)) {
        UnreadableLater(items, alert, bound);
      }
    }
  }

  lemma TurnoverExceededExactly(evidence: seq<Item>, alert: Item, customer: Item, kyc: Option<Item>)
    requires Reads(evidence, alert, customer, kyc)
    ensures ViewOf(evidence).Some?
    ensures ExceedsTurnover(ViewOf(evidence).value) == Some(true) <==>
            && customer.content.turnover.Value? && customer.content.turnover.amount > 0.0
            && exists i: nat :: ExceedsAt(evidence, alert, customer.content.turnover.amount, i)
  {
    ViewReads(evidence, alert, customer, kyc);
    if customer.content.turnover.Value? && customer.content.turnover.amount > 0.0 {
      AboveExactly(evidence, alert, customer.content.turnover.amount);
    }
  }

  lemma TurnoverFact(evidence: seq<Item>, alert: Item, customer: Item, kyc: Option<Item>, facts: Facts)
    requires Reads(evidence, alert, customer, kyc) && Derived(evidence, facts)
    ensures Named(facts, "causal_amount_exceeds_expected_monthly_turnover") <==>
            && customer.content.turnover.Value? && customer.content.turnover.amount > 0.0
            && exists i: nat :: ExceedsAt(evidence, alert, customer.content.turnover.amount, i)
  {
    Recorded(evidence, alert, customer, kyc, facts, AmountExceedsTurnover);
    TurnoverExceededExactly(evidence, alert, customer, kyc);
  }

  /** When a derivation raises: an item is missing, or an amount that must be compared cannot be read. */
  lemma DerivationFailsExactly(evidence: seq<Item>)
    ensures Outcome(evidence) == Some(MissingEvidence) <==>
            || (forall x :: x in evidence ==> x.evidenceType != ALERT)
            || (forall x :: x in evidence ==> x.evidenceType != CUSTOMER_PROFILE)
  {
    FirstMeans(evidence, ALERT);
    FirstMeans(evidence, CUSTOMER_PROFILE);
    if First(evidence, ALERT).Some? {
      assert First(evidence, ALERT).value in evidence;
    }
    if First(evidence, CUSTOMER_PROFILE).Some? {
      assert First(evidence, CUSTOMER_PROFILE).value in evidence;
    }
  }

  lemma UnreadableAmountExactly(evidence: seq<Item>, alert: Item, customer: Item, kyc: Option<Item>)
    requires Reads(evidence, alert, customer, kyc)
    ensures Outcome(evidence) in {None, Some(UnreadableAmount)}
    ensures Outcome(evidence) == Some(UnreadableAmount) <==>
            && customer.content.turnover.Value? && customer.content.turnover.amount > 0.0
            && exists i: nat :: UnreadableAt(evidence, alert, customer.content.turnover.amount, i)
  {
    ViewReads(evidence, alert, customer, kyc);
    if customer.content.turnover.Value? && customer.content.turnover.amount > 0.0 {
      UnreadableExactly(evidence, alert, customer.content.turnover.amount);
    }
  }

  // ----- the evidence recorded with the facts -----

  lemma {:induction false} UniqueHolds(ids: seq<string>, id: string)
    ensures id in Unique(ids) <==> id in ids
  {
    if ids != [] {
      UniqueHolds(ids[..|ids| - 1], id);
      assert ids == ids[..|ids| - 1] + [ids[|ids| - 1]];
    }
  }

  lemma {:induction false} UniqueOnce(ids: seq<string>)
    ensures forall i, j :: 0 <= i < j < |Unique(ids)| ==> Unique(ids)[i] != Unique(ids)[j]
  {
    if ids != [] {
      UniqueOnce(ids[..|ids| - 1]);
    }
  }

  lemma {:induction false} UniqueStarts(ids: seq<string>)
    ensures ids != [] ==> Unique(ids) != [] && Unique(ids)[0] == ids[0]
  {
    if ids != [] {
      UniqueStarts(ids[..|ids| - 1]);
      assert |ids| == 1 ==> Unique(ids[..0]) == [];
    }
  }

  /** Each id once, the first of them first. */
  lemma UniqueMeans(ids: seq<string>)
    ensures forall id :: id in Unique(ids) <==> id in ids
    ensures forall i, j :: 0 <= i < j < |Unique(ids)| ==> Unique(ids)[i] != Unique(ids)[j]
    ensures ids != [] ==> Unique(ids) != [] && Unique(ids)[0] == ids[0]
  {
    forall id ensures id in Unique(ids) <==> id in ids {
      UniqueHolds(ids, id);
    }
    UniqueOnce(ids);
    UniqueStarts(ids);
  }

  lemma {:induction false} IdsMeans(items: seq<Item>, id: string)
    ensures id in Ids(items) <==> exists x :: x in items && x.evidenceId == id
  {
    if items != [] {
      IdsMeans(items[1..], id);
      assert forall x :: x in items <==> x == items[0] || x in items[1..];
    }
  }

  /** The alert first, then the causal transactions, each once. */
  ghost predicate NamesCausal(ids: seq<string>, evidence: seq<Item>, alert: Item) {
    forall id :: id in ids <==>
        id == alert.evidenceId || exists x :: x in evidence && Causal(alert, x) && x.evidenceId == id
  }

  lemma CausalIdsMean(evidence: seq<Item>, v: View)
    requires ViewOf(evidence) == Some(v)
    ensures NamesCausal(Unique(CausalIds(v)), evidence, v.alert) && Unique(CausalIds(v))[..1] == [v.alert.evidenceId]
  {
    UniqueMeans(CausalIds(v));
    forall id ensures id in CausalIds(v) <==>
                      id == v.alert.evidenceId || exists x :: x in evidence && Causal(v.alert, x) && x.evidenceId == id
    {
      IdsMeans(v.causal, id);
      forall x ensures x in v.causal <==> x in evidence && Causal(v.alert, x) {
        CausalMeans(evidence, v.alert, x);
      }
    }
  }

  /** Patterns and missing geography rest on the alert and its transactions. */
  lemma PatternEvidence(evidence: seq<Item>, alert: Item, customer: Item, kyc: Option<Item>, facts: Facts, id: FactId)
    requires Reads(evidence, alert, customer, kyc) && Derived(evidence, facts) && id in facts
    requires id in {ActivityVariance, RapidMovement, RepeatedCredits, EnhancedExamination, GeographyUnavailable}
    ensures NamesCausal(facts[id], evidence, alert) && facts[id][..1] == [alert.evidenceId]
  {
    ViewReads(evidence, alert, customer, kyc);
    CausalIdsMean(evidence, ViewOf(evidence).value);
  }

  /** An exceeded turnover rests on the customer as well. */
  lemma TurnoverEvidence(evidence: seq<Item>, alert: Item, customer: Item, kyc: Option<Item>, facts: Facts)
    requires Reads(evidence, alert, customer, kyc) && Derived(evidence, facts) && AmountExceedsTurnover in facts
    ensures facts[AmountExceedsTurnover][..1] == [customer.evidenceId]
    ensures forall id :: id in facts[AmountExceedsTurnover] <==>
              || id == customer.evidenceId || id == alert.evidenceId
              || exists x :: x in evidence && Causal(alert, x) && x.evidenceId == id
  {
    ViewReads(evidence, alert, customer, kyc);
    var v := ViewOf(evidence).value;
    CausalIdsMean(evidence, v);
    UniqueMeans(CausalIds(v));
    UniqueMeans([v.customer.evidenceId] + CausalIds(v));
  }

  /** What the customer's record says rests on that record alone. */
  lemma CustomerEvidence(evidence: seq<Item>, alert: Item, customer: Item, kyc: Option<Item>, facts: Facts, id: FactId)
    requires Reads(evidence, alert, customer, kyc) && Derived(evidence, facts) && id in facts
    requires id in {HighRiskCustomer, BusinessCustomer, PepUnavailable, SanctionsUnavailable}
    ensures facts[id] == [customer.evidenceId]
  {
    ViewReads(evidence, alert, customer, kyc);
    OnlyOne(customer.evidenceId);
  }

  /** A profile that is not current speaks for itself. */
  lemma StaleKycEvidence(evidence: seq<Item>, alert: Item, customer: Item, kyc: Option<Item>, facts: Facts)
    requires Reads(evidence, alert, customer, kyc) && Derived(evidence, facts) && KycNotCurrent in facts
    ensures kyc.Some? && facts[KycNotCurrent] == [kyc.value.evidenceId]
  {
    ViewReads(evidence, alert, customer, kyc);
    OnlyOne(kyc.value.evidenceId);
  }

  /** A missing profile rests on the customer, and on the profile if there is one. */
  lemma MissingKycEvidence(evidence: seq<Item>, alert: Item, customer: Item, kyc: Option<Item>, facts: Facts)
    requires Reads(evidence, alert, customer, kyc) && Derived(evidence, facts) && KycMissingFact in facts
    ensures facts[KycMissingFact][..1] == [customer.evidenceId]
    ensures forall e :: e in facts[KycMissingFact] <==>
              e == customer.evidenceId || (kyc.Some? && e == kyc.value.evidenceId)
  {
    ViewReads(evidence, alert, customer, kyc);
    UniqueMeans([customer.evidenceId] + KycIds(ViewOf(evidence).value));
  }

  lemma OnlyOne(id: string)
    ensures Unique([id]) == [id]
  {
    assert [id][..0] == [];
  }

  /** The customer, the profile if there is one, and every supplied item. */
  ghost predicate NamesSupplied(ids: seq<string>, evidence: seq<Item>, customer: Item, kyc: Option<Item>) {
    forall e :: e in ids <==>
      || e == customer.evidenceId || (kyc.Some? && e == kyc.value.evidenceId)
      || exists x :: x in evidence && x.evidenceType == SUPPLEMENTAL_INFORMATION && x.evidenceId == e
  }

  lemma SuppliedIdsMean(evidence: seq<Item>, v: View)
    requires ViewOf(evidence) == Some(v)
    ensures NamesSupplied([v.customer.evidenceId] + KycIds(v) + Ids(v.supplemental), evidence, v.customer, v.kyc)
  {
    forall e ensures e in Ids(v.supplemental) <==>
                     exists x :: x in evidence && x.evidenceType == SUPPLEMENTAL_INFORMATION && x.evidenceId == e
    {
      IdsMeans(v.supplemental, e);
    }
  }

  /** Missing owner or purpose rest on customer, profile and everything supplied. */
  lemma MissingEvidenceNames(evidence: seq<Item>, alert: Item, customer: Item, kyc: Option<Item>, facts: Facts,
                             id: FactId)
    requires Reads(evidence, alert, customer, kyc) && Derived(evidence, facts) && id in facts
    requires id in {OwnerUnavailable, PurposeUnavailable}
    ensures facts[id][..1] == [customer.evidenceId] && NamesSupplied(facts[id], evidence, customer, kyc)
  {
    ViewReads(evidence, alert, customer, kyc);
    var v := ViewOf(evidence).value;
    SuppliedIdsMean(evidence, v);
    var ids := [v.customer.evidenceId] + KycIds(v) + Ids(v.supplemental);
    UniqueMeans(ids);
    assert facts[id] == Unique(ids);
  }

  // ----- what the facts are used for -----

  /** The request for the alert's rule, as of its date, in the service's jurisdiction, with the names of the facts. */
  ghost predicate Asks(q: PR.Request, alert: Item, facts: Facts, words: set<string>, p: PolicySelection.Policies) {
    && q.words == words && q.limit == p.limit && q.scope.jurisdiction == p.jurisdiction
    && alert.content.createdOn == Some(q.scope.asOf)
    && ("rule_id" in alert.content.fields ==> q.alertRuleId == alert.content.fields["rule_id"])
    && ("rule_id" !in alert.content.fields ==> q.alertRuleId == "")
    && forall name :: name in q.facts <==> exists id :: id in facts && FactName(id) == name
  }

  /** A selection is the answer to this request, dated as the alert, under the derived facts. */
  lemma SelectionMeans(evidence: seq<Item>, alert: Item, customer: Item, kyc: Item, words: set<string>,
                       p: PolicySelection.Policies) returns (q: PR.Request)
    requires Reads(evidence, alert, customer, Some(kyc)) && PolicySelection.SelectSpec(evidence, words, p).Ok?
    ensures var selection := PolicySelection.SelectSpec(evidence, words, p).value;
            && Asks(q, alert, selection.facts, words, p) && selection.asOf == q.scope.asOf
            && PR.SearchForAlertSpec(p.index, q) == PR.Ok(selection.matches)
            && selection.facts == FactsOf(ViewOf(evidence).value)
  {
    ViewReads(evidence, alert, customer, Some(kyc));
    q := PolicySelection.RequestOf(ViewOf(evidence).value, words, p);
  }
}
