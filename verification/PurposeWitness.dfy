/** A case in which a blanked purpose makes the second policy selection fail at the limit. */
module PurposeWitness {
  import opened Prelude
  import opened PolicyApplicability
  import opened PolicySelection
  import PR = PolicyRetrieval
  import RP = RetrievalProperties

  const EMPTY := Content(map[], [], None, Absent, Absent, None)
  const OPENING := Item("1", ALERT, 0, "", 0, EMPTY.(fields := map["rule_id" := "R"], createdOn := Some(0)))
  const CLIENT := Item("2", CUSTOMER_PROFILE, 0, "", 0, EMPTY)
  const PROFILE := Item("3", KYC_PROFILE, 0, "", 0, EMPTY)
  const TOLD := Item("4", SUPPLEMENTAL_INFORMATION, 0, "", 0, EMPTY.(information := Some(map["purpose" := "salary"])))
  const BLANKED := Item("5", SUPPLEMENTAL_INFORMATION, 0, "", 0, EMPTY.(information := Some(map["purpose" := ""])))
  const BEFORE := [OPENING, CLIENT, PROFILE, TOLD]

  const ALWAYS := PR.Rule("A", "initial_analysis", "", [], [])
  const PURPOSE := PR.Rule("B", "information_collection", "", [FactName(PurposeUnavailable)], [])
  const CORPUS := [PR.Chunk("A", "FR", true, None, None, {}), PR.Chunk("B", "FR", true, None, None, {})]
  const ONE := Policies(PR.Index(CORPUS, map["R" := PR.Mapping("R", [ALWAYS], [PURPOSE])]), "FR", 1)

  lemma FilterOfFour(a: Item, b: Item, c: Item, d: Item, keep: Item -> bool)
    requires !keep(a) && !keep(b) && !keep(c)
    ensures Filter([a, b, c, d], keep) == if keep(d) then [d] else []
  {
    assert [a, b, c, d][1..] == [b, c, d] && [b, c, d][1..] == [c, d] && [c, d][1..] == [d] && [d][1..] == [];
    assert Filter([d], keep) == if keep(d) then [d] else [];
    assert Filter([c, d], keep) == Filter([d], keep);
    assert Filter([b, c, d], keep) == Filter([c, d], keep);
  }

  lemma ViewBefore()
    ensures ViewOf(BEFORE) == Some(View(OPENING, CLIENT, Some(PROFILE), [], [TOLD]))
  {
    assert BEFORE[1..] == [CLIENT, PROFILE, TOLD];
    assert BEFORE[1..][1..] == [PROFILE, TOLD];
    assert First(BEFORE, ALERT) == Some(OPENING);
    assert First(BEFORE, CUSTOMER_PROFILE) == Some(CLIENT);
    assert BEFORE[1..][1..][0] == PROFILE;
    assert First(BEFORE[1..][1..], KYC_PROFILE) == Some(PROFILE);
    assert First(BEFORE[1..], KYC_PROFILE) == Some(PROFILE);
    assert First(BEFORE, KYC_PROFILE) == Some(PROFILE);
    FilterOfFour(OPENING, CLIENT, PROFILE, TOLD, OfType(SUPPLEMENTAL_INFORMATION));
    FilterOfFour(OPENING, CLIENT, PROFILE, TOLD, CausalOf(OPENING));
  }

  lemma PurposeComesBack(v: View)
    requires v == View(OPENING, CLIENT, Some(PROFILE), [], [TOLD])
    ensures !Holds(v, PurposeUnavailable) && Holds(v.(supplemental := [TOLD, BLANKED]), PurposeUnavailable)
  {
    assert [TOLD][..0] == [] && [TOLD, BLANKED][..1] == [TOLD];
    assert Merged([TOLD]) == map["purpose" := "salary"];
    assert !IsSpace("salary"[0]);
    assert Merged([TOLD, BLANKED])["purpose"] == "";
  }

  lemma OtherName(id: FactId)
    requires !id.PurposeUnavailable?
    ensures FactName(id) != "relationship_purpose_unavailable"
  {
    if id.RapidMovement? {
      assert "rapid_funds_movement_pattern"[1] == 'a';
    } else if id.RepeatedCredits? {
      assert "repeated_credit_pattern"[2] == 'p';
    } else if id.AmountExceedsTurnover? {
      var name := FactName(id);
      assert name[|name| - 1] == 'r';
    } else {
      FirstLetter(id);
    }
  }

  lemma FirstLetter(id: FactId)
    requires !id.PurposeUnavailable? && !id.RapidMovement? && !id.RepeatedCredits? && !id.AmountExceedsTurnover?
    ensures FactName(id)[..1] != "r"
  {
    match id
    case ActivityVariance => assert FactName(id)[0] == 'a';
    case OwnerUnavailable | BusinessCustomer => assert FactName(id)[0] == 'b';
    case GeographyUnavailable => assert FactName(id)[0] == 'c';
    case HighRiskCustomer => assert FactName(id)[0] == 'h';
    case KycMissingFact | KycNotCurrent => assert FactName(id)[0] == 'k';
    case PepUnavailable | EnhancedExamination => assert FactName(id)[0] == 'p';
    case SanctionsUnavailable => assert FactName(id)[0] == 's';
  }

  lemma BothEligible(scope: PR.Scope, facts: set<string>)
    requires scope == PR.Scope("FR", 0)
    ensures PR.EligibleRules(CORPUS, PR.Mapping("R", [ALWAYS], [PURPOSE]), facts, scope)
            == if FactName(PurposeUnavailable) in facts then [ALWAYS, PURPOSE] else [ALWAYS]
  {
    assert CORPUS[..1] == [CORPUS[0]] && [CORPUS[0]][..0] == [];
    assert PR.HasEligible(CORPUS, scope)(ALWAYS) && PR.HasEligible(CORPUS, scope)(PURPOSE);
    assert PURPOSE.whenAll[0] in PURPOSE.whenAll;
    assert PR.Applies(PURPOSE, facts) <==> FactName(PurposeUnavailable) in facts;
    assert [PURPOSE][1..] == [] && [ALWAYS][1..] == [] && [ALWAYS, PURPOSE][1..] == [PURPOSE];
    assert [ALWAYS] + [PURPOSE] == [ALWAYS, PURPOSE] && [ALWAYS] + [] == [ALWAYS];
  }

  lemma NotNamed(v: View)
    requires !Holds(v, PurposeUnavailable)
    ensures FactName(PurposeUnavailable) !in FactNames(FactsOf(v))
  {
    forall id | id in FactsOf(v) ensures FactName(id) != FactName(PurposeUnavailable) {
      OtherName(id);
    }
  }

  lemma OneAsked(v: View)
    requires v == View(OPENING, CLIENT, Some(PROFILE), [], [TOLD])
    ensures RP.Asked(ONE.index, RequestOf(v, {}, ONE)) == [ALWAYS]
  {
    PurposeComesBack(v);
    NotNamed(v);
    BothEligible(PR.Scope("FR", 0), FactNames(FactsOf(v)));
  }

  lemma OneFits()
    ensures SelectSpec(BEFORE, {}, ONE).Ok?
  {
    ViewBefore();
    OneAsked(ViewOf(BEFORE).value);
    SelectedExactly(BEFORE, {}, ONE);
  }

  lemma ViewAfter()
    ensures ViewOf(BEFORE + [BLANKED]) == Some(View(OPENING, CLIENT, Some(PROFILE), [], [TOLD, BLANKED]))
    ensures First(BEFORE + [BLANKED], KYC_PROFILE).Some?
  {
    ViewBefore();
    Extended(BEFORE, View(OPENING, CLIENT, Some(PROFILE), [], [TOLD]), BLANKED);
    assert [TOLD] + [BLANKED] == [TOLD, BLANKED];
  }

  lemma Extended(evidence: seq<Item>, v: View, x: Item)
    requires ViewOf(evidence) == Some(v) && x.evidenceType == SUPPLEMENTAL_INFORMATION
    ensures ViewOf(evidence + [x]) == Some(v.(supplemental := v.supplemental + [x]))
    ensures First(evidence + [x], KYC_PROFILE) == v.kyc
  {
    ViewWithSupplement(evidence, x);
  }

  lemma TwoAsked(w: View)
    requires w == View(OPENING, CLIENT, Some(PROFILE), [], [TOLD, BLANKED])
    ensures RP.Asked(ONE.index, RequestOf(w, {}, ONE)) == [ALWAYS, PURPOSE]
  {
    PurposeComesBack(w.(supplemental := [TOLD]));
    assert PurposeUnavailable in FactsOf(w);
    BothEligible(PR.Scope("FR", 0), FactNames(FactsOf(w)));
  }

  lemma TwoDoNot()
    ensures SelectSpec(BEFORE + [BLANKED], {}, ONE) == Err(Policy(PR.LimitTooSmall(1, 2)))
  {
    ViewAfter();
    TwoAsked(ViewOf(BEFORE + [BLANKED]).value);
  }

  /** A blanked purpose really can make the second selection fail at the limit. */
  lemma BlankedPurposeCanFail()
    ensures exists evidence, x: Item, p :: x.evidenceType == SUPPLEMENTAL_INFORMATION && BlanksPurpose(x)
              && SelectSpec(evidence, {}, p).Ok?
              && SelectSpec(evidence + [x], {}, p) == Err(Policy(PR.LimitTooSmall(1, 2)))
  {
    OneFits();
    TwoDoNot();
    assert BlanksPurpose(BLANKED);
  }
}
