/** Selecting policies from evidence, and selecting again after information was supplied. */
module PolicySelection {
  import opened Prelude
  import opened PolicyApplicability
  import PR = PolicyRetrieval
  import RP = RetrievalProperties

  datatype Policies = Policies(index: PR.Index, jurisdiction: string, limit: int)

  datatype Selection = Selection(asOf: int, facts: Facts, matches: seq<PR.Match>)

  function FactNames(facts: Facts): set<string> {
    set id | id in facts :: FactName(id)
  }

  function RequestOf(v: View, words: set<string>, p: Policies): PR.Request
    requires v.alert.content.createdOn.Some?
  {
    PR.Request(words, Get(v.alert.content, "rule_id"), PR.Scope(p.jurisdiction, v.alert.content.createdOn.value),
               FactNames(FactsOf(v)), p.limit)
  }

  /** `words` is the set of words of the query built from the evidence. */
  function SelectSpec(evidence: seq<Item>, words: set<string>, p: Policies): Result<Selection> {
    if First(evidence, KYC_PROFILE).None? then Err(MissingEvidence) else
    match Outcome(evidence)
    case Some(e) => Err(e)
    case None =>
      var v := ViewOf(evidence).value;
      if v.alert.content.createdOn.None? then Err(UnreadableDate) else
      match PR.SearchForAlertSpec(p.index, RequestOf(v, words, p))
      case Err(e) => Err(Policy(e))
      case Ok(matches) => Ok(Selection(v.alert.content.createdOn.value, FactsOf(v), matches))
  }

  /** Selecting as a service that was set up once. */
  type Selector = (seq<Item>, set<string>) -> Result<Selection>

  function Selecting(p: Policies): Selector {
    (evidence, words) => SelectSpec(evidence, words, p)
  }

  method SelectPolicies(evidence: seq<Item>, words: set<string>, p: Policies) returns (r: Result<Selection>)
    ensures r == SelectSpec(evidence, words, p)
  {
    if First(evidence, KYC_PROFILE).None? { return Err(MissingEvidence); }
    var facts := Derive(evidence);
    if facts.Err? { return Err(facts.error); }
    var v := ViewOf(evidence).value;
    if v.alert.content.createdOn.None? { return Err(UnreadableDate); }
    var asOf := v.alert.content.createdOn.value;
    var found := PR.SearchForAlert(p.index, RequestOf(v, words, p));
    if found.Err? { return Err(Policy(found.error)); }
    r := Ok(Selection(asOf, facts.value, found.value));
  }

  // ----- what one more supplemental item changes -----

  lemma {:induction false} FirstSnoc(items: seq<Item>, x: Item, t: EvidenceType)
    requires x.evidenceType != t
    ensures First(items + [x], t) == First(items, t)
  {
    if items == [] {
      assert [x][1..] == [];
    } else {
      assert (items + [x])[1..] == items[1..] + [x];
      FirstSnoc(items[1..], x, t);
    }
  }

  lemma FilterSnoc(items: seq<Item>, x: Item, keep: Item -> bool)
    ensures Filter(items + [x], keep) == Filter(items, keep) + if keep(x) then [x] else []
  {
    FilterConcat(items, [x], keep);
    assert [x][1..] == [];
  }

  lemma SupplementSnoc(evidence: seq<Item>, x: Item)
    requires x.evidenceType == SUPPLEMENTAL_INFORMATION
    ensures Filter(evidence + [x], OfType(SUPPLEMENTAL_INFORMATION))
            == Filter(evidence, OfType(SUPPLEMENTAL_INFORMATION)) + [x]
    ensures forall alert: Item :: Filter(evidence + [x], CausalOf(alert)) == Filter(evidence, CausalOf(alert))
  {
    FilterSnoc(evidence, x, OfType(SUPPLEMENTAL_INFORMATION));
    forall alert: Item ensures Filter(evidence + [x], CausalOf(alert)) == Filter(evidence, CausalOf(alert)) {
      FilterSnoc(evidence, x, CausalOf(alert));
    }
  }

  /** A supplemental item changes nothing in the view but the supplemental items. */
  lemma ViewWithSupplement(evidence: seq<Item>, x: Item)
    requires x.evidenceType == SUPPLEMENTAL_INFORMATION
    ensures First(evidence + [x], KYC_PROFILE) == First(evidence, KYC_PROFILE)
    ensures ViewOf(evidence + [x]).Some? == ViewOf(evidence).Some?
    ensures ViewOf(evidence).Some? ==>
              ViewOf(evidence + [x]).value
              == ViewOf(evidence).value.(supplemental := ViewOf(evidence).value.supplemental + [x])
  {
    FirstSnoc(evidence, x, ALERT);
    FirstSnoc(evidence, x, CUSTOMER_PROFILE);
    FirstSnoc(evidence, x, KYC_PROFILE);
    SupplementSnoc(evidence, x);
  }

  lemma MergedSnoc(supplemental: seq<Item>, x: Item)
    ensures Merged(supplemental + [x]) == Merged(supplemental) + InformationOf(x)
  {
    assert (supplemental + [x])[..|supplemental|] == supplemental;
  }

  /** The item carries a purpose field that says nothing. */
  predicate BlanksPurpose(x: Item) {
    "purpose" in InformationOf(x) && IsBlank(InformationOf(x)["purpose"])
  }

  /** A supplemental item adds no fact, except that a blanked purpose can bring back one. */
  lemma NoNewFacts(v: View, x: Item, id: FactId)
    requires Holds(v.(supplemental := v.supplemental + [x]), id)
    ensures Holds(v, id) || (id.PurposeUnavailable? && BlanksPurpose(x))
  {
    MergedSnoc(v.supplemental, x);
  }

  /** Exactly when the missing-purpose fact comes back. */
  lemma PurposeReturnsExactly(v: View, x: Item)
    ensures (!Holds(v, PurposeUnavailable) && Holds(v.(supplemental := v.supplemental + [x]), PurposeUnavailable))
            <==> !PurposeInKyc(v) && !Blank(Merged(v.supplemental), "purpose") && BlanksPurpose(x)
  {
    MergedSnoc(v.supplemental, x);
  }

  lemma FactsShrink(v: View, x: Item)
    requires !BlanksPurpose(x)
    ensures FactNames(FactsOf(v.(supplemental := v.supplemental + [x]))) <= FactNames(FactsOf(v))
  {
    var w := v.(supplemental := v.supplemental + [x]);
    forall name | name in FactNames(FactsOf(w)) ensures name in FactNames(FactsOf(v)) {
      var id :| id in FactsOf(w) && FactName(id) == name;
      NoNewFacts(v, x, id);
      assert id in FactsOf(v);
    }
  }

  /** The evidence names a dated alert with a mapping. */
  predicate Mapped(evidence: seq<Item>, p: Policies) {
    && ViewOf(evidence).Some? && ViewOf(evidence).value.alert.content.createdOn.Some?
    && Get(ViewOf(evidence).value.alert.content, "rule_id") in p.index.mappings
  }

  /** The mapped policies a selection is based on. */
  function MappedRules(evidence: seq<Item>, p: Policies): seq<PR.Rule>
    requires Mapped(evidence, p)
  {
    RP.Asked(p.index, RequestOf(ViewOf(evidence).value, {}, p))
  }

  lemma SelectedExactly(evidence: seq<Item>, words: set<string>, p: Policies)
    requires ViewOf(evidence).Some?
    ensures SelectSpec(evidence, words, p).Ok? <==>
            var v := ViewOf(evidence).value;
            && v.kyc.Some? && ExceedsTurnover(v).Some? && 1 <= p.limit <= 20
            && Mapped(evidence, p) && |MappedRules(evidence, p)| <= p.limit
  {
  }

  /** The later evidence is mapped to policies that the earlier was mapped to. */
  ghost predicate Narrows(evidence: seq<Item>, later: seq<Item>, p: Policies) {
    && Mapped(evidence, p) && Mapped(later, p)
    && |MappedRules(later, p)| <= |MappedRules(evidence, p)|
    && forall rule :: rule in MappedRules(later, p) ==> rule in MappedRules(evidence, p)
  }

  lemma NarrowsTwice(a: seq<Item>, b: seq<Item>, c: seq<Item>, p: Policies)
    requires Narrows(a, b, p) && Narrows(b, c, p)
    ensures Narrows(a, c, p)
  {
  }

  /**
   * After a supplemental item that does not blank the purpose, a selection that succeeded succeeds
   * again, whatever the new query, and its mapped policies are among the earlier ones.
   */
  lemma ReselectionNarrows(evidence: seq<Item>, x: Item, words: set<string>, again: set<string>, p: Policies)
    requires x.evidenceType == SUPPLEMENTAL_INFORMATION && !BlanksPurpose(x)
    requires SelectSpec(evidence, words, p).Ok?
    ensures SelectSpec(evidence + [x], again, p).Ok? && Narrows(evidence, evidence + [x], p)
  {
    var v := ViewOf(evidence).value;
    ViewWithSupplement(evidence, x);
    FactsShrink(v, x);
    SelectedExactly(evidence, words, p);
    SelectedExactly(evidence + [x], again, p);
    RP.FewerFactsFewerRules(
      p.index.chunks, p.index.mappings[Get(v.alert.content, "rule_id")],
      PR.Scope(p.jurisdiction, v.alert.content.createdOn.value),
      FactNames(FactsOf(v.(supplemental := v.supplemental + [x]))), FactNames(FactsOf(v)));
  }

  /**
   * Exactly when a second selection fails: the new item blanks the purpose, and the mapped policies,
   * with those for the missing purpose back among them, no longer fit the limit.
   */
  lemma ReselectionFailsExactly(evidence: seq<Item>, x: Item, words: set<string>, again: set<string>, p: Policies)
    requires x.evidenceType == SUPPLEMENTAL_INFORMATION && SelectSpec(evidence, words, p).Ok?
    ensures Mapped(evidence + [x], p)
    ensures !SelectSpec(evidence + [x], again, p).Ok? <==>
            BlanksPurpose(x) && |MappedRules(evidence + [x], p)| > p.limit
  {
    ViewWithSupplement(evidence, x);
    SelectedExactly(evidence, words, p);
    SelectedExactly(evidence + [x], again, p);
    if !BlanksPurpose(x) {
      ReselectionNarrows(evidence, x, words, again, p);
    }
  }

  /** A supplemental item that does not blank the purpose. */
  predicate Informs(x: Item) {
    x.evidenceType == SUPPLEMENTAL_INFORMATION && !BlanksPurpose(x)
  }

  lemma OneMoreRound(evidence: seq<Item>, middle: seq<Item>, later: seq<Item>, x: Item, words: set<string>,
                     again: set<string>, p: Policies)
    requires Informs(x) && later == middle + [x]
    requires SelectSpec(middle, words, p).Ok? && Narrows(evidence, middle, p)
    ensures SelectSpec(later, again, p).Ok? && Narrows(evidence, later, p)
  {
    ReselectionNarrows(middle, x, words, again, p);
    NarrowsTwice(evidence, middle, later, p);
  }

  /** The words of the query never decide whether a selection succeeds. */
  lemma AnyWordsDo(evidence: seq<Item>, words: set<string>, again: set<string>, p: Policies)
    requires SelectSpec(evidence, words, p).Ok?
    ensures SelectSpec(evidence, again, p).Ok? && Narrows(evidence, evidence, p)
  {
    SelectedExactly(evidence, words, p);
    SelectedExactly(evidence, again, p);
  }

  /** The same over any number of information rounds. */
  lemma {:induction false} RoundsNarrow(evidence: seq<Item>, rounds: seq<Item>, words: set<string>, again: set<string>,
                                        p: Policies)
    requires forall i :: 0 <= i < |rounds| ==> Informs(rounds[i])
    requires SelectSpec(evidence, words, p).Ok?
    ensures SelectSpec(evidence + rounds, again, p).Ok? && Narrows(evidence, evidence + rounds, p)
  {
    AppendLast(evidence, rounds);
    if rounds == [] {
      AnyWordsDo(evidence, words, again, p);
    } else {
      var before, last := rounds[..|rounds| - 1], rounds[|rounds| - 1];
      RoundsNarrow(evidence, before, words, words, p);
      OneMoreRound(evidence, evidence + before, evidence + rounds, last, words, again, p);
    }
  }
}
