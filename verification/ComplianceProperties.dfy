/** What capping guarantees about the whole compliance document. */
module ComplianceProperties {
  import opened Prelude
  import opened Compliance

  // ----- which rule governs a control -----

  predicate Matches(rule: Rule, f: string, c: string) {
    rule.frameworkId == f && rule.controlId == c
  }

  /** The k-th rule is the last one for the control. */
  ghost predicate Governs(rules: seq<Rule>, k: int, f: string, c: string) {
    0 <= k < |rules| && Matches(rules[k], f, c) && forall j :: k < j < |rules| ==> !Matches(rules[j], f, c)
  }

  lemma {:induction false} LastRuleGoverns(rules: seq<Rule>, f: string, c: string)
    ensures LastRule(rules, f, c).None? ==> forall k :: 0 <= k < |rules| ==> !Matches(rules[k], f, c)
    ensures LastRule(rules, f, c).Some? ==>
            exists k :: Governs(rules, k, f, c) && LastRule(rules, f, c) == Some(rules[k])
  {
    if rules != [] {
      var before := rules[..|rules| - 1];
      if Matches(rules[|rules| - 1], f, c) {
        assert Governs(rules, |rules| - 1, f, c);
      } else {
        LastRuleGoverns(before, f, c);
        if LastRule(before, f, c).Some? {
          var k :| Governs(before, k, f, c) && LastRule(before, f, c) == Some(before[k]);
          assert Governs(rules, k, f, c) && rules[k] == before[k];
        } else {
          forall k | 0 <= k < |rules| ensures !Matches(rules[k], f, c) {
            assert k < |before| ==> before[k] == rules[k];
          }
        }
      }
    }
  }

  lemma GoverningIsUnique(rules: seq<Rule>, k: int, f: string, c: string)
    requires Governs(rules, k, f, c)
    ensures LastRule(rules, f, c) == Some(rules[k])
  {
    LastRuleGoverns(rules, f, c);
  }

  // ----- a met verdict is backed -----

  /** A control claims its status, and "not_evaluated" if it has none. */
  lemma RawMeans(c: Control)
    requires c.Control?
    ensures c.status.Some? ==> Raw(c) == c.status.value
    ensures c.status.None? ==> Raw(c) == NotEvaluated
  {
  }

  /** The governing rule allows "met" and everything it requires is available. */
  ghost predicate Backed(rules: seq<Rule>, f: string, c: string, available: set<string>) {
    exists k :: Governs(rules, k, f, c) && rules[k].ceiling == UpToMet
                && forall e :: e in rules[k].requiredEvidence ==> e in available
  }

  lemma BackedExactly(rules: seq<Rule>, f: string, c: string, available: set<string>)
    ensures Backed(rules, f, c, available) <==>
            var rule := LastRule(rules, f, c); CeilingOf(rule) == UpToMet && Required(rule) <= available
  {
    var rule := LastRule(rules, f, c);
    LastRuleGoverns(rules, f, c);
    if rule.Some? {
      var k :| Governs(rules, k, f, c) && rule == Some(rules[k]);
      assert Required(rule) <= available <==> forall e :: e in rules[k].requiredEvidence ==> e in available;
      forall j | Governs(rules, j, f, c) ensures rules[j] == rules[k] {
        GoverningIsUnique(rules, j, f, c);
      }
    }
  }

  /** Control j of framework i. */
  predicate IsControl(fs: seq<Framework>, i: int, j: int) {
    0 <= i < |fs| && Validatable(fs[i]) && 0 <= j < |fs[i].controls.value| && fs[i].controls.value[j].Control?
  }

  function ControlAt(fs: seq<Framework>, i: int, j: int): (c: Control)
    requires IsControl(fs, i, j)
    ensures c.Control?
  {
    fs[i].controls.value[j]
  }

  lemma MetExactly(f: string, c: Control, rules: seq<Rule>, available: set<string>)
    requires c.Control?
    ensures Validated(c, LastRule(rules, f, c.id), available) == Met <==>
            Raw(c) == Met && Backed(rules, f, c.id, available)
  {
    BackedExactly(rules, f, c.id, available);
  }

  /** A control of the output is "met" exactly when it was "met" before and is backed. */
  lemma MetIsBacked(fs: seq<Framework>, rules: seq<Rule>, available: set<string>, i: int, j: int)
    requires Validate(fs, rules, available).Ok? && IsControl(fs, i, j)
    ensures var out := Validate(fs, rules, available).value.frameworks;
            && IsControl(out, i, j)
            && (Raw(ControlAt(out, i, j)) == Met <==>
                Raw(ControlAt(fs, i, j)) == Met && Backed(rules, fs[i].id, ControlAt(fs, i, j).id, available))
  {
    OutputAt(fs, rules, available, i, j);
    MetExactly(fs[i].id, ControlAt(fs, i, j), rules, available);
  }

  lemma OutputAt(fs: seq<Framework>, rules: seq<Rule>, available: set<string>, i: int, j: int)
    requires AllWellFormed(fs) && IsControl(fs, i, j)
    ensures var out := ValidateAll(fs, rules, available);
            && IsControl(out, i, j)
            && ControlAt(out, i, j)
               == Annotate(ControlAt(fs, i, j), LastRule(rules, fs[i].id, ControlAt(fs, i, j).id), available)
  {
    assert ValidateAll(fs, rules, available)[i] == ValidateFramework(fs[i], rules, available);
  }

  // ----- what becomes of every other verdict -----

  /** The governing rule has one of these ceilings and everything it requires is available. */
  ghost predicate Allows(rules: seq<Rule>, f: string, c: string, available: set<string>, ceilings: set<Ceiling>) {
    exists k :: Governs(rules, k, f, c) && rules[k].ceiling in ceilings
                && forall e :: e in rules[k].requiredEvidence ==> e in available
  }

  /** Nothing that a governing rule requires is missing; so it is where no rule governs. */
  ghost predicate NothingMissing(rules: seq<Rule>, f: string, c: string, available: set<string>) {
    forall k, e :: Governs(rules, k, f, c) && e in rules[k].requiredEvidence ==> e in available
  }

  lemma AllowsExactly(rules: seq<Rule>, f: string, c: string, available: set<string>, ceilings: set<Ceiling>)
    ensures var rule := LastRule(rules, f, c);
            Allows(rules, f, c, available, ceilings) <==>
            rule.Some? && rule.value.ceiling in ceilings && Required(rule) <= available
  {
    LastRuleGoverns(rules, f, c);
    forall k | Governs(rules, k, f, c) ensures LastRule(rules, f, c) == Some(rules[k]) {
      GoverningIsUnique(rules, k, f, c);
    }
    if k :| Governs(rules, k, f, c) {
      assert Required(Some(rules[k])) <= available <==> forall e :: e in rules[k].requiredEvidence ==> e in available;
    }
  }

  lemma NothingMissingExactly(rules: seq<Rule>, f: string, c: string, available: set<string>)
    ensures NothingMissing(rules, f, c, available) <==> Required(LastRule(rules, f, c)) <= available
  {
    LastRuleGoverns(rules, f, c);
    forall k | Governs(rules, k, f, c) ensures LastRule(rules, f, c) == Some(rules[k]) {
      GoverningIsUnique(rules, k, f, c);
    }
    if k :| Governs(rules, k, f, c) {
      assert Required(Some(rules[k])) <= available <==> forall e :: e in rules[k].requiredEvidence ==> e in available;
    }
  }

  /** What a control's claim becomes. */
  ghost predicate Becomes(c: Control, status: Status, f: string, rules: seq<Rule>, available: set<string>)
    requires c.Control?
  {
    && (status == Attention <==>
          Raw(c) == Attention && NothingMissing(rules, f, c.id, available) && !IsBlank(c.proof))
    && (status == Partial <==>
          || (Raw(c) == Partial && Allows(rules, f, c.id, available, {UpToMet, UpToPartial}))
          || (Raw(c) == Met && Allows(rules, f, c.id, available, {UpToPartial})))
    && (status.Other? <==> Raw(c).Other? && Allows(rules, f, c.id, available, {UpToMet, UpToPartial}))
    && (status.Other? ==> status == Raw(c))
  }

  lemma ControlBecomes(f: string, c: Control, rules: seq<Rule>, available: set<string>)
    requires c.Control?
    ensures Becomes(c, Raw(Annotate(c, LastRule(rules, f, c.id), available)), f, rules, available)
  {
    AllowsExactly(rules, f, c.id, available, {UpToMet, UpToPartial});
    AllowsExactly(rules, f, c.id, available, {UpToPartial});
    NothingMissingExactly(rules, f, c.id, available);
  }

  /**
   * An "attention" is kept with a written proof and nothing missing, rule or no rule. "partial" is what a
   * backed "partial" stays, and what a "met" becomes under a rule that allows no more. Any other text but
   * "met" is kept under such a rule too. Everything else is "not_evaluated".
   */
  lemma StatusesExactly(fs: seq<Framework>, rules: seq<Rule>, available: set<string>, i: int, j: int)
    requires Validate(fs, rules, available).Ok? && IsControl(fs, i, j)
    ensures var out := Validate(fs, rules, available).value.frameworks;
            && IsControl(out, i, j)
            && Becomes(ControlAt(fs, i, j), Raw(ControlAt(out, i, j)), fs[i].id, rules, available)
  {
    OutputAt(fs, rules, available, i, j);
    ControlBecomes(fs[i].id, ControlAt(fs, i, j), rules, available);
  }

  /** The notes tell the status that came in, and what the governing rule says, found and missed. */
  ghost predicate Annotated(c: Control, d: Control, f: string, rules: seq<Rule>, available: set<string>)
    requires c.Control?
  {
    && d.Control? && d.id == c.id && d.proof == c.proof && d.notes.Some?
    && d.notes.value.proofagentStatus == Raw(c)
    && (forall k :: Governs(rules, k, f, c.id) ==> NotesOf(rules[k], available, d.notes.value))
    && ((exists k :: Governs(rules, k, f, c.id)) || Unruled(d.notes.value))
  }

  predicate Unruled(notes: Notes) {
    && notes.evidence == {} && notes.missing == {}
    && notes.rationale == "No AMLGuard evidence-validation rule exists for this control."
  }

  lemma ControlAnnotated(f: string, c: Control, rules: seq<Rule>, available: set<string>)
    requires c.Control?
    ensures Annotated(c, Annotate(c, LastRule(rules, f, c.id), available), f, rules, available)
  {
    LastRuleGoverns(rules, f, c.id);
    var notes := Annotate(c, LastRule(rules, f, c.id), available).notes.value;
    forall k | Governs(rules, k, f, c.id) ensures NotesOf(rules[k], available, notes) {
      GoverningIsUnique(rules, k, f, c.id);
    }
  }

  lemma NotesExactly(fs: seq<Framework>, rules: seq<Rule>, available: set<string>, i: int, j: int)
    requires Validate(fs, rules, available).Ok? && IsControl(fs, i, j)
    ensures var out := Validate(fs, rules, available).value.frameworks;
            && IsControl(out, i, j) && out[i].id == fs[i].id
            && |out[i].controls.value| == |fs[i].controls.value|
            && Annotated(ControlAt(fs, i, j), ControlAt(out, i, j), fs[i].id, rules, available)
  {
    OutputAt(fs, rules, available, i, j);
    ControlAnnotated(fs[i].id, ControlAt(fs, i, j), rules, available);
  }

  ghost predicate NotesOf(rule: Rule, available: set<string>, notes: Notes) {
    && notes.rationale == rule.rationale
    && (forall e :: e in notes.evidence <==> e in rule.requiredEvidence && e in available)
    && (forall e :: e in notes.missing <==> e in rule.requiredEvidence && e !in available)
  }

  /** An entry that is no object, or a framework without a list of controls, is left as it came. */
  lemma MalformedIsKept(fs: seq<Framework>, rules: seq<Rule>, available: set<string>, i: int)
    requires Validate(fs, rules, available).Ok? && 0 <= i < |fs| && (fs[i].NotAFramework? || fs[i].controls.None?)
    ensures var out := Validate(fs, rules, available).value.frameworks; |out| == |fs| && out[i] == fs[i]
  {
    assert ValidateAll(fs, rules, available)[i] == ValidateFramework(fs[i], rules, available);
  }

  // ----- the issues -----

  /** The issue tells what control c of framework f claimed, that it became d, and why. */
  predicate Tells(issue: Issue, f: string, c: Control, d: Control) {
    && c.Control? && d.Control? && d.notes.Some? && Raw(d) != Raw(c)
    && issue == Issue(f, c.id, Raw(c), Raw(d), d.notes.value.rationale)
  }

  /** The issue reports control j of framework i. */
  ghost predicate Reports(issue: Issue, fs: seq<Framework>, out: seq<Framework>, i: int, j: int) {
    IsControl(fs, i, j) && IsControl(out, i, j) && Tells(issue, fs[i].id, ControlAt(fs, i, j), ControlAt(out, i, j))
  }

  lemma IssueTells(issue: Issue, f: string, c: Control, rule: Option<Rule>, available: set<string>)
    ensures issue in IssuesOf(f, c, rule, available) <==> Tells(issue, f, c, Annotate(c, rule, available))
  {
  }

  /** The j-th control gives rise to the issue. */
  predicate IssueAt(issue: Issue, f: string, cs: seq<Control>, rules: seq<Rule>, available: set<string>, j: int) {
    0 <= j < |cs| && issue in IssuesOf(f, cs[j], LastRule(rules, f, ControlId(cs[j])), available)
  }

  lemma {:induction false} IssueIsListed(issue: Issue, f: string, cs: seq<Control>, rules: seq<Rule>,
                                         available: set<string>, j: nat)
    requires IssueAt(issue, f, cs, rules, available, j)
    ensures issue in AllIssuesOf(f, cs, rules, available)
  {
    var before := cs[..|cs| - 1];
    if j < |before| {
      assert before[j] == cs[j];
      IssueIsListed(issue, f, before, rules, available, j);
    }
  }

  lemma {:induction false} ListedIssue(issue: Issue, f: string, cs: seq<Control>, rules: seq<Rule>,
                                       available: set<string>) returns (j: nat)
    requires issue in AllIssuesOf(f, cs, rules, available)
    ensures IssueAt(issue, f, cs, rules, available, j)
  {
    var before, n := cs[..|cs| - 1], |cs| - 1;
    if issue in AllIssuesOf(f, before, rules, available) {
      j := ListedIssue(issue, f, before, rules, available);
      assert before[j] == cs[j];
    } else {
      j := n;
    }
  }

  lemma {:induction false} IssueOfFrameworks(fs: seq<Framework>, rules: seq<Rule>, available: set<string>, issue: Issue)
    ensures issue in AllIssues(fs, rules, available) <==>
            exists i :: 0 <= i < |fs| && issue in FrameworkIssues(fs[i], rules, available)
  {
    if fs != [] {
      var before, last := fs[..|fs| - 1], fs[|fs| - 1];
      IssueOfFrameworks(before, rules, available, issue);
      assert forall i :: 0 <= i < |before| ==> fs[i] == before[i];
    }
  }

  lemma ReportsExactly(fs: seq<Framework>, rules: seq<Rule>, available: set<string>, issue: Issue, i: int, j: int)
    requires AllWellFormed(fs) && 0 <= i < |fs| && Validatable(fs[i])
    ensures Reports(issue, fs, ValidateAll(fs, rules, available), i, j) <==>
            IssueAt(issue, fs[i].id, fs[i].controls.value, rules, available, j)
  {
    if IsControl(fs, i, j) {
      OutputAt(fs, rules, available, i, j);
      var c := ControlAt(fs, i, j);
      IssueTells(issue, fs[i].id, c, LastRule(rules, fs[i].id, c.id), available);
    }
  }

  lemma FrameworkReports(fs: seq<Framework>, rules: seq<Rule>, available: set<string>, issue: Issue, i: int)
    requires AllWellFormed(fs) && 0 <= i < |fs|
    ensures issue in FrameworkIssues(fs[i], rules, available) <==>
            exists j :: Reports(issue, fs, ValidateAll(fs, rules, available), i, j)
  {
    if Validatable(fs[i]) {
      if issue in FrameworkIssues(fs[i], rules, available) {
        var j := ListedIssue(issue, fs[i].id, fs[i].controls.value, rules, available);
        ReportsExactly(fs, rules, available, issue, i, j);
      }
      if j :| Reports(issue, fs, ValidateAll(fs, rules, available), i, j) {
        ReportsExactly(fs, rules, available, issue, i, j);
        IssueIsListed(issue, fs[i].id, fs[i].controls.value, rules, available, j);
      }
    }
  }

  /** Exactly the controls whose status changed are reported, each with its old and new status and the reason. */
  lemma IssuesExactly(fs: seq<Framework>, rules: seq<Rule>, available: set<string>, issue: Issue)
    requires Validate(fs, rules, available).Ok?
    ensures var r := Validate(fs, rules, available).value;
            issue in r.issues <==> exists i, j :: Reports(issue, fs, r.frameworks, i, j)
  {
    IssueOfFrameworks(fs, rules, available, issue);
    forall i | 0 <= i < |fs|
      ensures issue in FrameworkIssues(fs[i], rules, available) <==>
              exists j :: Reports(issue, fs, ValidateAll(fs, rules, available), i, j)
    {
      FrameworkReports(fs, rules, available, issue, i);
    }
  }

  // ----- the hard block -----

  predicate Lowered(f: string, c: Control, rules: seq<Rule>, available: set<string>) {
    c.Control? && Raw(c) == Met && Validated(c, LastRule(rules, f, c.id), available) != Met
  }

  ghost predicate AnyLowered(f: string, cs: seq<Control>, rules: seq<Rule>, available: set<string>) {
    exists j :: 0 <= j < |cs| && Lowered(f, cs[j], rules, available)
  }

  lemma LowersConcat(a: seq<Issue>, b: seq<Issue>)
    ensures LowersMet(a + b) <==> LowersMet(a) || LowersMet(b)
  {
    if LowersMet(a) {
      var i :| 0 <= i < |a| && a[i].proofagentStatus == Met;
      assert (a + b)[i].proofagentStatus == Met;
    }
    if LowersMet(b) {
      var i :| 0 <= i < |b| && b[i].proofagentStatus == Met;
      assert (a + b)[|a| + i].proofagentStatus == Met;
    }
  }

  lemma {:induction false} ControlsLower(f: string, cs: seq<Control>, rules: seq<Rule>, available: set<string>)
    ensures LowersMet(AllIssuesOf(f, cs, rules, available)) <==> AnyLowered(f, cs, rules, available)
  {
    if cs != [] {
      var before, last := cs[..|cs| - 1], cs[|cs| - 1];
      ControlsLower(f, before, rules, available);
      var issues := IssuesOf(f, last, LastRule(rules, f, ControlId(last)), available);
      LowersConcat(AllIssuesOf(f, before, rules, available), issues);
      OneLowers(f, last, rules, available);
      AnyLoweredSnoc(f, cs, rules, available);
    }
  }

  lemma OneLowers(f: string, c: Control, rules: seq<Rule>, available: set<string>)
    ensures LowersMet(IssuesOf(f, c, LastRule(rules, f, ControlId(c)), available)) <==> Lowered(f, c, rules, available)
  {
    var issues := IssuesOf(f, c, LastRule(rules, f, ControlId(c)), available);
    if Lowered(f, c, rules, available) {
      assert issues[0].proofagentStatus == Met;
    }
  }

  lemma AnyLoweredSnoc(f: string, cs: seq<Control>, rules: seq<Rule>, available: set<string>)
    requires cs != []
    ensures AnyLowered(f, cs, rules, available) <==>
            AnyLowered(f, cs[..|cs| - 1], rules, available) || Lowered(f, cs[|cs| - 1], rules, available)
  {
    var before := cs[..|cs| - 1];
    if AnyLowered(f, before, rules, available) {
      var j :| 0 <= j < |before| && Lowered(f, before[j], rules, available);
      assert Lowered(f, cs[j], rules, available);
    }
    if AnyLowered(f, cs, rules, available) {
      var j :| 0 <= j < |cs| && Lowered(f, cs[j], rules, available);
      assert j < |before| ==> before[j] == cs[j];
    }
  }

  predicate LoweredAt(fs: seq<Framework>, i: int, j: int, rules: seq<Rule>, available: set<string>) {
    IsControl(fs, i, j) && Lowered(fs[i].id, ControlAt(fs, i, j), rules, available)
  }

  lemma AppendLowered(fs: seq<Framework>, last: Framework, rules: seq<Rule>, available: set<string>)
    requires (exists i, j :: LoweredAt(fs, i, j, rules, available))
             || (Validatable(last) && AnyLowered(last.id, last.controls.value, rules, available))
    ensures exists i, j :: LoweredAt(fs + [last], i, j, rules, available)
  {
    if i, j :| LoweredAt(fs, i, j, rules, available) {
      assert LoweredAt(fs + [last], i, j, rules, available);
    } else {
      var j :| 0 <= j < |last.controls.value| && Lowered(last.id, last.controls.value[j], rules, available);
      assert LoweredAt(fs + [last], |fs|, j, rules, available);
    }
  }

  lemma LoweredSplit(fs: seq<Framework>, last: Framework, rules: seq<Rule>, available: set<string>)
    requires exists i, j :: LoweredAt(fs + [last], i, j, rules, available)
    ensures (exists i, j :: LoweredAt(fs, i, j, rules, available))
            || (Validatable(last) && AnyLowered(last.id, last.controls.value, rules, available))
  {
    var i, j :| LoweredAt(fs + [last], i, j, rules, available);
    if i < |fs| {
      assert LoweredAt(fs, i, j, rules, available);
    } else {
      assert Lowered(last.id, last.controls.value[j], rules, available);
    }
  }

  lemma {:induction false} DocumentLowers(fs: seq<Framework>, rules: seq<Rule>, available: set<string>)
    ensures LowersMet(AllIssues(fs, rules, available)) <==> exists i, j :: LoweredAt(fs, i, j, rules, available)
  {
    if fs != [] {
      var before, last := fs[..|fs| - 1], fs[|fs| - 1];
      assert fs == before + [last];
      DocumentLowers(before, rules, available);
      LowersConcat(AllIssues(before, rules, available), FrameworkIssues(last, rules, available));
      if Validatable(last) {
        ControlsLower(last.id, last.controls.value, rules, available);
      }
      if LowersMet(AllIssues(fs, rules, available)) {
        AppendLowered(before, last, rules, available);
      }
      if i, j :| LoweredAt(fs, i, j, rules, available) {
        LoweredSplit(before, last, rules, available);
      }
    }
  }

  /** Control j of framework i claims "met" without being backed. */
  ghost predicate UnbackedMet(fs: seq<Framework>, i: int, j: int, rules: seq<Rule>, available: set<string>) {
    IsControl(fs, i, j) && Raw(ControlAt(fs, i, j)) == Met
        && !Backed(rules, fs[i].id, ControlAt(fs, i, j).id, available)
  }

  lemma LoweredExactly(fs: seq<Framework>, i: int, j: int, rules: seq<Rule>, available: set<string>)
    ensures LoweredAt(fs, i, j, rules, available) <==> UnbackedMet(fs, i, j, rules, available)
  {
    if IsControl(fs, i, j) {
      MetExactly(fs[i].id, ControlAt(fs, i, j), rules, available);
    }
  }

  /** The verdict is blocked exactly when some control claimed "met" without being backed. */
  lemma HardBlockExactly(fs: seq<Framework>, rules: seq<Rule>, available: set<string>)
    requires Validate(fs, rules, available).Ok?
    ensures Validate(fs, rules, available).value.hardBlock <==>
            exists i, j :: UnbackedMet(fs, i, j, rules, available)
  {
    DocumentLowers(fs, rules, available);
    forall i, j ensures LoweredAt(fs, i, j, rules, available) <==> UnbackedMet(fs, i, j, rules, available) {
      LoweredExactly(fs, i, j, rules, available);
    }
  }

  /** The only error: some validated list holds an entry that is not an object. */
  lemma FailsExactly(fs: seq<Framework>, rules: seq<Rule>, available: set<string>)
    ensures Validate(fs, rules, available).Err? <==>
            exists i, j :: 0 <= i < |fs| && Validatable(fs[i]) && 0 <= j < |fs[i].controls.value|
                           && fs[i].controls.value[j].NotAnObject?
  {
  }

  // ----- more evidence -----

  lemma CappedMonotone(raw: Status, ceiling: Ceiling, less: bool, more: bool, proof: string)
    requires less ==> more
    ensures var a, b := CappedStatus(raw, ceiling, less, proof), CappedStatus(raw, ceiling, more, proof);
            b == a || a == NotEvaluated
  {
  }

  lemma ValidatedMonotone(c: Control, rule: Option<Rule>, less: set<string>, more: set<string>)
    requires c.Control? && less <= more
    ensures Validated(c, rule, more) == Validated(c, rule, less) || Validated(c, rule, less) == NotEvaluated
  {
    CappedMonotone(Raw(c), CeilingOf(rule), Required(rule) <= less, Required(rule) <= more, c.proof);
  }

  /** With more evidence every status stays, or leaves "not_evaluated". */
  lemma EvidenceOnlyEvaluates(fs: seq<Framework>, rules: seq<Rule>, less: set<string>, more: set<string>, i: int,
                              j: int)
    requires less <= more && Validate(fs, rules, less).Ok? && IsControl(fs, i, j)
    ensures var a, b := Validate(fs, rules, less).value.frameworks, Validate(fs, rules, more).value.frameworks;
            && IsControl(a, i, j) && IsControl(b, i, j)
            && (Raw(ControlAt(b, i, j)) == Raw(ControlAt(a, i, j)) || Raw(ControlAt(a, i, j)) == NotEvaluated)
  {
    OutputAt(fs, rules, less, i, j);
    OutputAt(fs, rules, more, i, j);
    ValidatedMonotone(ControlAt(fs, i, j), LastRule(rules, fs[i].id, ControlAt(fs, i, j).id), less, more);
  }

  lemma BackedMonotone(rules: seq<Rule>, f: string, c: string, less: set<string>, more: set<string>)
    requires less <= more && Backed(rules, f, c, less)
    ensures Backed(rules, f, c, more)
  {
    var k :| Governs(rules, k, f, c) && rules[k].ceiling == UpToMet
             && forall e :: e in rules[k].requiredEvidence ==> e in less;
    assert forall e :: e in rules[k].requiredEvidence ==> e in more;
  }

  /** More evidence never introduces a block. */
  lemma EvidenceNeverBlocks(fs: seq<Framework>, rules: seq<Rule>, less: set<string>, more: set<string>)
    requires less <= more && Validate(fs, rules, less).Ok? && Validate(fs, rules, more).value.hardBlock
    ensures Validate(fs, rules, less).value.hardBlock
  {
    HardBlockExactly(fs, rules, less);
    HardBlockExactly(fs, rules, more);
    var i, j :| UnbackedMet(fs, i, j, rules, more);
    if Backed(rules, fs[i].id, ControlAt(fs, i, j).id, less) {
      BackedMonotone(rules, fs[i].id, ControlAt(fs, i, j).id, less, more);
    }
    assert UnbackedMet(fs, i, j, rules, less);
  }

  // ----- a second pass -----

  /** The recorded incoming status becomes the validated one. */
  function Confirm(c: Control): Control {
    if c.NotAnObject? || c.notes.None? then c
    else c.(notes := Some(c.notes.value.(proofagentStatus := Raw(c))))
  }

  lemma AnnotateTwice(c: Control, rule: Option<Rule>, available: set<string>)
    ensures var once := Annotate(c, rule, available);
            && Annotate(once, rule, available) == Confirm(once)
            && Annotate(Confirm(once), rule, available) == Confirm(once)
  {
  }

  lemma PassTwice(f: string, c: Control, rule: Option<Rule>, available: set<string>)
    ensures var once := Annotate(c, rule, available);
            && Annotate(once, rule, available) == Confirm(once)
            && Annotate(Confirm(once), rule, available) == Confirm(once)
            && IssuesOf(f, once, rule, available) == []
            && IssuesOf(f, Confirm(once), rule, available) == []
  {
    AnnotateTwice(c, rule, available);
  }

  /** Equal but for the recorded incoming statuses. */
  ghost predicate Confirmed(first: seq<Framework>, second: seq<Framework>) {
    |first| == |second| && forall i :: 0 <= i < |first| ==> ConfirmedFramework(first[i], second[i])
  }

  ghost predicate ConfirmedFramework(first: Framework, second: Framework) {
    if !Validatable(first) then second == first else
    && Validatable(second) && second.id == first.id && second.grade == first.grade
    && |second.controls.value| == |first.controls.value|
    && forall j :: 0 <= j < |first.controls.value| ==> second.controls.value[j] == Confirm(first.controls.value[j])
  }

  lemma {:induction false} SameTally(a: seq<Control>, b: seq<Control>)
    requires AllObjects(a) && AllObjects(b) && |a| == |b|
    requires forall i :: 0 <= i < |a| ==> Raw(a[i]) == Raw(b[i])
    ensures Tally(a) == Tally(b)
  {
    if a != [] {
      SameTally(a[..|a| - 1], b[..|b| - 1]);
    }
  }

  /** Every control is as validation leaves it. */
  ghost predicate Stable(f: string, cs: seq<Control>, rules: seq<Rule>, available: set<string>) {
    forall j :: 0 <= j < |cs| ==> Quiet(f, cs[j], rules, available)
  }

  predicate Quiet(f: string, c: Control, rules: seq<Rule>, available: set<string>) {
    IssuesOf(f, c, LastRule(rules, f, ControlId(c)), available) == []
  }

  lemma {:induction false} StableQuiet(f: string, cs: seq<Control>, rules: seq<Rule>, available: set<string>)
    requires Stable(f, cs, rules, available)
    ensures AllIssuesOf(f, cs, rules, available) == []
  {
    if cs != [] {
      StableQuiet(f, cs[..|cs| - 1], rules, available);
      assert Quiet(f, cs[|cs| - 1], rules, available);
    }
  }

  lemma FrameworkTwice(f: Framework, rules: seq<Rule>, available: set<string>)
    requires WellFormed(f)
    ensures var once := ValidateFramework(f, rules, available);
            && WellFormed(once)
            && ConfirmedFramework(once, ValidateFramework(once, rules, available))
            && FrameworkIssues(once, rules, available) == []
            && FrameworkCounts(once, rules, available) == FrameworkCounts(f, rules, available)
  {
    if Validatable(f) {
      var cs := f.controls.value;
      var once := AnnotateAll(f.id, cs, rules, available);
      var twice := AnnotateAll(f.id, once, rules, available);
      forall j | 0 <= j < |cs|
        ensures once[j].Control? && twice[j] == Confirm(once[j]) && Quiet(f.id, once[j], rules, available)
      {
        PassTwice(f.id, cs[j], LastRule(rules, f.id, ControlId(cs[j])), available);
      }
      SameTally(once, twice);
      StableQuiet(f.id, once, rules, available);
    }
  }

  lemma {:induction false} DocumentTwice(fs: seq<Framework>, rules: seq<Rule>, available: set<string>)
    requires AllWellFormed(fs)
    ensures var once := ValidateAll(fs, rules, available);
            && AllWellFormed(once)
            && Confirmed(once, ValidateAll(once, rules, available))
            && AllIssues(once, rules, available) == []
            && AllCounts(once, rules, available) == AllCounts(fs, rules, available)
  {
    var once := ValidateAll(fs, rules, available);
    forall i | 0 <= i < |fs| ensures WellFormed(once[i]) {
      FrameworkTwice(fs[i], rules, available);
    }
    if fs != [] {
      DocumentTwice(fs[..|fs| - 1], rules, available);
      assert once[..|once| - 1] == ValidateAll(fs[..|fs| - 1], rules, available);
      FrameworkTwice(fs[|fs| - 1], rules, available);
    }
    forall i | 0 <= i < |fs| ensures ConfirmedFramework(once[i], ValidateAll(once, rules, available)[i]) {
      FrameworkTwice(fs[i], rules, available);
    }
  }

  /**
   * A second pass reports nothing and changes no status, grade or total; all it does is overwrite
   * the recorded incoming status by the validated one.
   */
  lemma SecondPassChangesNothing(fs: seq<Framework>, rules: seq<Rule>, available: set<string>)
    requires Validate(fs, rules, available).Ok?
    ensures var first := Validate(fs, rules, available).value;
            var again := Validate(first.frameworks, rules, available);
            && again.Ok?
            && Confirmed(first.frameworks, again.value.frameworks)
            && again.value == first.(frameworks := again.value.frameworks, issues := [], hardBlock := false)
  {
    DocumentTwice(fs, rules, available);
  }

  lemma {:induction false} QuietStable(f: string, cs: seq<Control>, rules: seq<Rule>, available: set<string>)
    requires AllIssuesOf(f, cs, rules, available) == []
    ensures Stable(f, cs, rules, available)
  {
    if cs != [] {
      QuietStable(f, cs[..|cs| - 1], rules, available);
      forall j | 0 <= j < |cs| ensures Quiet(f, cs[j], rules, available) {
        assert j < |cs| - 1 ==> cs[..|cs| - 1][j] == cs[j];
      }
    }
  }

  lemma UnchangedControl(f: string, c: Control, rules: seq<Rule>, available: set<string>)
    ensures var once := Annotate(c, LastRule(rules, f, ControlId(c)), available);
            Confirm(once) == once <==> Quiet(f, c, rules, available)
  {
  }

  /** The governing rule leaves the control the status it came with. */
  predicate KeepsStatus(f: string, c: Control, rules: seq<Rule>, available: set<string>) {
    c.Control? ==> Validated(c, LastRule(rules, f, c.id), available) == Raw(c)
  }

  ghost predicate FrameworkAsCame(f: Framework, rules: seq<Rule>, available: set<string>) {
    Validatable(f) ==>
      forall j :: 0 <= j < |f.controls.value| ==> KeepsStatus(f.id, f.controls.value[j], rules, available)
  }

  /** Every listed control of every validatable framework keeps the status it came with. */
  ghost predicate AsCame(fs: seq<Framework>, rules: seq<Rule>, available: set<string>) {
    forall i :: 0 <= i < |fs| ==> FrameworkAsCame(fs[i], rules, available)
  }

  lemma QuietExactly(f: string, c: Control, rules: seq<Rule>, available: set<string>)
    ensures Quiet(f, c, rules, available) <==> KeepsStatus(f, c, rules, available)
  {
  }

  lemma UnchangedFramework(f: Framework, rules: seq<Rule>, available: set<string>)
    requires WellFormed(f)
    ensures var once := ValidateFramework(f, rules, available);
            && WellFormed(once)
            && (ValidateFramework(once, rules, available) == once <==> FrameworkAsCame(f, rules, available))
  {
    FrameworkTwice(f, rules, available);
    if Validatable(f) {
      var cs := f.controls.value;
      var once := AnnotateAll(f.id, cs, rules, available);
      var twice := AnnotateAll(f.id, once, rules, available);
      forall j | 0 <= j < |cs| ensures twice[j] == once[j] <==> KeepsStatus(f.id, cs[j], rules, available) {
        PassTwice(f.id, cs[j], LastRule(rules, f.id, ControlId(cs[j])), available);
        UnchangedControl(f.id, cs[j], rules, available);
        QuietExactly(f.id, cs[j], rules, available);
      }
      SameControls(once, twice, f.id, cs, rules, available);
    }
  }

  lemma SameControls(once: seq<Control>, twice: seq<Control>, f: string, cs: seq<Control>, rules: seq<Rule>,
                     available: set<string>)
    requires |once| == |twice| == |cs|
    requires forall j :: 0 <= j < |cs| ==> (twice[j] == once[j] <==> KeepsStatus(f, cs[j], rules, available))
    ensures twice == once <==> forall j :: 0 <= j < |cs| ==> KeepsStatus(f, cs[j], rules, available)
  {
  }

  /** The two outputs coincide exactly when every control keeps the status it came with. */
  lemma SecondPassIdenticalExactly(fs: seq<Framework>, rules: seq<Rule>, available: set<string>)
    requires AllWellFormed(fs)
    ensures var once := ValidateAll(fs, rules, available);
            && AllWellFormed(once)
            && (ValidateAll(once, rules, available) == once <==> AsCame(fs, rules, available))
  {
    var once := ValidateAll(fs, rules, available);
    forall i | 0 <= i < |fs|
      ensures WellFormed(once[i])
      ensures ValidateFramework(once[i], rules, available) == once[i] <==> FrameworkAsCame(fs[i], rules, available)
    {
      UnchangedFramework(fs[i], rules, available);
    }
    var twice := ValidateAll(once, rules, available);
    assert forall i :: 0 <= i < |fs| ==> twice[i] == ValidateFramework(once[i], rules, available);
  }

  /** That is also exactly when the first pass reports nothing. */
  lemma {:induction false} ReportsNothingExactly(fs: seq<Framework>, rules: seq<Rule>, available: set<string>)
    ensures AllIssues(fs, rules, available) == [] <==> AsCame(fs, rules, available)
  {
    if fs != [] {
      var before, last := fs[..|fs| - 1], fs[|fs| - 1];
      assert fs == before + [last];
      ReportsNothingExactly(before, rules, available);
      FrameworkReportsNothing(last, rules, available);
      assert AsCame(fs, rules, available) <==>
          AsCame(before, rules, available) && FrameworkAsCame(last, rules, available);
    }
  }

  lemma FrameworkReportsNothing(f: Framework, rules: seq<Rule>, available: set<string>)
    ensures FrameworkIssues(f, rules, available) == [] <==> FrameworkAsCame(f, rules, available)
  {
    if Validatable(f) {
      var cs := f.controls.value;
      forall j | 0 <= j < |cs|
        ensures Quiet(f.id, cs[j], rules, available) <==> KeepsStatus(f.id, cs[j], rules, available)
      {
        QuietExactly(f.id, cs[j], rules, available);
      }
      if AllIssuesOf(f.id, cs, rules, available) == [] {
        QuietStable(f.id, cs, rules, available);
        assert forall j :: 0 <= j < |cs| ==> Quiet(f.id, cs[j], rules, available);
      }
      if FrameworkAsCame(f, rules, available) {
        StableQuiet(f.id, cs, rules, available);
      }
    }
  }

  /** A document whose only control claims "met" without any rule. */
  const UNBACKED: seq<Framework> := [Framework("f", Some([Control("c", Some(Met), "", None)]), None)]

  lemma UnbackedIsLowered()
    ensures AllWellFormed(UNBACKED) && !AsCame(UNBACKED, [], {})
  {
    var c := UNBACKED[0].controls.value[0];
    assert LastRule([], "f", "c") == None;
    assert Validated(c, None, {}) == NotEvaluated;
    assert !KeepsStatus("f", c, [], {});
    assert !FrameworkAsCame(UNBACKED[0], [], {});
  }

  /** On it the second output differs from the first. */
  lemma SecondPassCanDiffer()
    ensures exists fs, rules, available :: AllWellFormed(fs) && Differs(fs, rules, available)
  {
    UnbackedIsLowered();
    SecondPassIdenticalExactly(UNBACKED, [], {});
    assert Differs(UNBACKED, [], {});
  }

  ghost predicate Differs(fs: seq<Framework>, rules: seq<Rule>, available: set<string>)
    requires AllWellFormed(fs)
  {
    var once := ValidateAll(fs, rules, available);
    AllWellFormed(once) && ValidateAll(once, rules, available) != once
  }

  // ----- totals and scores -----

  function ControlsOf(f: Framework): seq<Control> {
    if Validatable(f) then f.controls.value else []
  }

  function AllControls(fs: seq<Framework>): seq<Control> {
    if fs == [] then [] else AllControls(fs[..|fs| - 1]) + ControlsOf(fs[|fs| - 1])
  }

  function WithStatus(s: Status): Control -> bool {
    (c: Control) => c.Control? && Raw(c) == s
  }

  function CountOf(cs: seq<Control>, s: Status): nat {
    |Filter(cs, WithStatus(s))|
  }

  lemma {:induction false} TallyCounts(cs: seq<Control>)
    requires AllObjects(cs)
    ensures Tally(cs) == StatusCounts(cs)
  {
    if cs != [] {
      var before, last := cs[..|cs| - 1], cs[|cs| - 1];
      TallyCounts(before);
      assert cs == before + [last];
      CountSnoc(before, last, Met);
      CountSnoc(before, last, Partial);
      CountSnoc(before, last, Attention);
      CountSnoc(before, last, NotEvaluated);
    }
  }

  lemma CountSnoc(cs: seq<Control>, c: Control, s: Status)
    requires c.Control?
    ensures CountOf(cs + [c], s) == CountOf(cs, s) + if Raw(c) == s then 1 else 0
  {
    FilterConcat(cs, [c], WithStatus(s));
    assert [c][1..] == [];
    assert WithStatus(s)(c) <==> Raw(c) == s;
  }

  lemma CountConcat(a: seq<Control>, b: seq<Control>, s: Status)
    ensures CountOf(a + b, s) == CountOf(a, s) + CountOf(b, s)
  {
    FilterConcat(a, b, WithStatus(s));
  }

  function StatusCounts(cs: seq<Control>): Counts {
    Counts(CountOf(cs, Met), CountOf(cs, Partial), CountOf(cs, Attention), CountOf(cs, NotEvaluated))
  }

  lemma StatusCountsConcat(a: seq<Control>, b: seq<Control>)
    ensures StatusCounts(a + b) == Add(StatusCounts(a), StatusCounts(b))
  {
    CountConcat(a, b, Met);
    CountConcat(a, b, Partial);
    CountConcat(a, b, Attention);
    CountConcat(a, b, NotEvaluated);
  }

  lemma FrameworkCount(f: Framework, rules: seq<Rule>, available: set<string>)
    requires WellFormed(f)
    ensures FrameworkCounts(f, rules, available) == StatusCounts(ControlsOf(ValidateFramework(f, rules, available)))
  {
    if Validatable(f) {
      AnnotatedObjects(f.id, f.controls.value, rules, available);
      TallyCounts(AnnotateAll(f.id, f.controls.value, rules, available));
    }
  }

  lemma {:induction false} TotalsCount(fs: seq<Framework>, rules: seq<Rule>, available: set<string>)
    requires AllWellFormed(fs)
    ensures AllCounts(fs, rules, available) == StatusCounts(AllControls(ValidateAll(fs, rules, available)))
  {
    if fs != [] {
      var out, before := ValidateAll(fs, rules, available), ValidateAll(fs[..|fs| - 1], rules, available);
      TotalsCount(fs[..|fs| - 1], rules, available);
      assert out[..|out| - 1] == before;
      FrameworkCount(fs[|fs| - 1], rules, available);
      StatusCountsConcat(AllControls(before), ControlsOf(out[|out| - 1]));
    }
  }

  /** A score is there when some control was assessed; it rates "met" full and "partial" half, rounded. */
  ghost predicate Rates(score: Option<int>, scale: nat, cs: seq<Control>) {
    var met, partial, assessed := CountOf(cs, Met), CountOf(cs, Partial), AssessedOf(cs);
    && (score.None? <==> assessed == 0)
    && (score.Some? ==> Nearest(score.value, scale * (100 * met + 50 * partial), assessed))
  }

  function AssessedOf(cs: seq<Control>): nat {
    CountOf(cs, Met) + CountOf(cs, Partial) + CountOf(cs, Attention)
  }

  lemma ScoreRates(c: Counts, scale: nat, cs: seq<Control>)
    requires c == StatusCounts(cs)
    ensures Rates(Score(c, scale), scale, cs) && Assessed(c) == AssessedOf(cs)
  {
    ScoreNearest(c, scale);
  }

  /** The totals count the controls of the validated document, and the score rates them in tenths of a percent. */
  lemma TotalsCountControls(fs: seq<Framework>, rules: seq<Rule>, available: set<string>)
    requires Validate(fs, rules, available).Ok?
    ensures var out := Validate(fs, rules, available).value;
            var cs := AllControls(out.frameworks);
            && out.assessedControls == CountOf(cs, Met) + CountOf(cs, Partial) + CountOf(cs, Attention)
            && out.totalControls == out.assessedControls + CountOf(cs, NotEvaluated)
            && Rates(out.score, 10, cs)
  {
    TotalsCount(fs, rules, available);
    ScoreRates(AllCounts(fs, rules, available), 10, AllControls(ValidateAll(fs, rules, available)));
  }

  /** r is a whole number nearest to n / d, and the even one of two. */
  predicate Nearest(r: int, n: int, d: int) {
    && 2 * n - d <= 2 * (r * d) <= 2 * n + d
    && (2 * n - d == 2 * (r * d) || 2 * (r * d) == 2 * n + d ==> r % 2 == 0)
  }

  lemma RoundedIsNearest(n: nat, d: nat)
    requires d > 0
    ensures Nearest(RoundedRatio(n, d), n, d)
  {
    var q := n / d;
    assert n == q * d + n % d;
    assert (q + 1) * d == q * d + d;
  }

  lemma ScoreNearest(c: Counts, scale: nat)
    ensures Score(c, scale).None? <==> c.met + c.partial + c.attention == 0
    ensures Score(c, scale).Some? ==>
              Nearest(Score(c, scale).value, scale * (100 * c.met + 50 * c.partial), c.met + c.partial + c.attention)
  {
    if Assessed(c) > 0 {
      RoundedIsNearest(scale * (100 * c.met + 50 * c.partial), Assessed(c));
    }
  }

  lemma FrameworkGrades(fs: seq<Framework>, rules: seq<Rule>, available: set<string>, i: nat)
    requires Validate(fs, rules, available).Ok? && i < |fs| && Validatable(fs[i])
    ensures var f := Validate(fs, rules, available).value.frameworks[i];
            && Validatable(f) && f.grade.Some? && Graded(f.grade.value, f.controls.value)
  {
    var f := ValidateAll(fs, rules, available)[i];
    AnnotatedObjects(fs[i].id, fs[i].controls.value, rules, available);
    GradeRates(f.controls.value);
  }

  ghost predicate Graded(grade: Grade, cs: seq<Control>) {
    && grade.listed == |cs| && grade.counts == StatusCounts(cs) && grade.assessed == AssessedOf(cs)
    && grade.assessed + CountOf(cs, NotEvaluated) <= grade.listed
    && Rates(grade.score, 1, cs) && (grade.score.Some? ==> 0 <= grade.score.value <= 100)
  }

  lemma GradeRates(cs: seq<Control>)
    requires AllObjects(cs)
    ensures Graded(GradeOf(cs), cs)
  {
    TallyCounts(cs);
    TallyBounded(cs);
    ScoreRates(Tally(cs), 1, cs);
    ScoreInRange(Tally(cs), 1);
  }

  lemma {:induction false} TallyBounded(cs: seq<Control>)
    requires AllObjects(cs)
    ensures Assessed(Tally(cs)) + Tally(cs).notEvaluated <= |cs|
  {
    if cs != [] {
      TallyBounded(cs[..|cs| - 1]);
    }
  }

  lemma QuotientBound(n: nat, d: nat, bound: nat)
    requires d > 0 && n <= bound * d
    ensures n / d <= bound && (n / d == bound ==> n % d == 0)
  {
    var slack := bound * d - n;
    assert n == n / d * d + n % d;
    assert (bound - n / d) * d == slack + n % d;
    NegativeProduct(bound - n / d, d);
  }

  lemma NegativeProduct(x: int, d: int)
    requires d > 0
    ensures x < 0 ==> x * d <= -d
    ensures x == 0 ==> x * d == 0
  {
    if x < 0 {
      assert (-x - 1) * d >= 0;
    }
  }

  lemma RoundedBelow(n: nat, d: nat, bound: nat)
    requires d > 0 && n <= bound * d
    ensures RoundedRatio(n, d) <= bound
  {
    QuotientBound(n, d, bound);
  }

  lemma ScoreInRange(c: Counts, scale: nat)
    ensures Score(c, scale).Some? ==> 0 <= Score(c, scale).value <= 100 * scale
  {
    if Assessed(c) > 0 {
      var n := 100 * c.met + 50 * c.partial;
      assert n <= 100 * Assessed(c);
      assert scale * n <= scale * (100 * Assessed(c)) == (100 * scale) * Assessed(c);
      RoundedBelow(scale * n, Assessed(c), 100 * scale);
    }
  }

  /** The overall score, in tenths of a percent, lies between 0 and 100 percent. */
  lemma OverallScoreInRange(fs: seq<Framework>, rules: seq<Rule>, available: set<string>)
    requires Validate(fs, rules, available).Ok?
    ensures var score := Validate(fs, rules, available).value.score; score.Some? ==> 0 <= score.value <= 1000
  {
    ScoreInRange(AllCounts(fs, rules, available), 10);
  }
}
