/** Capping the compliance verdicts of a language model by declared evidence. */
module Compliance {
  import opened Prelude

  /** A status text that is none of the four known ones. */
  type OtherText = s: string | s !in {"met", "partial", "attention", "not_evaluated", ""}
    witness "unknown"

  datatype Status = Met | Partial | Attention | NotEvaluated | Other(text: OtherText)
  datatype Ceiling = UpToMet | UpToPartial | Nothing

  datatype Rule = Rule(frameworkId: string, controlId: string, ceiling: Ceiling, requiredEvidence: seq<string>,
                       rationale: string)

  /** The annotations are absent until a control has been validated; its evidence lists are sets. */
  datatype Notes = Notes(proofagentStatus: Status, rationale: string, evidence: set<string>, missing: set<string>)

  /** An entry of a control list that is not an object is `NotAnObject`. */
  datatype Control =
    | Control(id: string, status: Option<Status>, proof: string, notes: Option<Notes>)
    | NotAnObject

  datatype Counts = Counts(met: nat, partial: nat, attention: nat, notEvaluated: nat)

  /** Score, and the assessed and listed controls of the coverage label. */
  datatype Grade = Grade(counts: Counts, score: Option<int>, assessed: nat, listed: nat)

  /** `controls` is None when that field is not a list. */
  datatype Framework =
    | Framework(id: string, controls: Option<seq<Control>>, grade: Option<Grade>)
    | NotAFramework

  datatype Issue = Issue(frameworkId: string, controlId: string, proofagentStatus: Status, validatedStatus: Status,
                         reason: string)

  datatype Validation = Validation(
    frameworks: seq<Framework>, issues: seq<Issue>, hardBlock: bool,
    score: Option<int>, assessedControls: nat, totalControls: nat)

  datatype Error = ControlIsNotAnObject
  datatype Result<T> = Ok(value: T) | Err(error: Error)

  // ----- available evidence -----

  datatype Check = Check(status: string, checkId: string) | NotACheck

  datatype Sources = Sources(documents: seq<string>, runtime: map<string, bool>, checks: seq<Check>)

  function Available(s: Sources): set<string> {
    (set d | d in s.documents && d != "" :: "document:" + d)
    + (set k | k in s.runtime && s.runtime[k] :: "runtime:" + k)
    + (set c | c in s.checks && c.Check? && c.status == "implemented_and_approved" :: "readiness:" + c.checkId)
  }

  method AvailableEvidence(s: Sources) returns (values: set<string>)
    ensures values == Available(s)
  {
    values := (set d | d in s.documents && d != "" :: "document:" + d);
    values := values + (set k | k in s.runtime && s.runtime[k] :: "runtime:" + k);
    ghost var before := values;
    for i := 0 to |s.checks|
      invariant values == before
        + (set c | c in s.checks[..i] && c.Check? && c.status == "implemented_and_approved" :: "readiness:" + c.checkId)
    {
      assert s.checks[..i + 1] == s.checks[..i] + [s.checks[i]];
      var check := s.checks[i];
      if check.Check? && check.status == "implemented_and_approved" {
        values := values + {"readiness:" + check.checkId};
      }
    }
    assert s.checks[..|s.checks|] == s.checks;
  }

  // ----- one control -----

  function CappedStatus(raw: Status, ceiling: Ceiling, complete: bool, proof: string): Status {
    if raw == NotEvaluated then raw
    else if raw == Attention then (if complete && !IsBlank(proof) then raw else NotEvaluated)
    else if !complete || ceiling == Nothing then NotEvaluated
    else if raw == Met && ceiling == UpToPartial then Partial
    else raw
  }

  /** Later rules replace earlier ones for the same control. */
  function LastRule(rules: seq<Rule>, f: string, c: string): Option<Rule> {
    if rules == [] then None
    else
      var last := rules[|rules| - 1];
      if last.frameworkId == f && last.controlId == c then Some(last) else LastRule(rules[..|rules| - 1], f, c)
  }

  function Required(rule: Option<Rule>): set<string> {
    match rule case None => {} case Some(r) => set e | e in r.requiredEvidence
  }

  function CeilingOf(rule: Option<Rule>): Ceiling {
    match rule case None => Nothing case Some(r) => r.ceiling
  }

  function RationaleOf(rule: Option<Rule>): string {
    match rule case None => "No AMLGuard evidence-validation rule exists for this control." case Some(r) => r.rationale
  }

  function Raw(c: Control): Status
    requires c.Control?
  {
    match c.status case None => NotEvaluated case Some(s) => s
  }

  function Validated(c: Control, rule: Option<Rule>, available: set<string>): Status
    requires c.Control?
  {
    CappedStatus(Raw(c), CeilingOf(rule), Required(rule) <= available, c.proof)
  }

  function Annotate(c: Control, rule: Option<Rule>, available: set<string>): Control {
    if c.NotAnObject? then c else
    c.(status := Some(Validated(c, rule, available)),
       notes := Some(Notes(Raw(c), RationaleOf(rule), Required(rule) * available, Required(rule) - available)))
  }

  function IssuesOf(f: string, c: Control, rule: Option<Rule>, available: set<string>): seq<Issue> {
    if c.NotAnObject? || Validated(c, rule, available) == Raw(c) then []
    else [Issue(f, c.id, Raw(c), Validated(c, rule, available), RationaleOf(rule))]
  }

  // ----- one framework -----

  function ControlId(c: Control): string {
    match c case NotAnObject => "" case Control(id, _, _, _) => id
  }

  function AnnotateAll(f: string, cs: seq<Control>, rules: seq<Rule>, available: set<string>): (r: seq<Control>)
    ensures |r| == |cs|
    ensures forall i :: 0 <= i < |cs| ==> r[i] == Annotate(cs[i], LastRule(rules, f, ControlId(cs[i])), available)
  {
    if cs == [] then [] else
      var last := cs[|cs| - 1];
      AnnotateAll(f, cs[..|cs| - 1], rules, available)
          + [Annotate(last, LastRule(rules, f, ControlId(last)), available)]
  }

  function AllIssuesOf(f: string, cs: seq<Control>, rules: seq<Rule>, available: set<string>): seq<Issue> {
    if cs == [] then [] else
      var last := cs[|cs| - 1];
      AllIssuesOf(f, cs[..|cs| - 1], rules, available)
          + IssuesOf(f, last, LastRule(rules, f, ControlId(last)), available)
  }

  const Zero := Counts(0, 0, 0, 0)

  function Add(a: Counts, b: Counts): Counts {
    Counts(a.met + b.met, a.partial + b.partial, a.attention + b.attention, a.notEvaluated + b.notEvaluated)
  }

  function One(s: Status): Counts {
    match s
    case Met => Counts(1, 0, 0, 0)
    case Partial => Counts(0, 1, 0, 0)
    case Attention => Counts(0, 0, 1, 0)
    case NotEvaluated => Counts(0, 0, 0, 1)
    case Other(_) => Zero
  }

  predicate AllObjects(cs: seq<Control>) {
    forall i :: 0 <= i < |cs| ==> cs[i].Control?
  }

  function Tally(cs: seq<Control>): Counts
    requires AllObjects(cs)
  {
    if cs == [] then Zero else Add(Tally(cs[..|cs| - 1]), One(Raw(cs[|cs| - 1])))
  }

  function Assessed(c: Counts): nat {
    c.met + c.partial + c.attention
  }

  /** n / d rounded to the nearest integer, ties to even. */
  function RoundedRatio(n: nat, d: nat): (r: nat)
    requires d > 0
  {
    var q, rest := n / d, n % d;
    if 2 * rest < d || (2 * rest == d && q % 2 == 0) then q else q + 1
  }

  /** The score in units of 1 / scale: percentages for a framework, tenths of them overall. */
  function Score(c: Counts, scale: nat): Option<int> {
    if Assessed(c) == 0 then None else Some(RoundedRatio(scale * (100 * c.met + 50 * c.partial), Assessed(c)))
  }

  function GradeOf(cs: seq<Control>): Grade
    requires AllObjects(cs)
  {
    Grade(Tally(cs), Score(Tally(cs), 1), Assessed(Tally(cs)), |cs|)
  }

  predicate Validatable(f: Framework) {
    f.Framework? && f.controls.Some?
  }

  predicate WellFormed(f: Framework) {
    Validatable(f) ==> AllObjects(f.controls.value)
  }

  function ValidateFramework(f: Framework, rules: seq<Rule>, available: set<string>): Framework
    requires WellFormed(f)
  {
    if !Validatable(f) then f else
    var controls := AnnotateAll(f.id, f.controls.value, rules, available);
    f.(controls := Some(controls), grade := Some(GradeOf(controls)))
  }

  function FrameworkIssues(f: Framework, rules: seq<Rule>, available: set<string>): seq<Issue> {
    if !Validatable(f) then [] else AllIssuesOf(f.id, f.controls.value, rules, available)
  }

  function FrameworkCounts(f: Framework, rules: seq<Rule>, available: set<string>): Counts
    requires WellFormed(f)
  {
    if !Validatable(f) then Zero else Tally(AnnotateAll(f.id, f.controls.value, rules, available))
  }

  // ----- the whole document -----

  predicate AllWellFormed(fs: seq<Framework>) {
    forall i :: 0 <= i < |fs| ==> WellFormed(fs[i])
  }

  function ValidateAll(fs: seq<Framework>, rules: seq<Rule>, available: set<string>): (r: seq<Framework>)
    requires AllWellFormed(fs)
    ensures |r| == |fs|
    ensures forall i :: 0 <= i < |fs| ==> r[i] == ValidateFramework(fs[i], rules, available)
  {
    if fs == [] then [] else
      ValidateAll(fs[..|fs| - 1], rules, available) + [ValidateFramework(fs[|fs| - 1], rules, available)]
  }

  function AllIssues(fs: seq<Framework>, rules: seq<Rule>, available: set<string>): seq<Issue> {
    if fs == [] then [] else
      AllIssues(fs[..|fs| - 1], rules, available) + FrameworkIssues(fs[|fs| - 1], rules, available)
  }

  function AllCounts(fs: seq<Framework>, rules: seq<Rule>, available: set<string>): Counts
    requires AllWellFormed(fs)
  {
    if fs == [] then Zero else
      Add(AllCounts(fs[..|fs| - 1], rules, available), FrameworkCounts(fs[|fs| - 1], rules, available))
  }

  predicate LowersMet(issues: seq<Issue>) {
    exists i :: 0 <= i < |issues| && issues[i].proofagentStatus == Met
  }

  function Summary(frameworks: seq<Framework>, issues: seq<Issue>, totals: Counts): Validation {
    Validation(frameworks, issues, LowersMet(issues), Score(totals, 10),
               Assessed(totals), Assessed(totals) + totals.notEvaluated)
  }

  function Validate(fs: seq<Framework>, rules: seq<Rule>, available: set<string>): Result<Validation> {
    if !AllWellFormed(fs) then Err(ControlIsNotAnObject) else
    Ok(Summary(ValidateAll(fs, rules, available), AllIssues(fs, rules, available), AllCounts(fs, rules, available)))
  }

  // ----- the program -----

  method IndexRules(rules: seq<Rule>) returns (index: map<(string, string), Rule>)
    ensures forall f, c :: Find(index, f, c) == LastRule(rules, f, c)
  {
    index := map[];
    for i := 0 to |rules|
      invariant forall f, c :: Find(index, f, c) == LastRule(rules[..i], f, c)
    {
      assert rules[..i + 1] == rules[..i] + [rules[i]];
      index := index[(rules[i].frameworkId, rules[i].controlId) := rules[i]];
    }
    assert rules[..|rules|] == rules;
  }

  function Find(index: map<(string, string), Rule>, f: string, c: string): Option<Rule> {
    if (f, c) in index then Some(index[(f, c)]) else None
  }

  method CountStatuses(cs: seq<Control>) returns (r: Option<Counts>)
    ensures r == if AllObjects(cs) then Some(Tally(cs)) else None
  {
    var counts := Zero;
    for i := 0 to |cs|
      invariant AllObjects(cs[..i]) && counts == Tally(cs[..i])
    {
      assert cs[..i + 1][..i] == cs[..i];
      if cs[i].NotAnObject? { return None; }
      counts := Add(counts, One(Raw(cs[i])));
    }
    assert cs[..|cs|] == cs;
    r := Some(counts);
  }

  lemma AnnotateStep(f: string, cs: seq<Control>, i: nat, rules: seq<Rule>, available: set<string>)
    requires i < |cs|
    ensures var rule := LastRule(rules, f, ControlId(cs[i]));
            && AnnotateAll(f, cs[..i + 1], rules, available)
               == AnnotateAll(f, cs[..i], rules, available) + [Annotate(cs[i], rule, available)]
            && AllIssuesOf(f, cs[..i + 1], rules, available)
               == AllIssuesOf(f, cs[..i], rules, available) + IssuesOf(f, cs[i], rule, available)
  {
    assert cs[..i + 1][..i] == cs[..i];
  }

  /** One round of the loop: the next control is replaced, and an issue added when its status changes. */
  lemma ControlStep(f: string, cs: seq<Control>, i: nat, rules: seq<Rule>, available: set<string>)
    requires i < |cs|
    ensures var done, rule := AnnotateAll(f, cs[..i], rules, available) + cs[i..], LastRule(rules, f, ControlId(cs[i]));
            && done[i] == cs[i]
            && AnnotateAll(f, cs[..i + 1], rules, available) + cs[i + 1..]
               == done[i := Annotate(cs[i], rule, available)]
            && AllIssuesOf(f, cs[..i + 1], rules, available)
               == AllIssuesOf(f, cs[..i], rules, available) + IssuesOf(f, cs[i], rule, available)
  {
    AnnotateStep(f, cs, i, rules, available);
    ReplaceNext(AnnotateAll(f, cs[..i], rules, available), cs, i,
                Annotate(cs[i], LastRule(rules, f, ControlId(cs[i])), available));
  }

  method ValidateControls(f: string, cs: seq<Control>, index: map<(string, string), Rule>, ghost rules: seq<Rule>,
                          available: set<string>)
    returns (controls: seq<Control>, issues: seq<Issue>)
    requires forall c :: Find(index, f, c) == LastRule(rules, f, c)
    ensures controls == AnnotateAll(f, cs, rules, available)
    ensures issues == AllIssuesOf(f, cs, rules, available)
  {
    controls, issues := cs, [];
    for i := 0 to |cs|
      invariant controls == AnnotateAll(f, cs[..i], rules, available) + cs[i..]
      invariant issues == AllIssuesOf(f, cs[..i], rules, available)
    {
      ControlStep(f, cs, i, rules, available);
      var control := controls[i];
      if control.Control? {
        var rule := Find(index, f, control.id);
        var raw, validated := Raw(control), Validated(control, rule, available);
        controls := controls[i := Annotate(control, rule, available)];
        if validated != raw {
          issues := issues + [Issue(f, control.id, raw, validated, RationaleOf(rule))];
        }
      }
    }
    assert cs[..|cs|] == cs && cs[|cs|..] == [];
  }

  lemma FrameworkStep(fs: seq<Framework>, i: nat, rules: seq<Rule>, available: set<string>)
    requires i < |fs| && AllWellFormed(fs[..i]) && WellFormed(fs[i])
    ensures AllWellFormed(fs[..i + 1])
    ensures ValidateAll(fs[..i + 1], rules, available)
            == ValidateAll(fs[..i], rules, available) + [ValidateFramework(fs[i], rules, available)]
    ensures AllIssues(fs[..i + 1], rules, available)
            == AllIssues(fs[..i], rules, available) + FrameworkIssues(fs[i], rules, available)
    ensures AllCounts(fs[..i + 1], rules, available)
            == Add(AllCounts(fs[..i], rules, available), FrameworkCounts(fs[i], rules, available))
  {
    assert fs[..i + 1][..i] == fs[..i];
  }

  lemma AnnotatedObjects(f: string, cs: seq<Control>, rules: seq<Rule>, available: set<string>)
    ensures AllObjects(AnnotateAll(f, cs, rules, available)) <==> AllObjects(cs)
  {
    var r := AnnotateAll(f, cs, rules, available);
    assert forall i :: 0 <= i < |cs| ==> (r[i].Control? <==> cs[i].Control?);
  }

  method ValidateOne(f: Framework, index: map<(string, string), Rule>, ghost rules: seq<Rule>, available: set<string>)
    returns (r: Option<(Framework, seq<Issue>, Counts)>)
    requires forall f, c :: Find(index, f, c) == LastRule(rules, f, c)
    ensures r == if WellFormed(f)
                 then Some((ValidateFramework(f, rules, available), FrameworkIssues(f, rules, available),
                            FrameworkCounts(f, rules, available)))
                 else None
  {
    if !Validatable(f) { return Some((f, [], Zero)); }
    var controls, issues := ValidateControls(f.id, f.controls.value, index, rules, available);
    AnnotatedObjects(f.id, f.controls.value, rules, available);
    var counts := CountStatuses(controls);
    if counts.None? { return None; }
    var grade := Grade(counts.value, Score(counts.value, 1), Assessed(counts.value), |controls|);
    r := Some((f.(controls := Some(controls), grade := Some(grade)), issues, counts.value));
  }

  method ValidateCompliance(compliance: seq<Framework>, rules: seq<Rule>, sources: Sources)
    returns (r: Result<Validation>)
    ensures r == Validate(compliance, rules, Available(sources))
  {
    var result := compliance;
    var index := IndexRules(rules);
    var available := AvailableEvidence(sources);
    var issues, totals := [], Zero;
    for i := 0 to |compliance|
      invariant AllWellFormed(compliance[..i])
      invariant result == ValidateAll(compliance[..i], rules, available) + compliance[i..]
      invariant issues == AllIssues(compliance[..i], rules, available)
      invariant totals == AllCounts(compliance[..i], rules, available)
    {
      assert result[i] == compliance[i];
      var validated := ValidateOne(result[i], index, rules, available);
      if validated.None? {
        assert !WellFormed(compliance[i]);
        return Err(ControlIsNotAnObject);
      }
      var (framework, found, counts) := validated.value;
      ReplaceNext(ValidateAll(compliance[..i], rules, available), compliance, i, framework);
      FrameworkStep(compliance, i, rules, available);
      result := result[i := framework];
      issues := issues + found;
      totals := Add(totals, counts);
    }
    assert compliance[..|compliance|] == compliance && compliance[|compliance|..] == [];
    assert result == ValidateAll(compliance, rules, available);
    r := Ok(Summary(result, issues, totals));
  }
}
