/** The policies of a waiting case were selected from its evidence, and an information round can rely on it. */
module InformationRounds {
  import opened Prelude
  import opened CaseModel
  import opened CaseRepository
  import opened InvestigationGraph
  import opened InvestigationStages
  import opened InvestigationProtocol
  import PA = PolicyApplicability
  import PS = PolicySelection

  /** The policies are those selected from the evidence, for some query. */
  ghost predicate Chosen(cp: Checkpoint, select: PS.Selector) {
    exists words :: ChosenBy(cp, words, select)
  }

  predicate ChosenBy(cp: Checkpoint, words: set<string>, select: PS.Selector) {
    select(cp.evidence, words).Ok?
    && cp.policies == ChunksOf(select(cp.evidence, words).value.matches)
  }

  lemma RetrievedChosen(l: Local, evidence: seq<PA.Item>, stage: Stage, select: PS.Selector, q: Retrieval)
    ensures Retrieved(l, evidence, stage, select, q).cp.status == FAILED
            || Chosen(Retrieved(l, evidence, stage, select, q).cp, select)
  {
    var r := Retrieved(l, evidence, stage, select, q);
    assert r.cp.status == FAILED || ChosenBy(r.cp, q.words, select);
  }

  lemma DraftKeepsChoice(l: Local, d: Drafting, executions: seq<Execution>, select: PS.Selector)
    requires Chosen(l.cp, select)
    ensures Chosen(DraftAndValidate(l, d, executions).cp, select)
  {
    var words :| ChosenBy(l.cp, words, select);
    assert ChosenBy(DraftAndValidate(l, d, executions).cp, words, select);
  }

  ghost predicate ChosenWhileWaiting(l: Local, select: PS.Selector) {
    Waiting(l.c.status) ==> Chosen(l.cp, select)
  }

  lemma RunChooses(l: Local, env: Environment, q: Retrieval, d: Drafting, executions: seq<Execution>)
    requires Clear(l) && NoneProhibited(executions)
    ensures ChosenWhileWaiting(Run(l, env, q, d, executions), env.select)
  {
    LoadKeeps(l, env, q);
    var running := l.(c := l.c.(status := RUNNING));
    var loaded := Load(l, env.bank, env.select, q);
    if loaded.cp.status != FAILED {
      var evidence := ReadAll(env.bank, AuthOf(l.cp), l.cp.alertId).items.value;
      RetrievedChosen(running, evidence, LOAD_AND_RETRIEVE, env.select, q);
      DraftKeepsChoice(loaded, d, executions, env.select);
    }
  }

  lemma ReviewKeepsChoice(l: Local, payload: Payload, fault: Fault)
    ensures HumanReview(l, payload, fault).cp.evidence == l.cp.evidence
    ensures HumanReview(l, payload, fault).cp.policies == l.cp.policies
  {
  }

  lemma ResumeChooses(l: Local, payload: Payload, env: Environment, q: Retrieval, fault: Fault, d: Drafting,
                      executions: seq<Execution>)
    requires Quiescent(l) && l.c.status != HARD_BLOCKED && NoneProhibited(executions)
             && ChosenWhileWaiting(l, env.select)
    requires payload.OfReview? ==> ValidReview(payload.review)
    ensures ChosenWhileWaiting(Resume(l, payload, env, q, fault, d, executions), env.select)
  {
    if l.cp.pc == AtInformation {
      CollectKeeps(l, payload, env, q);
      var collected := Collect(l, payload, env, q);
      if collected.cp.status != FAILED {
        RetrievedChosen(l.(c := l.c.(status := RUNNING)),
                        l.cp.evidence + [Supplement(env.uuid5, l.cp, payload.submission)],
                        COLLECT_INFORMATION, env.select, q);
        DraftKeepsChoice(collected, d, executions, env.select);
      }
    } else if l.cp.pc == AtReview {
      HumanReviewKeeps(l, payload, fault);
      ReviewKeepsChoice(l, payload, fault);
      var reviewed := HumanReview(l, payload, fault);
      var words :| ChosenBy(l.cp, words, env.select);
      assert ChosenBy(reviewed.cp, words, env.select);
      if reviewed.cp.status == REWORK_REQUIRED {
        DraftKeepsChoice(reviewed, d, executions, env.select);
      }
    }
  }

  ghost predicate AllChosen(s: System, select: PS.Selector) {
    forall id :: id in s.cases && id in s.threads ==> ChosenWhileWaiting(At(s, id), select)
  }

  lemma RunCaseChooses(s: System, c: CaseData, actorId: string, env: Environment, q: Retrieval, d: Drafting)
    requires Sound(s) && AllChosen(s, env.select) && Reviewed(c)
    ensures AllChosen(RunCase(s, c, actorId, env, q, d), env.select)
  {
    var l := Local(c, Input(c, actorId, Earlier(s, c.caseId)));
    var executions := s.executions + ReadAll(env.bank, AuthOf(l.cp), c.alertId).executions;
    ReadAllIsSafe(env.bank, AuthOf(l.cp), c.alertId);
    InputIsClear(c, actorId, Earlier(s, c.caseId));
    RunChooses(l, env, q, d, executions);
    PutChosen(s, c.caseId, Run(l, env, q, d, executions), env.select);
  }

  lemma PutChosen(s: System, id: nat, l: Local, select: PS.Selector)
    requires AllChosen(s, select) && ChosenWhileWaiting(l, select)
    ensures AllChosen(Put(s, id, l), select)
  {
    forall k | k in Put(s, id, l).cases && k in Put(s, id, l).threads
      ensures ChosenWhileWaiting(At(Put(s, id, l), k), select)
    {
      if k != id {
        assert ChosenWhileWaiting(At(s, k), select);
      }
    }
  }

  lemma StartChooses(s: System, env: Environment, a: Action)
    requires Sound(s) && AllChosen(s, env.select) && a.Start? && Legal(s, a)
    ensures AllChosen(Step(s, env, a), env.select)
  {
    var created := Created(s.cases, env.bank, a.alertId, a.tenantId, a.actorId, a.id);
    if created.Ok? {
      var c := created.value.0;
      if !created.value.1 {
        assert QuiescentAt(s, Existing(s.cases, a.alertId, a.tenantId).value);
      }
      if created.value.1 || (a.rerunFailed && c.status == FAILED) {
        RunCaseChooses(s, c, a.actorId, env, a.q, a.d);
      }
    }
  }

  lemma ResumedChoose(s: System, env: Environment, id: nat, payload: Payload, q: Retrieval, fault: Fault, d: Drafting)
    requires Sound(s) && AllChosen(s, env.select) && id in s.cases && s.cases[id].status != HARD_BLOCKED
    requires payload.OfReview? ==> ValidReview(payload.review)
    ensures id in s.threads
    ensures AllChosen(Put(s, id, Resume(At(s, id), payload, env, q, fault, d, s.executions)), env.select)
  {
    assert QuiescentAt(s, id);
    ResumeChooses(At(s, id), payload, env, q, fault, d, s.executions);
    PutChosen(s, id, Resume(At(s, id), payload, env, q, fault, d, s.executions), env.select);
  }

  lemma StepChooses(s: System, env: Environment, a: Action)
    requires Sound(s) && AllChosen(s, env.select) && Legal(s, a)
    ensures AllChosen(Step(s, env, a), env.select)
  {
    match a
    case Start(_, _, _, _, _, _, _) => StartChooses(s, env, a);
    case ReviewCase(id, review, q, fault, d) =>
      if AcceptsReview(s, id, review) {
        ResumedChoose(s, env, id, OfReview(review), q, fault, d);
      }
    case SupplyInformation(id, submission, q, d) =>
      if AcceptsInformation(s, id) {
        ResumedChoose(s, env, id, OfSubmission(submission), q, NoFault, d);
      }
    case AssignReviewer(id, reviewerId) =>
      if id in s.cases && id in s.threads {
        assert ChosenWhileWaiting(At(s, id), env.select);
      }
    case Reset(_, _) =>
    case RecordSecurityEvent(_, _, _) =>
  }

  lemma {:induction false} RunsStayChosen(env: Environment, actions: seq<Action>)
    requires LegalRun(env, actions)
    ensures AllChosen(Reached(env, actions), env.select)
  {
    if actions != [] {
      var before := actions[..|actions| - 1];
      forall i | 0 <= i < |before| ensures Legal(Reached(env, before[..i]), before[i]) {
        assert before[..i] == actions[..i];
      }
      RunsStayChosen(env, before);
      RunsStaySound(env, before);
      assert actions[..|actions| - 1] == before;
      StepChooses(Reached(env, before), env, actions[|actions| - 1]);
    }
  }

  lemma SelectsAgain(cp: Checkpoint, submission: Submission, setup: PS.Policies, env: Environment, q: Retrieval)
    requires env.select == PS.Selecting(setup) && Chosen(cp, env.select)
    requires "purpose" in submission.information ==> !IsBlank(submission.information["purpose"])
    ensures env.select(cp.evidence + [Supplement(env.uuid5, cp, submission)], q.words).Ok?
  {
    var words :| ChosenBy(cp, words, env.select);
    PS.ReselectionNarrows(cp.evidence, Supplement(env.uuid5, cp, submission), words, q.words, setup);
  }

  /** The round appended its evidence and ends as the model's new answer asks, as the next version. */
  ghost predicate RoundEnds(before: Local, after: Local, submission: Submission, env: Environment, d: Drafting) {
    && after.cp.evidence == before.cp.evidence + [Supplement(env.uuid5, before.cp, submission)]
    && EndsFor(after, d.recommendation) && after.c.version == before.c.version + 1
    && after.c.reviews == before.c.reviews
  }

  lemma CollectSucceeds(l: Local, submission: Submission, env: Environment, q: Retrieval)
    requires q.fault == NoFault && env.select(l.cp.evidence + [Supplement(env.uuid5, l.cp, submission)], q.words).Ok?
    ensures var r := Collect(l, OfSubmission(submission), env, q);
            && r.cp.status == RUNNING && r.c.version == l.c.version && r.c.reviews == l.c.reviews
            && r.cp.evidence == l.cp.evidence + [Supplement(env.uuid5, l.cp, submission)]
  {
  }

  lemma RoundSucceeds(l: Local, submission: Submission, env: Environment, q: Retrieval, d: Drafting,
                      executions: seq<Execution>)
    requires Quiescent(l) && l.c.status == WAITING_FOR_INFORMATION && NoneProhibited(executions)
    requires q.fault == NoFault && d.draftFault == NoFault && d.validateFault == NoFault
    requires env.select(l.cp.evidence + [Supplement(env.uuid5, l.cp, submission)], q.words).Ok?
    ensures RoundEnds(l, Resume(l, OfSubmission(submission), env, q, NoFault, d, executions), submission, env, d)
  {
    CollectSucceeds(l, submission, env, q);
    var collected := Collect(l, OfSubmission(submission), env, q);
    CollectKeeps(l, OfSubmission(submission), env, q);
    DraftEnds(collected, d, executions);
  }

  lemma RoundStep(s: System, env: Environment, id: nat, submission: Submission, q: Retrieval, d: Drafting)
    requires QuiescentAt(s, id) && NoneProhibited(s.executions) && s.cases[id].status == WAITING_FOR_INFORMATION
    requires q.fault == NoFault && d.draftFault == NoFault && d.validateFault == NoFault
    requires env.select(s.threads[id].evidence + [Supplement(env.uuid5, s.threads[id], submission)], q.words).Ok?
    ensures var t := Step(s, env, SupplyInformation(id, submission, q, d));
            id in t.cases && id in t.threads && RoundEnds(At(s, id), At(t, id), submission, env, d)
  {
    RoundSucceeds(At(s, id), submission, env, q, d, s.executions);
  }

  /**
   * In any reachable system, an information round without faults succeeds unless it blanks the
   * purpose: the policies can be selected again, and the case then waits again or is hard blocked,
   * depending only on whether the new draft is grounded.
   */
  lemma InformationRoundSucceeds(setup: PS.Policies, env: Environment, actions: seq<Action>, id: nat,
                                 submission: Submission, q: Retrieval, d: Drafting)
    requires LegalRun(env, actions) && env.select == PS.Selecting(setup)
    requires id in Reached(env, actions).cases && Reached(env, actions).cases[id].status == WAITING_FOR_INFORMATION
    requires q.fault == NoFault && d.draftFault == NoFault && d.validateFault == NoFault
    requires "purpose" in submission.information ==> !IsBlank(submission.information["purpose"])
    ensures id in Reached(env, actions).threads
    ensures var s := Reached(env, actions);
            var t := Step(s, env, SupplyInformation(id, submission, q, d));
            id in t.cases && id in t.threads && RoundEnds(At(s, id), At(t, id), submission, env, d)
  {
    var s := Reached(env, actions);
    RunsStaySound(env, actions);
    RunsStayChosen(env, actions);
    assert QuiescentAt(s, id) && ChosenWhileWaiting(At(s, id), env.select);
    SelectsAgain(s.threads[id], submission, setup, env, q);
    RoundStep(s, env, id, submission, q, d);
  }
}
