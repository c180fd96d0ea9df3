/** Approved, dated policy retrieval: mapped rules first, then ranked keyword matches. */
module PolicyRetrieval {
  import opened Prelude

  /** `words` is the set of words of the chunk's id, provision, text and topics. */
  datatype Chunk = Chunk(
    policyId: string, jurisdiction: string, approved: bool,
    effectiveFrom: Option<int>, effectiveTo: Option<int>, words: set<string>)

  datatype Rule = Rule(policyId: string, stage: string, rationale: string, whenAll: seq<string>, whenAny: seq<string>)

  datatype Mapping = Mapping(alertRuleId: string, always: seq<Rule>, conditional: seq<Rule>)

  /** The score is overlap / max(1, |words of the query|), the same denominator for every chunk. */
  datatype Scored = Scored(chunk: Chunk, overlap: nat)

  datatype Reason = AlertMapping | ConditionalMapping | ContextualKeyword

  /**
   * A mapped match has score 1, whatever its overlap: `overlap` is then None. The explanation is the
   * rationale of its rule, or None for the fixed text of contextual matches.
   */
  datatype Match = Match(chunk: Chunk, overlap: Option<nat>, reason: Reason, stage: Option<string>,
                         matchedFacts: seq<string>, explanation: Option<string>)

  datatype Error =
    | DuplicateAlertRules
    | UnknownPolicies(ids: set<string>)
    | LimitOutOfRange
    | NoMapping(alertRuleId: string)
    | LimitTooSmall(limit: int, needed: nat)

  datatype Result<T> = Ok(value: T) | Err(error: Error)

  datatype Index = Index(chunks: seq<Chunk>, mappings: map<string, Mapping>)

  // ----- ranking -----

  /** Lexicographic order by character code. */
  predicate StringLeq(a: string, b: string) {
    a == [] || (b != [] && (a[0] < b[0] || (a[0] == b[0] && StringLeq(a[1..], b[1..]))))
  }

  /** Higher overlap first, then smaller id. */
  predicate Before(x: Scored, y: Scored) {
    x.overlap > y.overlap || (x.overlap == y.overlap && StringLeq(x.chunk.policyId, y.chunk.policyId))
  }

  function ByRank(): (Scored, Scored) -> bool {
    (x: Scored, y: Scored) => Before(x, y)
  }

  datatype Scope = Scope(jurisdiction: string, asOf: int)

  predicate Eligible(c: Chunk, scope: Scope) {
    && c.approved
    && c.jurisdiction in {scope.jurisdiction, "EU", "INTL"}
    && (c.effectiveFrom.Some? ==> c.effectiveFrom.value <= scope.asOf)
    && (c.effectiveTo.Some? ==> c.effectiveTo.value >= scope.asOf)
  }

  function IsEligible(scope: Scope): Chunk -> bool {
    (c: Chunk) => Eligible(c, scope)
  }

  function Overlap(c: Chunk, words: set<string>): nat {
    |c.words * words|
  }

  /** The chunks that share a word with the query. */
  function Scores(chunks: seq<Chunk>, words: set<string>): seq<Scored> {
    if chunks == [] then [] else
      var c := chunks[|chunks| - 1];
      Scores(chunks[..|chunks| - 1], words) + if Overlap(c, words) == 0 then [] else [Scored(c, Overlap(c, words))]
  }

  /** Every eligible chunk with a positive score, best first. */
  function Ranking(chunks: seq<Chunk>, words: set<string>, scope: Scope): seq<Scored> {
    Sort(Scores(Filter(chunks, IsEligible(scope)), words), ByRank())
  }

  function Take<T>(s: seq<T>, n: nat): seq<T> {
    if |s| <= n then s else s[..n]
  }

  method Search(chunks: seq<Chunk>, words: set<string>, scope: Scope, limit: int) returns (r: Result<seq<Scored>>)
    ensures r == if 1 <= limit <= 20 then Ok(Take(Ranking(chunks, words, scope), limit)) else Err(LimitOutOfRange)
  {
    if !(1 <= limit <= 20) { return Err(LimitOutOfRange); }
    var eligible := Filter(chunks, IsEligible(scope));
    var scored := [];
    for i := 0 to |eligible|
      invariant scored == Scores(eligible[..i], words)
    {
      assert eligible[..i + 1][..i] == eligible[..i];
      var score := |eligible[i].words * words|;
      if score != 0 {
        scored := scored + [Scored(eligible[i], score)];
      }
    }
    assert eligible[..|eligible|] == eligible;
    r := Ok(Take(Sort(scored, ByRank()), limit));
  }

  // ----- mapped rules -----

  predicate Applies(rule: Rule, facts: set<string>) {
    && (forall f :: f in rule.whenAll ==> f in facts)
    && (rule.whenAny == [] || exists f :: f in rule.whenAny && f in facts)
  }

  function IsApplicable(facts: set<string>): Rule -> bool {
    (rule: Rule) => Applies(rule, facts)
  }

  function SelectedRules(m: Mapping, facts: set<string>): seq<Rule> {
    m.always + Filter(m.conditional, IsApplicable(facts))
  }

  /** The last eligible chunk with the id. */
  function EligibleChunk(chunks: seq<Chunk>, scope: Scope, id: string): (r: Option<Chunk>)
    ensures r.Some? ==> r.value in chunks && Eligible(r.value, scope) && r.value.policyId == id
  {
    if chunks == [] then None else
      var last := chunks[|chunks| - 1];
      if last.policyId == id && Eligible(last, scope) then Some(last)
      else EligibleChunk(chunks[..|chunks| - 1], scope, id)
  }

  function HasEligible(chunks: seq<Chunk>, scope: Scope): Rule -> bool {
    (rule: Rule) => EligibleChunk(chunks, scope, rule.policyId).Some?
  }

  function EligibleRules(chunks: seq<Chunk>, m: Mapping, facts: set<string>, scope: Scope): seq<Rule> {
    Filter(SelectedRules(m, facts), HasEligible(chunks, scope))
  }

  function RuleIds(rules: seq<Rule>): set<string> {
    set r | r in rules :: r.policyId
  }

  function InFacts(facts: set<string>): string -> bool {
    (f: string) => f in facts
  }

  function MappedMatch(rule: Rule, chunk: Chunk, always: set<string>, facts: set<string>): Match {
    Match(chunk, None, if rule.policyId in always then AlertMapping else ConditionalMapping,
          Some(rule.stage), rule.whenAll + Filter(rule.whenAny, InFacts(facts)), Some(rule.rationale))
  }

  function ContextualMatch(s: Scored): Match {
    Match(s.chunk, Some(s.overlap), ContextualKeyword, None, [], None)
  }

  function MappedMatches(chunks: seq<Chunk>, scope: Scope, rules: seq<Rule>, always: set<string>,
                         facts: set<string>): (r: seq<Match>)
    requires forall x :: x in rules ==> HasEligible(chunks, scope)(x)
    ensures |r| == |rules|
    ensures forall i :: 0 <= i < |rules| ==>
              rules[i] in rules && HasEligible(chunks, scope)(rules[i])
                  && r[i] == MappedMatch(rules[i], EligibleChunk(chunks, scope, rules[i].policyId).value, always, facts)
  {
    if rules == [] then [] else
      var last := rules[|rules| - 1];
      assert last in rules && HasEligible(chunks, scope)(last);
      MappedMatches(chunks, scope, rules[..|rules| - 1], always, facts)
      + [MappedMatch(last, EligibleChunk(chunks, scope, last.policyId).value, always, facts)]
  }

  function ContextualMatches(s: seq<Scored>): (r: seq<Match>)
    ensures |r| == |s|
    ensures forall i :: 0 <= i < |s| ==> r[i] == ContextualMatch(s[i])
  {
    if s == [] then [] else ContextualMatches(s[..|s| - 1]) + [ContextualMatch(s[|s| - 1])]
  }

  function Unmapped(ids: set<string>): Scored -> bool {
    (s: Scored) => s.chunk.policyId !in ids
  }

  /** What the search runs: the ranking is cut to twenty before the mapped policies are dropped. */
  function CutThenFilter(ranking: seq<Scored>, ids: set<string>, room: nat): seq<Scored> {
    Take(Filter(Take(ranking, 20), Unmapped(ids)), room)
  }

  /** What is meant: the best unmapped chunks of the whole ranking. */
  function BestUnmapped(ranking: seq<Scored>, ids: set<string>, room: nat): seq<Scored> {
    Take(Filter(ranking, Unmapped(ids)), room)
  }

  datatype Request = Request(words: set<string>, alertRuleId: string, scope: Scope, facts: set<string>, limit: int)

  function SearchForAlertSpec(index: Index, q: Request): Result<seq<Match>> {
    if !(1 <= q.limit <= 20) then Err(LimitOutOfRange)
    else if q.alertRuleId !in index.mappings then Err(NoMapping(q.alertRuleId))
    else
      var m := index.mappings[q.alertRuleId];
      var rules := EligibleRules(index.chunks, m, q.facts, q.scope);
      if q.limit < |rules| then Err(LimitTooSmall(q.limit, |rules|))
      else Ok(MappedMatches(index.chunks, q.scope, rules, RuleIds(m.always), q.facts)
              + ContextualMatches(CutThenFilter(Ranking(index.chunks, q.words, q.scope), RuleIds(rules),
                                                q.limit - |rules|)))
  }

  method MatchRules(ghost chunks: seq<Chunk>, ghost scope: Scope, eligible: map<string, Chunk>, rules: seq<Rule>,
                    always: set<string>, facts: set<string>)
    returns (mapped: seq<Match>)
    requires forall id :: (if id in eligible then Some(eligible[id]) else None) == EligibleChunk(chunks, scope, id)
    requires forall x :: x in rules ==> HasEligible(chunks, scope)(x)
    ensures mapped == MappedMatches(chunks, scope, rules, always, facts)
  {
    mapped := [];
    for i := 0 to |rules|
      invariant mapped == MappedMatches(chunks, scope, rules[..i], always, facts)
    {
      assert rules[..i + 1][..i] == rules[..i];
      assert rules[i] in rules && HasEligible(chunks, scope)(rules[i]);
      mapped := mapped + [MappedMatch(rules[i], eligible[rules[i].policyId], always, facts)];
    }
    assert rules[..|rules|] == rules;
  }

  method SearchForAlert(index: Index, q: Request) returns (r: Result<seq<Match>>)
    ensures r == SearchForAlertSpec(index, q)
  {
    if !(1 <= q.limit <= 20) { return Err(LimitOutOfRange); }
    if q.alertRuleId !in index.mappings { return Err(NoMapping(q.alertRuleId)); }
    var m := index.mappings[q.alertRuleId];
    var selected := SelectedRules(m, q.facts);
    var eligible := EligibleById(index.chunks, q.scope);
    var eligibleRules := Filter(selected, (rule: Rule) => rule.policyId in eligible);
    SameFilter(selected, (rule: Rule) => rule.policyId in eligible, HasEligible(index.chunks, q.scope));
    if q.limit < |eligibleRules| { return Err(LimitTooSmall(q.limit, |eligibleRules|)); }
    var mapped := MatchRules(index.chunks, q.scope, eligible, eligibleRules, RuleIds(m.always), q.facts);
    var mappedIds := set x | x in mapped :: x.chunk.policyId;
    MappedIds(index.chunks, q.scope, eligibleRules, RuleIds(m.always), q.facts);
    var found := Search(index.chunks, q.words, q.scope, 20);
    var contextual := Filter(found.value, Unmapped(mappedIds));
    r := Ok(mapped + ContextualMatches(Take(contextual, q.limit - |mapped|)));
  }

  method EligibleById(chunks: seq<Chunk>, scope: Scope) returns (eligible: map<string, Chunk>)
    ensures forall id :: (if id in eligible then Some(eligible[id]) else None) == EligibleChunk(chunks, scope, id)
  {
    eligible := map[];
    for i := 0 to |chunks|
      invariant forall id ::
                (if id in eligible then Some(eligible[id]) else None) == EligibleChunk(chunks[..i], scope, id)
    {
      assert chunks[..i + 1][..i] == chunks[..i];
      if Eligible(chunks[i], scope) {
        eligible := eligible[chunks[i].policyId := chunks[i]];
      }
    }
    assert chunks[..|chunks|] == chunks;
  }

  lemma {:induction false} SameFilter<T(!new)>(s: seq<T>, p: T -> bool, q: T -> bool)
    requires forall x :: x in s ==> p(x) == q(x)
    ensures Filter(s, p) == Filter(s, q)
  {
    if s != [] {
      SameFilter(s[1..], p, q);
    }
  }

  lemma MappedIds(chunks: seq<Chunk>, scope: Scope, rules: seq<Rule>, always: set<string>, facts: set<string>)
    requires forall x :: x in rules ==> HasEligible(chunks, scope)(x)
    ensures (set x | x in MappedMatches(chunks, scope, rules, always, facts) :: x.chunk.policyId) == RuleIds(rules)
  {
    var matches := MappedMatches(chunks, scope, rules, always, facts);
    var ids := set x | x in matches :: x.chunk.policyId;
    forall i | 0 <= i < |rules| ensures matches[i].chunk.policyId == rules[i].policyId {
      assert rules[i] in rules;
    }
    forall id | id in RuleIds(rules) ensures id in ids {
      var i :| 0 <= i < |rules| && rules[i].policyId == id;
      assert matches[i] in matches;
    }
    forall id | id in ids ensures id in RuleIds(rules) {
      var i :| 0 <= i < |matches| && matches[i].chunk.policyId == id;
      assert rules[i] in rules;
    }
  }

  // ----- construction and citations -----

  predicate DistinctRuleIds(ms: seq<Mapping>) {
    forall i, j :: 0 <= i < j < |ms| ==> ms[i].alertRuleId != ms[j].alertRuleId
  }

  function ReferencedIds(ms: seq<Mapping>): set<string> {
    set m, r | m in ms && r in m.always + m.conditional :: r.policyId
  }

  function ChunkIds(chunks: seq<Chunk>): set<string> {
    set c | c in chunks :: c.policyId
  }

  function ById(ms: seq<Mapping>): (r: map<string, Mapping>)
    ensures forall i :: 0 <= i < |ms| ==> ms[i].alertRuleId in r
  {
    if ms == [] then map[] else ById(ms[..|ms| - 1])[ms[|ms| - 1].alertRuleId := ms[|ms| - 1]]
  }

  /** Two mappings of one alert rule, or a rule for a policy that does not exist, are refused. */
  method MakeIndex(chunks: seq<Chunk>, mappings: seq<Mapping>) returns (r: Result<Index>)
    ensures r == if !DistinctRuleIds(mappings) then Err(DuplicateAlertRules)
                 else if ReferencedIds(mappings) <= ChunkIds(chunks) then Ok(Index(chunks, ById(mappings)))
                 else Err(UnknownPolicies(ReferencedIds(mappings) - ChunkIds(chunks)))
  {
    var byId: map<string, Mapping> := map[];
    for i := 0 to |mappings|
      invariant byId == ById(mappings[..i])
    {
      assert mappings[..i + 1][..i] == mappings[..i];
      byId := byId[mappings[i].alertRuleId := mappings[i]];
    }
    assert mappings[..|mappings|] == mappings;
    ByIdSize(mappings);
    if |byId| != |mappings| { return Err(DuplicateAlertRules); }
    var unknown := ReferencedIds(mappings) - ChunkIds(chunks);
    if !(ReferencedIds(mappings) <= ChunkIds(chunks)) { return Err(UnknownPolicies(unknown)); }
    r := Ok(Index(chunks, byId));
  }

  lemma {:induction false} ByIdSize(ms: seq<Mapping>)
    ensures |ById(ms)| <= |ms| && (|ById(ms)| == |ms| <==> DistinctRuleIds(ms))
    ensures forall id :: id in ById(ms) <==> exists i :: 0 <= i < |ms| && ms[i].alertRuleId == id
  {
    if ms != [] {
      var before, last := ms[..|ms| - 1], ms[|ms| - 1];
      ByIdSize(before);
      forall id | id in ById(ms) ensures exists i :: 0 <= i < |ms| && ms[i].alertRuleId == id {
        if id == last.alertRuleId {
          assert ms[|ms| - 1].alertRuleId == id;
        } else {
          var i :| 0 <= i < |before| && before[i].alertRuleId == id;
          assert ms[i].alertRuleId == id;
        }
      }
      if last.alertRuleId in ById(before) {
        var i :| 0 <= i < |before| && before[i].alertRuleId == last.alertRuleId;
        assert ms[i].alertRuleId == ms[|ms| - 1].alertRuleId;
      } else {
        assert DistinctRuleIds(before) ==> DistinctRuleIds(ms) by {
          forall i | 0 <= i < |before| ensures ms[i].alertRuleId != last.alertRuleId {
            assert before[i].alertRuleId in ById(before);
          }
        }
      }
      assert DistinctRuleIds(ms) ==> DistinctRuleIds(before);
    }
  }

  /** The cited ids that were not retrieved; the program lists them in ascending order. */
  function UnknownCitations(cited: seq<string>, retrieved: seq<Chunk>): set<string> {
    (set id | id in cited) - ChunkIds(retrieved)
  }
}
