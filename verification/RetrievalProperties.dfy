/** What the two-part policy search returns, whatever the order of the corpus. */
module RetrievalProperties {
  import opened Prelude
  import opened PolicyRetrieval

  // ----- the order of the ranking -----

  lemma {:induction false} StringOrder(a: string, b: string)
    ensures StringLeq(a, b) || StringLeq(b, a)
    ensures StringLeq(a, b) && StringLeq(b, a) ==> a == b
  {
    if a != [] && b != [] {
      StringOrder(a[1..], b[1..]);
      assert a == [a[0]] + a[1..] && b == [b[0]] + b[1..];
    }
  }

  lemma {:induction false} StringTransitive(a: string, b: string, c: string)
    requires StringLeq(a, b) && StringLeq(b, c)
    ensures StringLeq(a, c)
  {
    if a != [] && a[0] == b[0] == c[0] {
      StringTransitive(a[1..], b[1..], c[1..]);
    }
  }

  /** The order of Python's strings: a prefix, or smaller in the first place where they differ. */
  ghost predicate InCodeOrder(a: string, b: string) {
    exists k: nat :: SplitsAt(a, b, k)
  }

  predicate SplitsAt(a: string, b: string, k: nat) {
    k <= |a| && k <= |b| && a[..k] == b[..k] && (k == |a| || (k < |b| && a[k] < b[k]))
  }

  lemma {:induction false} StringLeqMeans(a: string, b: string)
    ensures StringLeq(a, b) <==> InCodeOrder(a, b)
  {
    if a == [] {
      assert SplitsAt(a, b, 0);
    } else if b != [] {
      StringLeqMeans(a[1..], b[1..]);
      if a[0] < b[0] {
        assert SplitsAt(a, b, 0);
      } else if a[0] == b[0] {
        SplitLater(a, b);
      }
    }
  }

  lemma SplitLater(a: string, b: string)
    requires a != [] && b != [] && a[0] == b[0]
    ensures InCodeOrder(a, b) <==> InCodeOrder(a[1..], b[1..])
  {
    if k: nat :| SplitsAt(a[1..], b[1..], k) {
      assert a[..k + 1] == [a[0]] + a[1..][..k] && b[..k + 1] == [b[0]] + b[1..][..k];
      assert SplitsAt(a, b, k + 1);
    }
    if k: nat :| SplitsAt(a, b, k) {
      assert k > 0 && a[1..][..k - 1] == a[..k][1..] && b[1..][..k - 1] == b[..k][1..];
      assert SplitsAt(a[1..], b[1..], k - 1);
    }
  }

  lemma RankIsOrder()
    ensures TotalPreorder(ByRank())
  {
    forall x: Scored, y: Scored ensures ByRank()(x, y) || ByRank()(y, x) {
      StringOrder(x.chunk.policyId, y.chunk.policyId);
    }
    forall x: Scored, y: Scored, z: Scored | ByRank()(x, y) && ByRank()(y, z) ensures ByRank()(x, z) {
      if x.overlap == y.overlap == z.overlap {
        StringTransitive(x.chunk.policyId, y.chunk.policyId, z.chunk.policyId);
      }
    }
  }

  /** x is an eligible chunk together with its positive overlap. */
  predicate Genuine(x: Scored, words: set<string>, scope: Scope) {
    Eligible(x.chunk, scope) && x.overlap == Overlap(x.chunk, words) && x.overlap > 0
  }

  lemma LastScore(c: Chunk, words: set<string>, x: Scored)
    ensures multiset(if Overlap(c, words) == 0 then [] else [Scored(c, Overlap(c, words))])[x] ==
            if x.overlap == Overlap(x.chunk, words) && x.overlap > 0 && c == x.chunk then 1 else 0
  {
  }

  lemma {:induction false} ScoresCount(chunks: seq<Chunk>, words: set<string>, x: Scored)
    ensures multiset(Scores(chunks, words))[x] ==
            if x.overlap == Overlap(x.chunk, words) && x.overlap > 0 then multiset(chunks)[x.chunk] else 0
  {
    if chunks != [] {
      var before, c := chunks[..|chunks| - 1], chunks[|chunks| - 1];
      ScoresCount(before, words, x);
      LastScore(c, words, x);
      assert chunks == before + [c];
      assert multiset(chunks)[x.chunk] == multiset(before)[x.chunk] + if c == x.chunk then 1 else 0;
    }
  }

  /** The ranking is sorted and holds each eligible chunk with a positive overlap as often as the corpus. */
  lemma RankingExactly(chunks: seq<Chunk>, words: set<string>, scope: Scope)
    ensures SortedBy(Ranking(chunks, words, scope), ByRank())
    ensures forall x :: multiset(Ranking(chunks, words, scope))[x] ==
                        if Genuine(x, words, scope) then multiset(chunks)[x.chunk] else 0
  {
    RankIsOrder();
    var eligible := Filter(chunks, IsEligible(scope));
    SortSorts(Scores(eligible, words), ByRank());
    forall x
      ensures multiset(Ranking(chunks, words, scope))[x] == if Genuine(x, words, scope) then multiset(chunks)[x.chunk]
              else 0
    {
      ScoresCount(eligible, words, x);
      FilterCounts(chunks, IsEligible(scope), x.chunk);
    }
  }

  /** A hit with more shared words comes first, and of those with as many the smaller id. */
  ghost predicate InRankOrder(x: Scored, y: Scored) {
    x.overlap > y.overlap || (x.overlap == y.overlap && InCodeOrder(x.chunk.policyId, y.chunk.policyId))
  }

  lemma RankMeans(x: Scored, y: Scored)
    ensures ByRank()(x, y) <==> InRankOrder(x, y)
  {
    StringLeqMeans(x.chunk.policyId, y.chunk.policyId);
  }

  lemma InRanking(chunks: seq<Chunk>, words: set<string>, scope: Scope, x: Scored)
    ensures x in Ranking(chunks, words, scope) <==> Genuine(x, words, scope) && x.chunk in chunks
  {
    RankingExactly(chunks, words, scope);
    assert x in Ranking(chunks, words, scope) <==> multiset(Ranking(chunks, words, scope))[x] > 0;
    assert x.chunk in chunks <==> multiset(chunks)[x.chunk] > 0;
  }

  /** Each hit of a keyword search is in force, and counts the words it shares with the query. */
  lemma HitsAreInForce(chunks: seq<Chunk>, words: set<string>, scope: Scope, limit: nat, i: nat)
    requires i < |Take(Ranking(chunks, words, scope), limit)|
    ensures |Take(Ranking(chunks, words, scope), limit)| <= limit
    ensures var x := Take(Ranking(chunks, words, scope), limit)[i];
            var c := x.chunk;
            && c in chunks && c.approved && c.jurisdiction in {scope.jurisdiction, "EU", "INTL"}
            && (c.effectiveFrom.None? || c.effectiveFrom.value <= scope.asOf)
            && (c.effectiveTo.None? || scope.asOf <= c.effectiveTo.value)
            && x.overlap == |set w | w in words && w in c.words| && x.overlap > 0
  {
    var x := Take(Ranking(chunks, words, scope), limit)[i];
    assert x in Ranking(chunks, words, scope);
    InRanking(chunks, words, scope, x);
    assert x.chunk.words * words == set w | w in words && w in x.chunk.words;
  }

  lemma HitsAreRanked(chunks: seq<Chunk>, words: set<string>, scope: Scope, limit: nat, i: nat, j: nat)
    requires i < j < |Take(Ranking(chunks, words, scope), limit)|
    ensures var hits := Take(Ranking(chunks, words, scope), limit); InRankOrder(hits[i], hits[j])
  {
    RankingExactly(chunks, words, scope);
    var ranking := Ranking(chunks, words, scope);
    RankMeans(ranking[i], ranking[j]);
  }

  /** A chunk in force that shares a word is a hit, unless the limit is used up by hits that come before it. */
  lemma NothingIsMissed(chunks: seq<Chunk>, words: set<string>, scope: Scope, limit: nat, c: Chunk)
    requires c in chunks && c.approved && c.jurisdiction in {scope.jurisdiction, "EU", "INTL"}
    requires c.effectiveFrom.None? || c.effectiveFrom.value <= scope.asOf
    requires c.effectiveTo.None? || scope.asOf <= c.effectiveTo.value
    requires exists w :: w in words && w in c.words
    ensures var hits, x := Take(Ranking(chunks, words, scope), limit), Scored(c, |c.words * words|);
            x in hits || (|hits| == limit && forall i :: 0 <= i < |hits| ==> InRankOrder(hits[i], x))
  {
    var ranking, x := Ranking(chunks, words, scope), Scored(c, |c.words * words|);
    SharesAWord(c, words);
    InRanking(chunks, words, scope, x);
    var k :| 0 <= k < |ranking| && ranking[k] == x;
    if k < limit {
      assert Take(ranking, limit)[k] == x;
    } else {
      RankedBefore(chunks, words, scope, limit, k);
    }
  }

  lemma SharesAWord(c: Chunk, words: set<string>)
    requires exists w :: w in words && w in c.words
    ensures Overlap(c, words) > 0
  {
    var w :| w in words && w in c.words;
    assert w in c.words * words;
  }

  lemma RankedBefore(chunks: seq<Chunk>, words: set<string>, scope: Scope, n: nat, k: nat)
    requires n <= k < |Ranking(chunks, words, scope)|
    ensures forall i :: 0 <= i < n ==>
              InRankOrder(Ranking(chunks, words, scope)[i], Ranking(chunks, words, scope)[k])
  {
    RankingExactly(chunks, words, scope);
    var ranking := Ranking(chunks, words, scope);
    forall i | 0 <= i < n ensures InRankOrder(ranking[i], ranking[k]) {
      RankMeans(ranking[i], ranking[k]);
    }
  }

  // ----- unique policy ids -----

  ghost predicate UniqueIds(chunks: seq<Chunk>) {
    forall i, j :: 0 <= i < j < |chunks| ==> chunks[i].policyId != chunks[j].policyId
  }

  ghost predicate SingleIds(chunks: seq<Chunk>) {
    forall x, y :: x in chunks && y in chunks && x.policyId == y.policyId ==> x == y
  }

  lemma {:induction false} UniqueMeans(chunks: seq<Chunk>)
    requires UniqueIds(chunks)
    ensures SingleIds(chunks) && forall x :: multiset(chunks)[x] <= 1
  {
    forall x ensures multiset(chunks)[x] <= 1 {
      if chunks != [] {
        UniqueMeans(chunks[1..]);
        assert chunks == [chunks[0]] + chunks[1..];
        assert chunks[0] !in chunks[1..];
      }
    }
  }

  function WithId(id: string): Scored -> bool {
    (x: Scored) => x.chunk.policyId == id
  }

  function WithIdIn(ids: set<string>): Scored -> bool {
    (x: Scored) => x.chunk.policyId in ids
  }

  /** No id is ranked twice. */
  ghost predicate OneEach(s: seq<Scored>) {
    forall id :: |Filter(s, WithId(id))| <= 1
  }

  ghost predicate AtMostOnce(s: seq<Scored>) {
    && (forall x :: multiset(s)[x] <= 1)
    && (forall x, y :: x in s && y in s && x.chunk.policyId == y.chunk.policyId ==> x == y)
  }

  lemma OnceIsOneEach(s: seq<Scored>)
    requires AtMostOnce(s)
    ensures OneEach(s)
  {
    forall id ensures |Filter(s, WithId(id))| <= 1 {
      var part := Filter(s, WithId(id));
      if |part| >= 2 {
        assert part[0] in part && part[1] in part;
        assert part == [part[0], part[1]] + part[2..];
        assert multiset(part)[part[0]] >= 2;
        FilterCounts(s, WithId(id), part[0]);
        assert false;
      }
    }
  }

  lemma RankedOnce(chunks: seq<Chunk>, words: set<string>, scope: Scope)
    requires UniqueIds(chunks)
    ensures AtMostOnce(Ranking(chunks, words, scope))
    ensures forall x :: x in Ranking(chunks, words, scope) <==> Genuine(x, words, scope) && x.chunk in chunks
  {
    var ranking := Ranking(chunks, words, scope);
    RankingExactly(chunks, words, scope);
    UniqueMeans(chunks);
    forall x ensures x in ranking <==> Genuine(x, words, scope) && x.chunk in chunks {
      assert x in ranking <==> multiset(ranking)[x] > 0;
      assert x.chunk in chunks <==> multiset(chunks)[x.chunk] > 0;
    }
  }

  // ----- cutting at twenty loses nothing -----

  lemma {:induction false} CountUnion(s: seq<Scored>, id: string, ids: set<string>)
    requires id in ids
    ensures |Filter(s, WithIdIn(ids))| <= |Filter(s, WithId(id))| + |Filter(s, WithIdIn(ids - {id}))|
  {
    if s != [] {
      CountUnion(s[1..], id, ids);
    }
  }

  lemma {:induction false} FilterNone(s: seq<Scored>, keep: Scored -> bool)
    requires forall x :: !keep(x)
    ensures Filter(s, keep) == []
  {
    if s != [] {
      FilterNone(s[1..], keep);
    }
  }

  lemma {:induction false} CountInIds(s: seq<Scored>, ids: set<string>)
    requires OneEach(s)
    ensures |Filter(s, WithIdIn(ids))| <= |ids|
    decreases |ids|
  {
    if ids == {} {
      FilterNone(s, WithIdIn(ids));
    } else {
      var id :| id in ids;
      CountUnion(s, id, ids);
      CountInIds(s, ids - {id});
    }
  }

  lemma {:induction false} CountSplit(s: seq<Scored>, ids: set<string>)
    ensures |Filter(s, Unmapped(ids))| + |Filter(s, WithIdIn(ids))| == |s|
  {
    if s != [] {
      CountSplit(s[1..], ids);
    }
  }

  lemma PrefixOneEach(s: seq<Scored>, n: nat)
    requires OneEach(s) && n <= |s|
    ensures OneEach(s[..n])
  {
    forall id ensures |Filter(s[..n], WithId(id))| <= 1 {
      FilterConcat(s[..n], s[n..], WithId(id));
      assert s == s[..n] + s[n..];
    }
  }

  /** Cutting the ranking at twenty before dropping the mapped policies changes nothing. */
  lemma CutLosesNothing(ranking: seq<Scored>, ids: set<string>, room: nat)
    requires OneEach(ranking) && room + |ids| <= 20
    ensures CutThenFilter(ranking, ids, room) == BestUnmapped(ranking, ids, room)
  {
    if |ranking| > 20 {
      var head, tail := ranking[..20], ranking[20..];
      assert ranking == head + tail;
      FilterConcat(head, tail, Unmapped(ids));
      PrefixOneEach(ranking, 20);
      CountInIds(head, ids);
      CountSplit(head, ids);
    }
  }

  lemma {:induction false} RuleIdsBounded(rules: seq<Rule>)
    ensures |RuleIds(rules)| <= |rules|
  {
    if rules != [] {
      RuleIdsBounded(rules[1..]);
      assert RuleIds(rules) == {rules[0].policyId} + RuleIds(rules[1..]);
    }
  }

  function Asked(index: Index, q: Request): seq<Rule>
    requires q.alertRuleId in index.mappings
  {
    EligibleRules(index.chunks, index.mappings[q.alertRuleId], q.facts, q.scope)
  }

  /** The search succeeds exactly when the limit is legal, the rule is mapped and its policies fit. */
  predicate Answerable(index: Index, q: Request) {
    1 <= q.limit <= 20 && q.alertRuleId in index.mappings && |Asked(index, q)| <= q.limit
  }

  /**
   * The result: the applicable mapped rules with an eligible policy, in mapping order, then the
   * first (limit - mapped) of all eligible unmapped positive chunks by score and id.
   */
  lemma SearchIsExact(index: Index, q: Request)
    requires UniqueIds(index.chunks)
    ensures SearchForAlertSpec(index, q).Ok? <==> Answerable(index, q)
    ensures Answerable(index, q) ==>
              var rules, m := Asked(index, q), index.mappings[q.alertRuleId];
              SearchForAlertSpec(index, q).value
              == MappedMatches(index.chunks, q.scope, rules, RuleIds(m.always), q.facts)
                 + ContextualMatches(BestUnmapped(Ranking(index.chunks, q.words, q.scope), RuleIds(rules),
                                                  q.limit - |rules|))
  {
    if Answerable(index, q) {
      var ranking := Ranking(index.chunks, q.words, q.scope);
      RankedOnce(index.chunks, q.words, q.scope);
      OnceIsOneEach(ranking);
      RuleIdsBounded(Asked(index, q));
      CutLosesNothing(ranking, RuleIds(Asked(index, q)), q.limit - |Asked(index, q)|);
    }
  }

  // ----- independence of the corpus order -----

  lemma {:induction false} EligibleChunkExactly(chunks: seq<Chunk>, scope: Scope, id: string, c: Chunk)
    requires SingleIds(chunks)
    ensures EligibleChunk(chunks, scope, id) == Some(c) <==> c in chunks && Eligible(c, scope) && c.policyId == id
  {
    if chunks != [] {
      var before, last := chunks[..|chunks| - 1], chunks[|chunks| - 1];
      assert chunks == before + [last];
      EligibleChunkExactly(before, scope, id, c);
    }
  }

  lemma SameEligibleChunk(a: seq<Chunk>, b: seq<Chunk>, scope: Scope, id: string)
    requires UniqueIds(a) && UniqueIds(b) && multiset(a) == multiset(b)
    ensures EligibleChunk(a, scope, id) == EligibleChunk(b, scope, id)
  {
    UniqueMeans(a);
    UniqueMeans(b);
    var x, y := EligibleChunk(a, scope, id), EligibleChunk(b, scope, id);
    if x.Some? {
      assert x.value in multiset(a) && x.value in multiset(b);
      EligibleChunkExactly(b, scope, id, x.value);
    } else if y.Some? {
      assert y.value in multiset(b) && y.value in multiset(a);
      EligibleChunkExactly(a, scope, id, y.value);
    }
  }

  lemma SameRanked(a: seq<Chunk>, b: seq<Chunk>, words: set<string>, scope: Scope)
    requires multiset(a) == multiset(b)
    ensures multiset(Ranking(a, words, scope)) == multiset(Ranking(b, words, scope))
  {
    RankingExactly(a, words, scope);
    RankingExactly(b, words, scope);
  }

  /** No two entries of a ranking share a rank. */
  lemma RankIsStrict(chunks: seq<Chunk>, words: set<string>, scope: Scope)
    requires UniqueIds(chunks)
    ensures var r := Ranking(chunks, words, scope);
            forall x, y :: x in r && y in r && ByRank()(x, y) && ByRank()(y, x) ==> x == y
  {
    RankedOnce(chunks, words, scope);
    var r := Ranking(chunks, words, scope);
    forall x, y | x in r && y in r && ByRank()(x, y) && ByRank()(y, x) ensures x == y {
      StringOrder(x.chunk.policyId, y.chunk.policyId);
    }
  }

  lemma SameRanking(a: seq<Chunk>, b: seq<Chunk>, words: set<string>, scope: Scope)
    requires UniqueIds(a) && UniqueIds(b) && multiset(a) == multiset(b)
    ensures Ranking(a, words, scope) == Ranking(b, words, scope)
  {
    RankingExactly(a, words, scope);
    RankingExactly(b, words, scope);
    SameRanked(a, b, words, scope);
    RankIsStrict(a, words, scope);
    SortedUnique(Ranking(a, words, scope), Ranking(b, words, scope), ByRank());
  }

  lemma SameAsked(a: Index, b: Index, q: Request)
    requires UniqueIds(a.chunks) && UniqueIds(b.chunks) && multiset(a.chunks) == multiset(b.chunks)
    requires a.mappings == b.mappings && q.alertRuleId in a.mappings
    ensures Asked(a, q) == Asked(b, q)
  {
    var selected := SelectedRules(a.mappings[q.alertRuleId], q.facts);
    forall rule | rule in selected
      ensures HasEligible(a.chunks, q.scope)(rule) == HasEligible(b.chunks, q.scope)(rule)
    {
      SameEligibleChunk(a.chunks, b.chunks, q.scope, rule.policyId);
    }
    SameFilter(selected, HasEligible(a.chunks, q.scope), HasEligible(b.chunks, q.scope));
  }

  lemma SameMatches(a: seq<Chunk>, b: seq<Chunk>, scope: Scope, rules: seq<Rule>, always: set<string>,
                    facts: set<string>)
    requires UniqueIds(a) && UniqueIds(b) && multiset(a) == multiset(b)
    requires forall x :: x in rules ==> HasEligible(a, scope)(x)
    requires forall x :: x in rules ==> HasEligible(b, scope)(x)
    ensures MappedMatches(a, scope, rules, always, facts) == MappedMatches(b, scope, rules, always, facts)
  {
    var x, y := MappedMatches(a, scope, rules, always, facts), MappedMatches(b, scope, rules, always, facts);
    forall i | 0 <= i < |rules| ensures x[i] == y[i] {
      SameEligibleChunk(a, b, scope, rules[i].policyId);
    }
  }

  /** Reordering a corpus with unique ids does not change the answer, nor the error. */
  lemma CorpusOrderIsIrrelevant(a: Index, b: Index, q: Request)
    requires UniqueIds(a.chunks) && UniqueIds(b.chunks)
    requires multiset(a.chunks) == multiset(b.chunks) && a.mappings == b.mappings
    ensures SearchForAlertSpec(a, q) == SearchForAlertSpec(b, q)
  {
    if 1 <= q.limit <= 20 && q.alertRuleId in a.mappings {
      SameAsked(a, b, q);
      SameRanking(a.chunks, b.chunks, q.words, q.scope);
      SameMatches(a.chunks, b.chunks, q.scope, Asked(a, q), RuleIds(a.mappings[q.alertRuleId].always), q.facts);
    }
  }

  // ----- what is returned -----

  lemma {:induction false} FilterWeaker<T(!new)>(s: seq<T>, p: T -> bool, q: T -> bool)
    requires forall x :: x in s && p(x) ==> q(x)
    ensures |Filter(s, p)| <= |Filter(s, q)|
    ensures forall x :: x in Filter(s, p) ==> x in Filter(s, q)
  {
    if s != [] {
      FilterWeaker(s[1..], p, q);
    }
  }

  lemma MappedAt(index: Index, q: Request, i: nat)
    requires UniqueIds(index.chunks) && Answerable(index, q) && i < |Asked(index, q)|
    ensures i < |SearchForAlertSpec(index, q).value|
    ensures SearchForAlertSpec(index, q).value[i].chunk.policyId == Asked(index, q)[i].policyId
    ensures SearchForAlertSpec(index, q).value[i].chunk in index.chunks
    ensures Eligible(SearchForAlertSpec(index, q).value[i].chunk, q.scope)
  {
    assert Asked(index, q)[i] in Asked(index, q);
  }

  lemma UnmappedAt(chunks: seq<Chunk>, words: set<string>, scope: Scope, ids: set<string>, i: nat)
    requires UniqueIds(chunks) && i < |Filter(Ranking(chunks, words, scope), Unmapped(ids))|
    ensures var s := Filter(Ranking(chunks, words, scope), Unmapped(ids))[i];
            Genuine(s, words, scope) && s.chunk in chunks && s.chunk.policyId !in ids
  {
    RankedOnce(chunks, words, scope);
    var unmapped := Filter(Ranking(chunks, words, scope), Unmapped(ids));
    assert unmapped[i] in unmapped;
  }

  lemma ContextualAt(index: Index, q: Request, i: nat)
    requires UniqueIds(index.chunks) && Answerable(index, q)
    requires |Asked(index, q)| <= i < |SearchForAlertSpec(index, q).value|
    ensures var x := SearchForAlertSpec(index, q).value[i].chunk;
            x in index.chunks && Eligible(x, q.scope) && x.policyId !in RuleIds(Asked(index, q))
                && Overlap(x, q.words) > 0
  {
    SearchIsExact(index, q);
    UnmappedAt(index.chunks, q.words, q.scope, RuleIds(Asked(index, q)), i - |Asked(index, q)|);
  }

  /** Everything returned is approved, in force and in scope, and the limit is kept. */
  lemma ReturnedAreEligible(index: Index, q: Request)
    requires UniqueIds(index.chunks) && Answerable(index, q)
    ensures |SearchForAlertSpec(index, q).value| <= q.limit
    ensures forall i :: 0 <= i < |SearchForAlertSpec(index, q).value| ==>
              var c := SearchForAlertSpec(index, q).value[i].chunk;
              && c in index.chunks && c.approved && c.jurisdiction in {q.scope.jurisdiction, "EU", "INTL"}
              && (c.effectiveFrom.None? || c.effectiveFrom.value <= q.scope.asOf)
              && (c.effectiveTo.None? || q.scope.asOf <= c.effectiveTo.value)
  {
    SearchIsExact(index, q);
    forall i | 0 <= i < |SearchForAlertSpec(index, q).value|
      ensures var c := SearchForAlertSpec(index, q).value[i].chunk; c in index.chunks && Eligible(c, q.scope)
    {
      if i < |Asked(index, q)| {
        MappedAt(index, q, i);
      } else {
        ContextualAt(index, q, i);
      }
    }
  }

  /**
   * The mapped rules of an answer: the always-rules, and the conditional ones whose conditions the
   * facts meet, as far as a policy in force carries their id.
   */
  lemma AskedExactly(index: Index, q: Request, rule: Rule)
    requires UniqueIds(index.chunks) && q.alertRuleId in index.mappings
    ensures rule in Asked(index, q) <==>
            && (|| rule in index.mappings[q.alertRuleId].always
                || (&& rule in index.mappings[q.alertRuleId].conditional
                    && (forall f :: f in rule.whenAll ==> f in q.facts)
                    && (|rule.whenAny| == 0 || exists f :: f in rule.whenAny && f in q.facts)))
            && exists c :: && c in index.chunks && c.policyId == rule.policyId
                           && c.approved && c.jurisdiction in {q.scope.jurisdiction, "EU", "INTL"}
                           && (c.effectiveFrom.None? || c.effectiveFrom.value <= q.scope.asOf)
                           && (c.effectiveTo.None? || q.scope.asOf <= c.effectiveTo.value)
  {
    var m := index.mappings[q.alertRuleId];
    UniqueMeans(index.chunks);
    forall c | c in index.chunks && Eligible(c, q.scope) && c.policyId == rule.policyId
      ensures HasEligible(index.chunks, q.scope)(rule)
    {
      EligibleChunkExactly(index.chunks, q.scope, rule.policyId, c);
    }
  }

  /** How an answer presents the i-th mapped rule. */
  lemma MappedMeans(index: Index, q: Request, i: nat)
    requires UniqueIds(index.chunks) && Answerable(index, q) && i < |Asked(index, q)|
    ensures i < |SearchForAlertSpec(index, q).value|
    ensures var rule, x := Asked(index, q)[i], SearchForAlertSpec(index, q).value[i];
            && x.chunk.policyId == rule.policyId && x.overlap.None?
            && x.stage == Some(rule.stage) && x.explanation == Some(rule.rationale)
            && x.reason in {AlertMapping, ConditionalMapping}
            && (x.reason == AlertMapping <==>
                exists r :: r in index.mappings[q.alertRuleId].always && r.policyId == rule.policyId)
            && (forall f :: f in x.matchedFacts <==> f in rule.whenAll || (f in rule.whenAny && f in q.facts))
            && rule.whenAll <= x.matchedFacts
  {
    MappedAt(index, q, i);
    var rule := Asked(index, q)[i];
    forall f ensures f in Filter(rule.whenAny, InFacts(q.facts)) <==> f in rule.whenAny && f in q.facts {
    }
  }

  /** The keyword part as hits. */
  function Extra(index: Index, q: Request): seq<Scored>
    requires q.alertRuleId in index.mappings && |Asked(index, q)| <= q.limit
  {
    BestUnmapped(Ranking(index.chunks, q.words, q.scope), RuleIds(Asked(index, q)), q.limit - |Asked(index, q)|)
  }

  /** An answer is one match per mapped rule, then one per extra hit. */
  lemma AnswerParts(index: Index, q: Request)
    requires UniqueIds(index.chunks) && Answerable(index, q)
    ensures var answer, n := SearchForAlertSpec(index, q).value, |Asked(index, q)|;
            && |answer| == n + |Extra(index, q)|
            && forall k :: 0 <= k < |Extra(index, q)| ==> answer[n + k] == ContextualMatch(Extra(index, q)[k])
  {
    SearchIsExact(index, q);
  }

  lemma ExtraAt(index: Index, q: Request, k: nat)
    requires UniqueIds(index.chunks) && q.alertRuleId in index.mappings && |Asked(index, q)| <= q.limit
    requires k < |Extra(index, q)|
    ensures var x := Extra(index, q)[k];
            Genuine(x, q.words, q.scope) && x.chunk in index.chunks && x.chunk.policyId !in RuleIds(Asked(index, q))
  {
    UnmappedAt(index.chunks, q.words, q.scope, RuleIds(Asked(index, q)), k);
  }

  /** How an answer presents what it adds by keyword: hits on other policies, best first. */
  lemma ContextualMeans(index: Index, q: Request, i: nat)
    requires UniqueIds(index.chunks) && Answerable(index, q)
    requires |Asked(index, q)| <= i < |SearchForAlertSpec(index, q).value|
    ensures var x := SearchForAlertSpec(index, q).value[i];
            && x.reason == ContextualKeyword && x.stage.None? && x.matchedFacts == [] && x.explanation.None?
            && x.overlap == Some(|set w | w in q.words && w in x.chunk.words|) && x.overlap.value > 0
            && (forall rule :: rule in Asked(index, q) ==> rule.policyId != x.chunk.policyId)
  {
    AnswerParts(index, q);
    var k := i - |Asked(index, q)|;
    ExtraAt(index, q, k);
    var c := Extra(index, q)[k].chunk;
    assert SearchForAlertSpec(index, q).value[|Asked(index, q)| + k] == ContextualMatch(Extra(index, q)[k]);
    assert c.words * q.words == set w | w in q.words && w in c.words;
  }

  lemma {:induction false} FilterKeepsOrder(s: seq<Scored>, keep: Scored -> bool)
    requires SortedBy(s, ByRank())
    ensures SortedBy(Filter(s, keep), ByRank())
  {
    if s != [] {
      FilterKeepsOrder(s[1..], keep);
      var rest := Filter(s[1..], keep);
      forall k | 0 <= k < |rest| ensures ByRank()(s[0], rest[k]) {
        assert rest[k] in s[1..];
        var j :| 0 <= j < |s[1..]| && s[1..][j] == rest[k];
        assert s[j + 1] == rest[k];
      }
    }
  }

  lemma ExtraInOrder(index: Index, q: Request, i: nat, j: nat)
    requires q.alertRuleId in index.mappings && |Asked(index, q)| <= q.limit && i < j < |Extra(index, q)|
    ensures InRankOrder(Extra(index, q)[i], Extra(index, q)[j])
  {
    RankingExactly(index.chunks, q.words, q.scope);
    FilterKeepsOrder(Ranking(index.chunks, q.words, q.scope), Unmapped(RuleIds(Asked(index, q))));
    RankMeans(Extra(index, q)[i], Extra(index, q)[j]);
  }

  /** The k-th match that an answer adds by keyword, read as a hit. */
  function HitAt(index: Index, q: Request, k: nat): Scored
    requires SearchForAlertSpec(index, q).Ok? && q.alertRuleId in index.mappings
    requires |Asked(index, q)| + k < |SearchForAlertSpec(index, q).value|
  {
    var x := SearchForAlertSpec(index, q).value[|Asked(index, q)| + k];
    Scored(x.chunk, match x.overlap case None => 0 case Some(n) => n)
  }

  lemma HitIsExtra(index: Index, q: Request, k: nat)
    requires UniqueIds(index.chunks) && Answerable(index, q)
    requires |Asked(index, q)| + k < |SearchForAlertSpec(index, q).value|
    ensures k < |Extra(index, q)| && HitAt(index, q, k) == Extra(index, q)[k]
  {
    AnswerParts(index, q);
  }

  /** The hits of an answer are in the order of rank. */
  lemma AddedInOrder(index: Index, q: Request, k: nat, l: nat)
    requires UniqueIds(index.chunks) && Answerable(index, q) && k < l
    requires |Asked(index, q)| + l < |SearchForAlertSpec(index, q).value|
    ensures InRankOrder(HitAt(index, q, k), HitAt(index, q, l))
  {
    HitIsExtra(index, q, k);
    HitIsExtra(index, q, l);
    ExtraInOrder(index, q, k, l);
  }

  lemma ExtraHolds(index: Index, q: Request, c: Chunk) returns (k: nat)
    requires UniqueIds(index.chunks) && Answerable(index, q)
    requires c in index.chunks && Eligible(c, q.scope) && c.policyId !in RuleIds(Asked(index, q))
    requires exists w :: w in q.words && w in c.words
    ensures if k < |Extra(index, q)| then Extra(index, q)[k].chunk == c
            else k == |Extra(index, q)| == q.limit - |Asked(index, q)|
  {
    SharesAWord(c, q.words);
    var ids, ranking, x :=
        RuleIds(Asked(index, q)), Ranking(index.chunks, q.words, q.scope), Scored(c, |c.words * q.words|);
    InRanking(index.chunks, q.words, q.scope, x);
    var unmapped := Filter(ranking, Unmapped(ids));
    k :| 0 <= k < |unmapped| && unmapped[k] == x;
    if k >= q.limit - |Asked(index, q)| {
      k := q.limit - |Asked(index, q)|;
    }
  }

  /** A policy in force that shares a word and is not mapped is returned, unless the limit is reached. */
  lemma RelevantIsReturned(index: Index, q: Request, c: Chunk)
    requires UniqueIds(index.chunks) && Answerable(index, q)
    requires c in index.chunks && c.approved && c.jurisdiction in {q.scope.jurisdiction, "EU", "INTL"}
    requires c.effectiveFrom.None? || c.effectiveFrom.value <= q.scope.asOf
    requires c.effectiveTo.None? || q.scope.asOf <= c.effectiveTo.value
    requires exists w :: w in q.words && w in c.words
    ensures || (exists i :: 0 <= i < |SearchForAlertSpec(index, q).value|
                            && SearchForAlertSpec(index, q).value[i].chunk.policyId == c.policyId)
            || |SearchForAlertSpec(index, q).value| == q.limit
  {
    AnswerParts(index, q);
    if c.policyId in RuleIds(Asked(index, q)) {
      var rule :| rule in Asked(index, q) && rule.policyId == c.policyId;
      var i :| 0 <= i < |Asked(index, q)| && Asked(index, q)[i] == rule;
      MappedAt(index, q, i);
    } else {
      var k := ExtraHolds(index, q, c);
      if k < |Extra(index, q)| {
        assert SearchForAlertSpec(index, q).value[|Asked(index, q)| + k] == ContextualMatch(Extra(index, q)[k]);
      }
    }
  }

  /** An always-rule whose policy is in force is returned, whatever the facts and the query. */
  lemma AlwaysRulesReturned(index: Index, q: Request, rule: Rule)
    requires UniqueIds(index.chunks) && Answerable(index, q)
    requires rule in index.mappings[q.alertRuleId].always
    requires exists c :: && c in index.chunks && c.policyId == rule.policyId
                         && c.approved && c.jurisdiction in {q.scope.jurisdiction, "EU", "INTL"}
                         && (c.effectiveFrom.None? || c.effectiveFrom.value <= q.scope.asOf)
                         && (c.effectiveTo.None? || q.scope.asOf <= c.effectiveTo.value)
    ensures exists i :: 0 <= i < |SearchForAlertSpec(index, q).value|
                        && SearchForAlertSpec(index, q).value[i].chunk.policyId == rule.policyId
  {
    AskedExactly(index, q, rule);
    var rules := Asked(index, q);
    var i :| 0 <= i < |rules| && rules[i] == rule;
    MappedAt(index, q, i);
  }

  // ----- monotone conditions -----

  lemma AppliesMonotone(rule: Rule, less: set<string>, more: set<string>)
    requires less <= more && Applies(rule, less)
    ensures Applies(rule, more)
  {
    if rule.whenAny != [] {
      var f :| f in rule.whenAny && f in less;
      assert f in more;
    }
  }

  /** With fewer facts the mapped policies are a part of the earlier ones. */
  lemma FewerFactsFewerRules(chunks: seq<Chunk>, m: Mapping, scope: Scope, less: set<string>, more: set<string>)
    requires less <= more
    ensures |EligibleRules(chunks, m, less, scope)| <= |EligibleRules(chunks, m, more, scope)|
    ensures forall r :: r in EligibleRules(chunks, m, less, scope) ==> r in EligibleRules(chunks, m, more, scope)
  {
    var keep := HasEligible(chunks, scope);
    var some, all := Filter(m.conditional, IsApplicable(less)), Filter(m.conditional, IsApplicable(more));
    FilterConcat(m.always, some, keep);
    FilterConcat(m.always, all, keep);
    ConditionalMonotone(m.conditional, keep, less, more);
  }

  function Both<T>(p: T -> bool, q: T -> bool): T -> bool {
    x => p(x) && q(x)
  }

  lemma {:induction false} FilterTwice<T(!new)>(s: seq<T>, p: T -> bool, q: T -> bool)
    ensures Filter(Filter(s, p), q) == Filter(s, Both(p, q))
  {
    if s != [] {
      FilterTwice(s[1..], p, q);
      FilterConcat(if p(s[0]) then [s[0]] else [], Filter(s[1..], p), q);
      FilterHead(s[0], q);
    }
  }

  lemma FilterHead<T(!new)>(x: T, q: T -> bool)
    ensures Filter([x], q) == if q(x) then [x] else []
  {
    assert [x][1..] == [];
  }

  lemma ConditionalMonotone(rules: seq<Rule>, keep: Rule -> bool, less: set<string>, more: set<string>)
    requires less <= more
    ensures |Filter(Filter(rules, IsApplicable(less)), keep)| <= |Filter(Filter(rules, IsApplicable(more)), keep)|
    ensures forall r :: r in Filter(Filter(rules, IsApplicable(less)), keep) ==>
            r in Filter(Filter(rules, IsApplicable(more)), keep)
  {
    FilterTwice(rules, IsApplicable(less), keep);
    FilterTwice(rules, IsApplicable(more), keep);
    forall r | Both(IsApplicable(less), keep)(r) ensures Both(IsApplicable(more), keep)(r) {
      AppliesMonotone(r, less, more);
    }
    FilterWeaker(rules, Both(IsApplicable(less), keep), Both(IsApplicable(more), keep));
  }

  // ----- citations -----

  /** No unknown citation exactly when every cited id was retrieved. */
  lemma CitationsKnownExactly(cited: seq<string>, retrieved: seq<Chunk>)
    ensures UnknownCitations(cited, retrieved) == {} <==>
            forall id :: id in cited ==> exists c :: c in retrieved && c.policyId == id
  {
    forall id ensures id in ChunkIds(retrieved) <==> exists c :: c in retrieved && c.policyId == id {
    }
    if UnknownCitations(cited, retrieved) != {} {
      var id :| id in UnknownCitations(cited, retrieved);
      assert id in cited;
    } else {
      forall id | id in cited ensures id in ChunkIds(retrieved) {
        assert id !in UnknownCitations(cited, retrieved);
      }
    }
  }
}
