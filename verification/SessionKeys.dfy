/**
 * Session keys: the text hashed for one configuration, scenario and repetition of an
 * experiment, and the cells of the full design. The hash itself is a parameter.
 */
module SessionKeys {
  import opened Prelude
  import opened ExperimentModel

  datatype Cell = Cell(configurationId: string, scenarioId: string, repetition: nat)

  predicate ColonFree(s: string) {
    ':' !in s
  }

  /** Decimal text of a number. Experiment ids are rendered the same way: colon-free and injective. */
  function Decimal(n: nat): (s: string)
    ensures s != [] && ColonFree(s)
  {
    if n < 10 then ["0123456789"[n]] else Decimal(n / 10) + ["0123456789"[n % 10]]
  }

  lemma {:induction false} DecimalInjective(a: nat, b: nat)
    requires Decimal(a) == Decimal(b)
    ensures a == b
  {
    var s, t := Decimal(a), Decimal(b);
    assert a >= 10 ==> s == Decimal(a / 10) + [s[|s| - 1]] && |s| > 1;
    assert b >= 10 ==> t == Decimal(b / 10) + [t[|t| - 1]] && |t| > 1;
    assert s[|s| - 1] == "0123456789"[a % 10] && t[|t| - 1] == "0123456789"[b % 10];
    if a >= 10 {
      assert Decimal(a / 10) == s[..|s| - 1] == t[..|t| - 1] == Decimal(b / 10);
      DecimalInjective(a / 10, b / 10);
    }
  }

  /** The number that a text of digits denotes. */
  function Denoted(s: string): int {
    if s == [] then 0 else 10 * Denoted(s[..|s| - 1]) + (s[|s| - 1] as int - '0' as int)
  }

  lemma {:induction false} DecimalDenotes(n: nat)
    ensures Denoted(Decimal(n)) == n
    ensures n > 0 ==> Decimal(n)[0] != '0'
  {
    var s, digit := Decimal(n), "0123456789"[n % 10];
    assert digit as int == '0' as int + n % 10;
    if n >= 10 {
      DecimalDenotes(n / 10);
      assert s[..|s| - 1] == Decimal(n / 10);
    }
  }

  function RawKey(e: ExperimentId, c: Cell): string {
    Decimal(e) + ":" + (c.configurationId + ":" + (c.scenarioId + ":" + Decimal(c.repetition)))
  }

  function SessionKey(hash: string -> string, e: ExperimentId, c: Cell): string {
    hash(RawKey(e, c))
  }

  /** The texts of the two sessions differ, but their hashes do not. */
  predicate KeyClash(hash: string -> string, e: ExperimentId, c: Cell, f: ExperimentId, d: Cell) {
    RawKey(e, c) != RawKey(f, d) && hash(RawKey(e, c)) == hash(RawKey(f, d))
  }

  // ----- reading a key back -----

  lemma FirstColon(a: string, x: string, b: string, y: string)
    requires ColonFree(a) && ColonFree(b) && a + ":" + x == b + ":" + y
    ensures a == b && x == y
  {
    var s := a + ":" + x;
    assert s == b + ":" + y;
    assert s[|a|] == ':' && s[|b|] == ':';
    assert forall i :: 0 <= i < |a| ==> s[i] == a[i] && a[i] in a;
    assert forall i :: 0 <= i < |b| ==> s[i] == b[i] && b[i] in b;
    assert |a| == |b|;
    assert a == s[..|a|] && b == s[..|b|];
    assert x == s[|a| + 1..] && y == s[|b| + 1..];
  }

  lemma NoLaterColon(x: string, a: string, y: string, b: string)
    requires ColonFree(a) && x + ":" + a == y + ":" + b
    ensures |y| <= |x|
  {
    var s := x + ":" + a;
    assert s[|y|] == (y + ":" + b)[|y|] == ':';
    forall i | |x| < i < |s| ensures s[i] != ':' {
      assert s[i] == a[i - |x| - 1] && a[i - |x| - 1] in a;
    }
  }

  lemma LastColon(x: string, a: string, y: string, b: string)
    requires ColonFree(a) && ColonFree(b) && x + ":" + a == y + ":" + b
    ensures a == b && x == y
  {
    NoLaterColon(x, a, y, b);
    NoLaterColon(y, b, x, a);
    var s := x + ":" + a;
    assert x == s[..|x|] && y == s[..|y|];
    assert a == s[|x| + 1..] && b == s[|y| + 1..];
  }

  lemma RawKeyTail(e: ExperimentId, c: Cell, f: ExperimentId, d: Cell)
    requires RawKey(e, c) == RawKey(f, d)
    ensures e == f
    ensures c.configurationId + ":" + (c.scenarioId + ":" + Decimal(c.repetition)) ==
            d.configurationId + ":" + (d.scenarioId + ":" + Decimal(d.repetition))
  {
    FirstColon(Decimal(e), c.configurationId + ":" + (c.scenarioId + ":" + Decimal(c.repetition)),
               Decimal(f), d.configurationId + ":" + (d.scenarioId + ":" + Decimal(d.repetition)));
    DecimalInjective(e, f);
  }

  /** The text before hashing determines experiment and cell once configuration ids hold no colon. */
  lemma RawKeyInjective(e: ExperimentId, c: Cell, f: ExperimentId, d: Cell)
    requires ColonFree(c.configurationId) && ColonFree(d.configurationId)
    requires RawKey(e, c) == RawKey(f, d)
    ensures e == f && c == d
  {
    RawKeyTail(e, c, f, d);
    FirstColon(c.configurationId, c.scenarioId + ":" + Decimal(c.repetition),
               d.configurationId, d.scenarioId + ":" + Decimal(d.repetition));
    LastColon(c.scenarioId, Decimal(c.repetition), d.scenarioId, Decimal(d.repetition));
    DecimalInjective(c.repetition, d.repetition);
  }

  /** Two session keys are equal exactly for one and the same session, or when just these two texts clash. */
  lemma SessionKeyInjective(hash: string -> string, e: ExperimentId, c: Cell, f: ExperimentId, d: Cell)
    requires ColonFree(c.configurationId) && ColonFree(d.configurationId)
    ensures SessionKey(hash, e, c) == SessionKey(hash, f, d) <==> (e == f && c == d) || KeyClash(hash, e, c, f, d)
  {
    if RawKey(e, c) == RawKey(f, d) {
      RawKeyInjective(e, c, f, d);
    }
  }

  predicate ExtendsWithColon(a: string, b: string) {
    |a| < |b| && b[..|a|] == a && b[|a|] == ':'
  }

  ghost predicate CanClash(a: string, b: string) {
    exists e, s, t, i, j :: RawKey(e, Cell(a, s, i)) == RawKey(e, Cell(b, t, j))
  }

  /**
   * Without that restriction the property fails, and exactly here: two different configuration
   * ids can share a key if and only if one continues the other with a colon.
   */
  lemma ConfigurationsClashExactly(a: string, b: string)
    requires a != b
    ensures CanClash(a, b) <==> ExtendsWithColon(a, b) || ExtendsWithColon(b, a)
  {
    if ExtendsWithColon(a, b) {
      ClashWitness(a, b);
    }
    if ExtendsWithColon(b, a) {
      ClashWitness(b, a);
    }
    if CanClash(a, b) {
      var e, s, t, i, j :| RawKey(e, Cell(a, s, i)) == RawKey(e, Cell(b, t, j));
      RawKeyTail(e, Cell(a, s, i), e, Cell(b, t, j));
      var u, v := s + ":" + Decimal(i), t + ":" + Decimal(j);
      var w := a + ":" + u;
      assert w == b + ":" + v;
      assert w[..|a|] == a && w[..|b|] == b && w[|a|] == ':' && w[|b|] == ':';
      if |a| < |b| {
        assert b[..|a|] == w[..|a|] && b[|a|] == w[|a|];
      } else if |b| < |a| {
        assert a[..|b|] == w[..|b|] && a[|b|] == w[|b|];
      }
    }
  }

  lemma ClashWitness(a: string, b: string)
    requires ExtendsWithColon(a, b)
    ensures CanClash(a, b) && CanClash(b, a)
  {
    var rest := b[|a| + 1..];
    assert b == a + ":" + rest;
    assert a + ":" + ((rest + ":" + "s") + ":" + Decimal(1)) == b + ":" + ("s" + ":" + Decimal(1));
    assert RawKey(0, Cell(a, rest + ":" + "s", 1)) == RawKey(0, Cell(b, "s", 1));
  }

  // ----- the design: configurations x scenarios x repetitions -----

  function Repetitions(c: string, s: string, r: nat): seq<Cell> {
    if r == 0 then [] else Repetitions(c, s, r - 1) + [Cell(c, s, r)]
  }

  function ScenarioCells(c: string, scenarios: seq<string>, r: nat): seq<Cell> {
    if scenarios == [] then [] else
      ScenarioCells(c, scenarios[..|scenarios| - 1], r) + Repetitions(c, scenarios[|scenarios| - 1], r)
  }

  function DesignCells(configurations: seq<Configuration>, scenarios: seq<string>, r: nat): seq<Cell> {
    if configurations == [] then [] else
      DesignCells(configurations[..|configurations| - 1], scenarios, r)
      + ScenarioCells(configurations[|configurations| - 1].configurationId, scenarios, r)
  }

  predicate Distinct<T(==)>(s: seq<T>) {
    forall i, j :: 0 <= i < j < |s| ==> s[i] != s[j]
  }

  predicate DistinctConfigurations(cs: seq<Configuration>) {
    forall i, j :: 0 <= i < j < |cs| ==> cs[i].configurationId != cs[j].configurationId
  }

  predicate Configured(cs: seq<Configuration>, id: string) {
    exists k :: 0 <= k < |cs| && cs[k].configurationId == id
  }

  lemma ConfiguredSnoc(cs: seq<Configuration>, c: Configuration, id: string)
    ensures Configured(cs + [c], id) <==> Configured(cs, id) || c.configurationId == id
  {
    if Configured(cs, id) {
      var k :| 0 <= k < |cs| && cs[k].configurationId == id;
      assert (cs + [c])[k].configurationId == id;
    }
    if c.configurationId == id {
      assert (cs + [c])[|cs|].configurationId == id;
    }
  }

  lemma {:induction false} RepetitionsExactly(c: string, s: string, r: nat)
    ensures |Repetitions(c, s, r)| == r
    ensures forall k :: 0 <= k < r ==> Repetitions(c, s, r)[k] == Cell(c, s, k + 1)
  {
    if r != 0 {
      RepetitionsExactly(c, s, r - 1);
    }
  }

  lemma RepetitionsMember(c: string, s: string, r: nat, x: Cell)
    ensures x in Repetitions(c, s, r) <==> x.configurationId == c && x.scenarioId == s && 1 <= x.repetition <= r
  {
    RepetitionsExactly(c, s, r);
    if x.configurationId == c && x.scenarioId == s && 1 <= x.repetition <= r {
      assert Repetitions(c, s, r)[x.repetition - 1] == x;
    }
  }

  lemma {:induction false} ScenarioCellsMember(c: string, ss: seq<string>, r: nat, x: Cell)
    ensures x in ScenarioCells(c, ss, r) <==> x.configurationId == c && x.scenarioId in ss && 1 <= x.repetition <= r
  {
    if ss != [] {
      assert ss == ss[..|ss| - 1] + [ss[|ss| - 1]];
      ScenarioCellsMember(c, ss[..|ss| - 1], r, x);
      RepetitionsMember(c, ss[|ss| - 1], r, x);
    }
  }

  lemma {:induction false} DesignMember(cs: seq<Configuration>, ss: seq<string>, r: nat, x: Cell)
    ensures x in DesignCells(cs, ss, r) <==>
            Configured(cs, x.configurationId) && x.scenarioId in ss && 1 <= x.repetition <= r
  {
    if cs != [] {
      var before, c := cs[..|cs| - 1], cs[|cs| - 1];
      assert cs == before + [c];
      ConfiguredSnoc(before, c, x.configurationId);
      DesignMember(before, ss, r, x);
      ScenarioCellsMember(c.configurationId, ss, r, x);
    }
  }

  lemma DistinctConcat<T>(a: seq<T>, b: seq<T>)
    requires Distinct(a) && Distinct(b) && forall x :: x in a ==> x !in b
    ensures Distinct(a + b)
  {
    forall i, j | 0 <= i < j < |a + b| ensures (a + b)[i] != (a + b)[j] {
      if i < |a| <= j {
        assert a[i] in a && b[j - |a|] in b;
      }
    }
  }

  lemma {:induction false} ScenarioCellsSize(c: string, ss: seq<string>, r: nat)
    ensures |ScenarioCells(c, ss, r)| == |ss| * r
  {
    if ss != [] {
      ScenarioCellsSize(c, ss[..|ss| - 1], r);
      RepetitionsExactly(c, ss[|ss| - 1], r);
      assert (|ss| - 1) * r + r == |ss| * r;
    }
  }

  lemma {:induction false} ScenarioCellsDistinct(c: string, ss: seq<string>, r: nat)
    requires Distinct(ss)
    ensures Distinct(ScenarioCells(c, ss, r))
  {
    if ss != [] {
      var before, s := ss[..|ss| - 1], ss[|ss| - 1];
      ScenarioCellsDistinct(c, before, r);
      RepetitionsExactly(c, s, r);
      forall x | x in ScenarioCells(c, before, r) ensures x !in Repetitions(c, s, r) {
        ScenarioCellsMember(c, before, r, x);
        RepetitionsMember(c, s, r, x);
      }
      DistinctConcat(ScenarioCells(c, before, r), Repetitions(c, s, r));
    }
  }

  /** The design has configurations x scenarios x repetitions places, and no cell twice. */
  lemma {:induction false} DesignDistinct(cs: seq<Configuration>, ss: seq<string>, r: nat)
    ensures |DesignCells(cs, ss, r)| == |cs| * (|ss| * r)
    ensures DistinctConfigurations(cs) && Distinct(ss) ==> Distinct(DesignCells(cs, ss, r))
  {
    if cs != [] {
      var before, c := cs[..|cs| - 1], cs[|cs| - 1].configurationId;
      DesignDistinct(before, ss, r);
      ScenarioCellsSize(c, ss, r);
      assert (|before| + 1) * (|ss| * r) == |before| * (|ss| * r) + |ss| * r;
      if DistinctConfigurations(cs) && Distinct(ss) {
        ScenarioCellsDistinct(c, ss, r);
        forall x | x in DesignCells(before, ss, r) ensures x !in ScenarioCells(c, ss, r) {
          DesignMember(before, ss, r, x);
          ScenarioCellsMember(c, ss, r, x);
        }
        DistinctConcat(DesignCells(before, ss, r), ScenarioCells(c, ss, r));
      }
    }
  }

  // ----- cost -----

  /** The first configuration with the id, plus the evaluator when there is one. */
  function EstimatedCost(m: Manifest, id: string): Option<nat> {
    match SessionCost(m.configurations, id)
    case None => None
    case Some(cost) => Some(cost + match m.evaluatorCost { case None => 0 case Some(extra) => extra })
  }

  function SessionCost(cs: seq<Configuration>, id: string): (r: Option<nat>)
    ensures Configured(cs, id) ==> r.Some?
  {
    if cs == [] then None
    else if cs[0].configurationId == id then Some(cs[0].sessionCost)
    else
      assert forall k :: 0 < k < |cs| ==> cs[k] == cs[1..][k - 1];
      SessionCost(cs[1..], id)
  }

  lemma {:induction false} FirstSessionCost(cs: seq<Configuration>, id: string, k: nat)
    requires k < |cs| && cs[k].configurationId == id
    requires forall j :: 0 <= j < k ==> cs[j].configurationId != id
    ensures SessionCost(cs, id) == Some(cs[k].sessionCost)
  {
    if k > 0 {
      assert forall j :: 0 <= j < k - 1 ==> cs[1..][j] == cs[j + 1];
      FirstSessionCost(cs[1..], id, k - 1);
    }
  }

  lemma {:induction false} NoSessionCost(cs: seq<Configuration>, id: string)
    requires forall j :: 0 <= j < |cs| ==> cs[j].configurationId != id
    ensures SessionCost(cs, id) == None
  {
    if cs != [] {
      NoSessionCost(cs[1..], id);
    }
  }

  /** An estimate is the cost of the configuration, by its first entry, and of the evaluator if one is set. */
  lemma EstimateMeans(m: Manifest, id: string, k: nat)
    requires k < |m.configurations| && m.configurations[k].configurationId == id
    requires forall j :: 0 <= j < k ==> m.configurations[j].configurationId != id
    ensures m.evaluatorCost.None? ==> EstimatedCost(m, id) == Some(m.configurations[k].sessionCost)
    ensures m.evaluatorCost.Some? ==>
              EstimatedCost(m, id) == Some(m.configurations[k].sessionCost + m.evaluatorCost.value)
  {
    FirstSessionCost(m.configurations, id, k);
  }

  /** There is none exactly for a configuration that the manifest does not have. */
  lemma EstimateFailsExactly(m: Manifest, id: string)
    ensures EstimatedCost(m, id).None? <==> forall c :: c in m.configurations ==> c.configurationId != id
  {
    if forall c :: c in m.configurations ==> c.configurationId != id {
      NoSessionCost(m.configurations, id);
    }
  }
}
