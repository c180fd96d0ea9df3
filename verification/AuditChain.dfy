/**
 * The hash-chained audit log. The hash of an event's canonical content is a parameter; statements
 * about tampering end in "or two of the contents hashed in these very logs share a hash".
 */
module AuditChain {
  import opened Prelude

  /** A digest of 64 hexadecimal digits, as the number it writes; sixty-four zeros are 0. */
  type Digest = nat

  datatype Content = Content(sequence: int, eventType: string, actorId: string, caseId: string, payload: string,
                             previousHash: Digest)

  datatype AuditEvent = AuditEvent(
    sequence: int, eventType: string, actorId: string, caseId: string, payload: string,
    previousHash: Digest, eventHash: Digest)

  const GENESIS: Digest := 0

  type Hash = Content -> Digest

  /** Two different contents with one hash. */
  predicate Clash(h: Hash, x: Content, y: Content) {
    x != y && h(x) == h(y)
  }

  /** The content hashed for an event that follows the hash `previous`. */
  function ContentOf(e: AuditEvent, previous: Digest): Content {
    Content(e.sequence, e.eventType, e.actorId, e.caseId, e.payload, previous)
  }

  predicate Bad(h: Hash, e: AuditEvent, previous: Digest) {
    e.previousHash != previous || e.eventHash != h(ContentOf(e, previous))
  }

  function BySequence(): (AuditEvent, AuditEvent) -> bool {
    (a: AuditEvent, b: AuditEvent) => a.sequence <= b.sequence
  }

  /** The sequence numbers reported for events already in order, after a given hash. */
  function Reported(h: Hash, events: seq<AuditEvent>, previous: Digest): seq<int> {
    if events == [] then [] else
      var n := |events| - 1;
      Reported(h, events[..n], previous)
      + if Bad(h, events[n], HashBefore(events, n, previous)) then [events[n].sequence] else []
  }

  function HashBefore(events: seq<AuditEvent>, i: nat, previous: Digest): Digest
    requires i <= |events|
  {
    if i == 0 then previous else events[i - 1].eventHash
  }

  /** The content that was hashed for the i-th event. */
  function ContentAt(events: seq<AuditEvent>, i: nat): Content
    requires i < |events|
  {
    ContentOf(events[i], HashBefore(events, i, GENESIS))
  }

  /** Some content of the one log and some content of the other clash. */
  ghost predicate Collision(h: Hash, a: seq<AuditEvent>, b: seq<AuditEvent>) {
    exists i, j :: 0 <= i < |a| && 0 <= j < |b| && Clash(h, ContentAt(a, i), ContentAt(b, j))
  }

  /** Some content of the log hashes to the genesis value. */
  ghost predicate GenesisPreimage(h: Hash, a: seq<AuditEvent>) {
    exists i :: 0 <= i < |a| && h(ContentAt(a, i)) == GENESIS
  }

  function EndHash(events: seq<AuditEvent>): Digest {
    HashBefore(events, |events|, GENESIS)
  }

  function Invalid(h: Hash, events: seq<AuditEvent>): seq<int> {
    Reported(h, Sort(events, BySequence()), GENESIS)
  }

  predicate LinkAt(h: Hash, events: seq<AuditEvent>, i: nat)
    requires i < |events|
  {
    !Bad(h, events[i], HashBefore(events, i, GENESIS))
  }

  /** Every event names the hash before it and carries the hash of its own content. */
  ghost predicate Linked(h: Hash, events: seq<AuditEvent>) {
    forall i :: 0 <= i < |events| ==> LinkAt(h, events, i)
  }

  lemma PrefixLinked(h: Hash, a: seq<AuditEvent>, n: nat)
    requires n <= |a|
    ensures EndHash(a[..n]) == HashBefore(a, n, GENESIS)
    ensures forall i :: 0 <= i < n ==> (LinkAt(h, a[..n], i) <==> LinkAt(h, a, i))
    ensures Linked(h, a) ==> Linked(h, a[..n])
  {
    assert forall i :: 0 <= i <= n ==> HashBefore(a[..n], i, GENESIS) == HashBefore(a, i, GENESIS);
  }

  method VerifyChain(h: Hash, events: seq<AuditEvent>) returns (invalid: seq<int>)
    ensures invalid == Invalid(h, events)
  {
    invalid := [];
    var previous := GENESIS;
    var ordered := Sort(events, BySequence());
    for i := 0 to |ordered|
      invariant previous == HashBefore(ordered, i, GENESIS)
      invariant invalid == Reported(h, ordered[..i], GENESIS)
    {
      var event := ordered[i];
      var expected := h(ContentOf(event, previous));
      assert ordered[..i + 1][..i] == ordered[..i];
      if event.previousHash != previous || event.eventHash != expected {
        invalid := invalid + [event.sequence];
      }
      previous := event.eventHash;
    }
    assert ordered[..|ordered|] == ordered;
  }

  /** Nothing is reported exactly when the events form one chain from the genesis hash. */
  lemma {:induction false} ReportedNothing(h: Hash, events: seq<AuditEvent>)
    ensures Reported(h, events, GENESIS) == [] <==> Linked(h, events)
  {
    if events != [] {
      var n := |events| - 1;
      ReportedNothing(h, events[..n]);
      PrefixLinked(h, events, n);
      assert LinkAt(h, events, n) <==> !Bad(h, events[n], HashBefore(events, n, GENESIS));
      if Linked(h, events[..n]) && LinkAt(h, events, n) {
        assert forall i :: 0 <= i < n ==> LinkAt(h, events[..n], i);
      }
    }
  }

  /**
   * Event i of an ordered log breaks the chain: it names another hash than the one before it, or carries a
   * wrong one.
   */
  predicate Breaks(h: Hash, ordered: seq<AuditEvent>, i: int) {
    0 <= i < |ordered|
    && var e, before := ordered[i], if i == 0 then 0 else ordered[i - 1].eventHash;
    || e.previousHash != before
    || e.eventHash != h(Content(e.sequence, e.eventType, e.actorId, e.caseId, e.payload, before))
  }

  lemma {:induction false} ReportedExactly(h: Hash, ordered: seq<AuditEvent>, x: int)
    ensures x in Reported(h, ordered, GENESIS) <==> exists i :: Breaks(h, ordered, i) && ordered[i].sequence == x
  {
    if ordered != [] {
      var n := |ordered| - 1;
      ReportedExactly(h, ordered[..n], x);
      forall i | 0 <= i < n ensures Breaks(h, ordered[..n], i) <==> Breaks(h, ordered, i) {
      }
      assert Breaks(h, ordered, n) <==> Bad(h, ordered[n], HashBefore(ordered, n, GENESIS));
    }
  }

  /** The same events by increasing number; events of one number stay in the order they were presented in. */
  ghost predicate InSequence(events: seq<AuditEvent>, ordered: seq<AuditEvent>) {
    && multiset(ordered) == multiset(events)
    && (forall i, j :: 0 <= i < j < |ordered| ==> ordered[i].sequence <= ordered[j].sequence)
    && forall n :: Filter(ordered, Numbered(n)) == Filter(events, Numbered(n))
  }

  function Numbered(n: int): AuditEvent -> bool {
    (e: AuditEvent) => e.sequence == n
  }

  /** A number is reported exactly when, in sequence, some event of that number breaks the chain. */
  lemma InvalidExactly(h: Hash, events: seq<AuditEvent>, x: int) returns (ordered: seq<AuditEvent>)
    ensures InSequence(events, ordered)
    ensures x in Invalid(h, events) <==> exists i :: Breaks(h, ordered, i) && ordered[i].sequence == x
  {
    ordered := Sort(events, BySequence());
    SortSorts(events, BySequence());
    forall i, j | 0 <= i < j < |ordered| ensures ordered[i].sequence <= ordered[j].sequence {
      assert BySequence()(ordered[i], ordered[j]);
    }
    forall n ensures Filter(ordered, Numbered(n)) == Filter(events, Numbered(n)) {
      SortStable(events, BySequence(), Numbered(n));
    }
    ReportedExactly(h, ordered, x);
  }

  // ----- building the log -----

  datatype Call = Call(eventType: string, actorId: string, caseId: string, payload: string)

  function Append(h: Hash, events: seq<AuditEvent>, c: Call): seq<AuditEvent> {
    var previous := EndHash(events);
    var content := Content(|events| + 1, c.eventType, c.actorId, c.caseId, c.payload, previous);
    events + [AuditEvent(|events| + 1, c.eventType, c.actorId, c.caseId, c.payload, previous, h(content))]
  }

  function Build(h: Hash, calls: seq<Call>): seq<AuditEvent> {
    if calls == [] then [] else Append(h, Build(h, calls[..|calls| - 1]), calls[|calls| - 1])
  }

  /** A log as `audit` leaves it: linked, and numbered from one without gaps. */
  ghost predicate WellBuilt(h: Hash, events: seq<AuditEvent>) {
    Linked(h, events) && forall i :: 0 <= i < |events| ==> events[i].sequence == i + 1
  }

  lemma AppendKeeps(h: Hash, events: seq<AuditEvent>, c: Call)
    requires WellBuilt(h, events)
    ensures WellBuilt(h, Append(h, events, c))
  {
    var r := Append(h, events, c);
    assert r[..|events|] == events;
    PrefixLinked(h, r, |events|);
    assert LinkAt(h, r, |events|);
  }

  /** A call adds one event at the end: its own data under the next number, linked to the event before. */
  lemma AppendMeans(h: Hash, events: seq<AuditEvent>, c: Call)
    ensures var r, n := Append(h, events, c), |events|;
            && |r| == n + 1 && r[..n] == events && r[n].sequence == n + 1
            && r[n].eventType == c.eventType && r[n].actorId == c.actorId && r[n].caseId == c.caseId
            && r[n].payload == c.payload && r[n].previousHash == (if n == 0 then 0 else events[n - 1].eventHash)
            && r[n].eventHash == h(Content(n + 1, c.eventType, c.actorId, c.caseId, c.payload, r[n].previousHash))
  {
  }

  lemma {:induction false} BuildsWell(h: Hash, calls: seq<Call>)
    ensures WellBuilt(h, Build(h, calls)) && |Build(h, calls)| == |calls|
  {
    if calls != [] {
      BuildsWell(h, calls[..|calls| - 1]);
      AppendKeeps(h, Build(h, calls[..|calls| - 1]), calls[|calls| - 1]);
    }
  }

  /** Increasing sequence numbers make the sorted presentation unique. */
  lemma SortsBack(events: seq<AuditEvent>, presented: seq<AuditEvent>)
    requires multiset(presented) == multiset(events)
    requires forall i, j :: 0 <= i < j < |events| ==> events[i].sequence < events[j].sequence
    ensures Sort(presented, BySequence()) == events
  {
    SortSorts(presented, BySequence());
    SortedUnique(events, Sort(presented, BySequence()), BySequence());
  }

  /** Whatever is logged, and however it is presented, an untouched log verifies. */
  lemma BuiltLogVerifies(h: Hash, calls: seq<Call>, presented: seq<AuditEvent>)
    requires multiset(presented) == multiset(Build(h, calls))
    ensures Invalid(h, presented) == []
  {
    BuildsWell(h, calls);
    SortsBack(Build(h, calls), presented);
    ReportedNothing(h, Build(h, calls));
  }

  // ----- what verification excludes -----

  lemma PrefixContents(a: seq<AuditEvent>, n: nat)
    requires n <= |a|
    ensures forall i :: 0 <= i < n ==> ContentAt(a[..n], i) == ContentAt(a, i)
  {
    assert forall i :: 0 <= i <= n ==> HashBefore(a[..n], i, GENESIS) == HashBefore(a, i, GENESIS);
  }

  /** What is found in prefixes is found in the whole logs. */
  lemma PrefixCollision(h: Hash, a: seq<AuditEvent>, m: nat, b: seq<AuditEvent>, n: nat)
    requires m <= |a| && n <= |b|
    ensures Collision(h, a[..m], b[..n]) ==> Collision(h, a, b)
    ensures GenesisPreimage(h, a[..m]) ==> GenesisPreimage(h, a)
  {
    PrefixContents(a, m);
    PrefixContents(b, n);
    if Collision(h, a[..m], b[..n]) {
      var i, j :| 0 <= i < m && 0 <= j < n && Clash(h, ContentAt(a[..m], i), ContentAt(b[..n], j));
      assert Clash(h, ContentAt(a, i), ContentAt(b, j));
    }
    if GenesisPreimage(h, a[..m]) {
      var i :| 0 <= i < m && h(ContentAt(a[..m], i)) == GENESIS;
      assert h(ContentAt(a, i)) == GENESIS;
    }
  }

  /** The last content of a chain that ends in the genesis value is a preimage of it. */
  lemma EndsInGenesis(h: Hash, a: seq<AuditEvent>)
    requires Linked(h, a) && a != [] && EndHash(a) == GENESIS
    ensures GenesisPreimage(h, a)
  {
    assert LinkAt(h, a, |a| - 1) && h(ContentAt(a, |a| - 1)) == GENESIS;
  }

  /** The logs are the same, or contents of theirs share a hash or hash to the genesis value. */
  ghost predicate AgreeOrClash(h: Hash, a: seq<AuditEvent>, b: seq<AuditEvent>) {
    a == b || Collision(h, a, b) || GenesisPreimage(h, a) || GenesisPreimage(h, b)
  }

  lemma SameEvent(h: Hash, a: seq<AuditEvent>, m: nat, b: seq<AuditEvent>, n: nat)
    requires m < |a| && n < |b| && LinkAt(h, a, m) && LinkAt(h, b, n) && ContentAt(a, m) == ContentAt(b, n)
    ensures a[m] == b[n] && HashBefore(a, m, GENESIS) == HashBefore(b, n, GENESIS)
  {
  }

  lemma AgreementGrows(h: Hash, a: seq<AuditEvent>, b: seq<AuditEvent>)
    requires a != [] && b != [] && a[|a| - 1] == b[|b| - 1]
    requires AgreeOrClash(h, a[..|a| - 1], b[..|b| - 1])
    ensures AgreeOrClash(h, a, b)
  {
    var m, n := |a| - 1, |b| - 1;
    PrefixCollision(h, a, m, b, n);
    PrefixCollision(h, b, n, a, m);
    assert a == a[..m] + [a[m]] && b == b[..n] + [b[n]];
  }

  lemma OneIsEmpty(h: Hash, a: seq<AuditEvent>, b: seq<AuditEvent>)
    requires Linked(h, a) && Linked(h, b) && EndHash(a) == EndHash(b) && (a == [] || b == [])
    ensures AgreeOrClash(h, a, b)
  {
    if a != [] {
      EndsInGenesis(h, a);
    } else if b != [] {
      EndsInGenesis(h, b);
    }
  }

  /**
   * Two verified chains with one end hash are the same chain, or a content of the one and a content
   * of the other are exhibited that share a hash, or a content that hashes to the genesis value.
   */
  lemma {:induction false} LinkedChainsAgree(h: Hash, a: seq<AuditEvent>, b: seq<AuditEvent>)
    requires Linked(h, a) && Linked(h, b) && EndHash(a) == EndHash(b)
    ensures AgreeOrClash(h, a, b)
    decreases |a|
  {
    if a == [] || b == [] {
      OneIsEmpty(h, a, b);
    } else {
      var m, n := |a| - 1, |b| - 1;
      assert LinkAt(h, a, m) && LinkAt(h, b, n) && h(ContentAt(a, m)) == h(ContentAt(b, n));
      if ContentAt(a, m) == ContentAt(b, n) {
        SameEvent(h, a, m, b, n);
        PrefixLinked(h, a, m);
        PrefixLinked(h, b, n);
        LinkedChainsAgree(h, a[..m], b[..n]);
        AgreementGrows(h, a, b);
      } else {
        assert Clash(h, ContentAt(a, m), ContentAt(b, n));
      }
    }
  }

  lemma VerifiedLogsAgree(h: Hash, a: seq<AuditEvent>, b: seq<AuditEvent>)
    requires Invalid(h, a) == [] && Invalid(h, b) == []
    requires EndHash(Sort(a, BySequence())) == EndHash(Sort(b, BySequence()))
    ensures var x, y := Sort(a, BySequence()), Sort(b, BySequence());
            multiset(a) == multiset(b) || Collision(h, x, y) || GenesisPreimage(h, x) || GenesisPreimage(h, y)
  {
    ReportedNothing(h, Sort(a, BySequence()));
    ReportedNothing(h, Sort(b, BySequence()));
    LinkedChainsAgree(h, Sort(a, BySequence()), Sort(b, BySequence()));
    SortSorts(a, BySequence());
    SortSorts(b, BySequence());
  }

  // ----- deletion -----

  ghost predicate Picks(kept: seq<nat>, n: nat) {
    && (forall i, j :: 0 <= i < j < |kept| ==> kept[i] < kept[j])
    && (forall i :: 0 <= i < |kept| ==> kept[i] < n)
  }

  function Pick(events: seq<AuditEvent>, kept: seq<nat>): (r: seq<AuditEvent>)
    requires forall i :: 0 <= i < |kept| ==> kept[i] < |events|
  {
    seq(|kept|, i requires 0 <= i < |kept| => events[kept[i]])
  }

  lemma EqualHashesClash(h: Hash, events: seq<AuditEvent>, i: nat, j: nat)
    requires WellBuilt(h, events) && i < j <= |events|
    requires HashBefore(events, i, GENESIS) == HashBefore(events, j, GENESIS)
    ensures Collision(h, events, events) || GenesisPreimage(h, events)
  {
    assert LinkAt(h, events, j - 1);
    if i == 0 {
      assert h(ContentAt(events, j - 1)) == GENESIS;
    } else {
      assert LinkAt(h, events, i - 1);
      assert Clash(h, ContentAt(events, i - 1), ContentAt(events, j - 1));
    }
  }

  lemma {:induction false} LinkedPickIsPrefix(h: Hash, events: seq<AuditEvent>, kept: seq<nat>)
    requires WellBuilt(h, events) && Picks(kept, |events|) && Linked(h, Pick(events, kept))
    ensures (forall i :: 0 <= i < |kept| ==> kept[i] == i) || Collision(h, events, events) || GenesisPreimage(h, events)
  {
    if kept != [] {
      var n := |kept| - 1;
      var front := kept[..n];
      assert Pick(events, kept)[..n] == Pick(events, front);
      PrefixLinked(h, Pick(events, kept), n);
      LinkedPickIsPrefix(h, events, front);
      if forall i :: 0 <= i < n ==> front[i] == i {
        assert forall i :: 0 <= i < n ==> kept[i] == front[i] == i;
        assert n <= kept[n];
        assert LinkAt(h, Pick(events, kept), n) && LinkAt(h, events, kept[n]);
        assert HashBefore(events, n, GENESIS) == HashBefore(events, kept[n], GENESIS);
        if n < kept[n] {
          EqualHashesClash(h, events, n, kept[n]);
        }
      }
    }
  }

  lemma LinkedPickIsSuffixCut(h: Hash, events: seq<AuditEvent>, kept: seq<nat>)
    requires WellBuilt(h, events) && Picks(kept, |events|) && |kept| <= |events| && Linked(h, Pick(events, kept))
    ensures || Pick(events, kept) == events[..|kept|]
            || Collision(h, events, events) || GenesisPreimage(h, events)
  {
    LinkedPickIsPrefix(h, events, kept);
    if forall i :: 0 <= i < |kept| ==> kept[i] == i {
      assert Pick(events, kept) == events[..|kept|];
    }
  }

  /**
   * After deleting any events of a log, in whatever order the rest is presented, verification
   * accepts the rest if what was deleted is a suffix, and only then: otherwise two contents of the
   * log are exhibited that share a hash, or one that hashes to the genesis value.
   */
  lemma DeletionIsReported(h: Hash, calls: seq<Call>, kept: seq<nat>, presented: seq<AuditEvent>)
    requires Picks(kept, |Build(h, calls)|)
    requires multiset(presented) == multiset(Pick(Build(h, calls), kept))
    ensures |kept| <= |Build(h, calls)|
    ensures Pick(Build(h, calls), kept) == Build(h, calls)[..|kept|] ==> Invalid(h, presented) == []
    ensures Invalid(h, presented) == [] ==>
              || Pick(Build(h, calls), kept) == Build(h, calls)[..|kept|]
              || Collision(h, Build(h, calls), Build(h, calls))
              || GenesisPreimage(h, Build(h, calls))
  {
    var events := Build(h, calls);
    BuildsWell(h, calls);
    PicksFit(kept, |events|);
    var rest := Pick(events, kept);
    SortsBack(rest, presented);
    ReportedNothing(h, rest);
    if Linked(h, rest) {
      LinkedPickIsSuffixCut(h, events, kept);
    }
    PrefixLinked(h, events, |kept|);
  }

  lemma {:induction false} PicksFit(kept: seq<nat>, n: nat)
    requires Picks(kept, n)
    ensures |kept| <= n
  {
    if kept != [] {
      PicksFit(kept[..|kept| - 1], kept[|kept| - 1]);
    }
  }

  // ----- alteration -----

  lemma AlteredIsBad(h: Hash, events: seq<AuditEvent>, k: nat, altered: AuditEvent)
    requires k < |events| && LinkAt(h, events, k) && altered.sequence == events[k].sequence
    requires altered.previousHash == events[k].previousHash && altered.eventHash == events[k].eventHash
    ensures Bad(h, altered, HashBefore(events, k, GENESIS)) <==>
            altered != events[k] && !Clash(h, ContentAt(events[k := altered], k), ContentAt(events, k))
  {
    assert HashBefore(events[k := altered], k, GENESIS) == HashBefore(events, k, GENESIS);
  }

  lemma {:induction false} ReportedAltered(h: Hash, events: seq<AuditEvent>, forged: seq<AuditEvent>, k: nat, n: nat)
    requires WellBuilt(h, events) && k < |events| == |forged| && n <= |events|
    requires forged == events[k := forged[k]] && forged[k].eventHash == events[k].eventHash
             && forged[k].sequence == k + 1
    ensures Reported(h, forged[..n], GENESIS) ==
            if k < n && Bad(h, forged[k], HashBefore(events, k, GENESIS)) then [k + 1] else []
  {
    if n != 0 {
      ReportedAltered(h, events, forged, k, n - 1);
      assert forged[..n][..n - 1] == forged[..n - 1];
      assert HashBefore(forged[..n], n - 1, GENESIS) == HashBefore(events, n - 1, GENESIS);
      if n - 1 != k {
        assert LinkAt(h, events, n - 1);
      }
    }
  }

  lemma InvalidAltered(h: Hash, events: seq<AuditEvent>, forged: seq<AuditEvent>, k: nat)
    requires WellBuilt(h, events) && k < |events| == |forged|
    requires forged == events[k := forged[k]] && forged[k].eventHash == events[k].eventHash
             && forged[k].sequence == k + 1
    ensures Invalid(h, forged) == if Bad(h, forged[k], HashBefore(events, k, GENESIS)) then [k + 1] else []
  {
    SortsBack(forged, forged);
    ReportedAltered(h, events, forged, k, |events|);
    assert forged[..|events|] == forged;
  }

  /**
   * Changing what one event says, while keeping its number and hashes, is reported at its number and
   * nowhere else, exactly unless nothing changed or the new content has the hash of the old one.
   */
  lemma AlterationIsReported(h: Hash, calls: seq<Call>, k: nat, altered: AuditEvent)
    requires k < |Build(h, calls)|
    requires var e := Build(h, calls)[k];
             altered.sequence == e.sequence && altered.previousHash == e.previousHash
                 && altered.eventHash == e.eventHash
    ensures var events := Build(h, calls);
            Invalid(h, events[k := altered]) ==
            if altered == events[k] || Clash(h, ContentAt(events[k := altered], k), ContentAt(events, k)) then []
              else [k + 1]
  {
    var events := Build(h, calls);
    BuildsWell(h, calls);
    AlteredIsBad(h, events, k, altered);
    InvalidAltered(h, events, events[k := altered], k);
  }
}
