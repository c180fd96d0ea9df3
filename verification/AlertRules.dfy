/** The deterministic monitoring rules over the transactions of one customer. */
module AlertRules {
  import opened Prelude

  const HOUR: int := 3600
  const DAY: int := 24 * HOUR

  datatype Transaction = Transaction(
    transactionId: string, accountId: string, customerId: string, bookedAt: int, amount: real,
    direction: string, description: string)

  datatype Alert = Alert(alertId: string, customerId: string, ruleId: string, causalIds: seq<string>, createdAt: int)

  ghost predicate Positive(s: seq<Transaction>) {
    forall i :: 0 <= i < |s| ==> s[i].amount > 0.0
  }

  function Total(s: seq<Transaction>): real {
    if s == [] then 0.0 else s[0].amount + Total(s[1..])
  }

  function Ids(s: seq<Transaction>): (r: seq<string>)
    ensures |r| == |s| && forall i :: 0 <= i < |s| ==> r[i] == s[i].transactionId
  {
    if s == [] then [] else [s[0].transactionId] + Ids(s[1..])
  }

  function LastBooked(s: seq<Transaction>): (t: int)
    requires s != []
    ensures forall i :: 0 <= i < |s| ==> s[i].bookedAt <= t
    ensures exists i :: 0 <= i < |s| && s[i].bookedAt == t
  {
    if |s| == 1 then s[0].bookedAt
    else
      var t := LastBooked(s[1..]);
      assert exists i :: 0 <= i < |s[1..]| && s[1..][i].bookedAt == t && s[i + 1].bookedAt == t;
      if s[0].bookedAt > t then s[0].bookedAt else t
  }

  function ByTime(): (Transaction, Transaction) -> bool {
    (a: Transaction, b: Transaction) => a.bookedAt <= b.bookedAt
  }

  // ----- the rules -----

  function OfCustomer(c: string): Transaction -> bool {
    (x: Transaction) => x.customerId == c
  }

  function StructuringCredit(c: string): Transaction -> bool {
    (x: Transaction) => x.customerId == c && x.direction == "credit" && 1000.0 <= x.amount < 10000.0
  }

  function Within(lo: int, hi: int): Transaction -> bool {
    (x: Transaction) => lo <= x.bookedAt <= hi
  }

  function DebitWithin(lo: int, hi: int): Transaction -> bool {
    (x: Transaction) => x.direction == "debit" && lo <= x.bookedAt <= hi
  }

  /** The selected transactions in booking order. */
  function Ordered(transactions: seq<Transaction>, keep: Transaction -> bool): seq<Transaction> {
    Sort(Filter(transactions, keep), ByTime())
  }

  function ExpectedActivityVariance(c: string, transactions: seq<Transaction>): Option<Alert> {
    var relevant := Ordered(transactions, OfCustomer(c));
    if relevant == [] then None
    else
      var latest := relevant[|relevant| - 1];
      Some(Alert("ALT-EAV-" + c, c, "EXPECTED_ACTIVITY_VARIANCE", [latest.transactionId], latest.bookedAt + 1))
  }

  /** The credits from the i-th on that lie within seven days of it. */
  function WindowFrom(credits: seq<Transaction>, i: nat): seq<Transaction>
    requires i < |credits|
  {
    Filter(credits[i..], Within(credits[i].bookedAt, credits[i].bookedAt + 7 * DAY))
  }

  predicate Heavy(window: seq<Transaction>) {
    |window| >= 5 && Total(window) >= 20000.0
  }

  function FirstHeavy(credits: seq<Transaction>, i: nat): (r: Option<nat>)
    requires i <= |credits|
    ensures r.Some? ==> i <= r.value < |credits| && Heavy(WindowFrom(credits, r.value))
    ensures forall j :: i <= j < (if r.Some? then r.value else |credits|) ==> !Heavy(WindowFrom(credits, j))
    decreases |credits| - i
  {
    if i == |credits| then None
    else if Heavy(WindowFrom(credits, i)) then Some(i)
    else FirstHeavy(credits, i + 1)
  }

  function StructuringWindow(c: string, transactions: seq<Transaction>): Option<seq<Transaction>> {
    var credits := Ordered(transactions, StructuringCredit(c));
    match FirstHeavy(credits, 0)
    case None => None
    case Some(i) => Some(WindowFrom(credits, i))
  }

  function StructuringLike(c: string, transactions: seq<Transaction>): Option<Alert> {
    match StructuringWindow(c, transactions)
    case None => None
    case Some(window) =>
      if window == [] then None
      else Some(Alert("ALT-STR-" + c, c, "STRUCTURING_LIKE_REPEATED_CREDITS", Ids(window), LastBooked(window) + 1))
  }

  predicate LargeCredit(x: Transaction) {
    x.direction == "credit" && x.amount >= 5000.0
  }

  function Outgoing(ordered: seq<Transaction>, incoming: Transaction): seq<Transaction> {
    Filter(ordered, DebitWithin(incoming.bookedAt, incoming.bookedAt + 3 * DAY))
  }

  predicate MovedOut(ordered: seq<Transaction>, incoming: Transaction) {
    LargeCredit(incoming) && Total(Outgoing(ordered, incoming)) >= incoming.amount * 0.80
  }

  function FirstMovedOut(ordered: seq<Transaction>, i: nat): (r: Option<nat>)
    requires i <= |ordered|
    ensures r.Some? ==> i <= r.value < |ordered| && MovedOut(ordered, ordered[r.value])
    ensures forall j :: i <= j < (if r.Some? then r.value else |ordered|) ==> !MovedOut(ordered, ordered[j])
    decreases |ordered| - i
  {
    if i == |ordered| then None
    else if MovedOut(ordered, ordered[i]) then Some(i)
    else FirstMovedOut(ordered, i + 1)
  }

  function RapidFundsMovement(c: string, transactions: seq<Transaction>): Option<Alert> {
    var ordered := Ordered(transactions, OfCustomer(c));
    match FirstMovedOut(ordered, 0)
    case None => None
    case Some(i) =>
      var causal := [ordered[i]] + Outgoing(ordered, ordered[i]);
      Some(Alert("ALT-RFM-" + c, c, "RAPID_FUNDS_MOVEMENT", Ids(causal), LastBooked(causal) + 1))
  }

  /** The rule table; the outer None stands for an unknown rule id. */
  function Rule(ruleId: string, c: string, transactions: seq<Transaction>): Option<Option<Alert>> {
    if ruleId == "EXPECTED_ACTIVITY_VARIANCE" then Some(ExpectedActivityVariance(c, transactions))
    else if ruleId == "RAPID_FUNDS_MOVEMENT" then Some(RapidFundsMovement(c, transactions))
    else if ruleId == "STRUCTURING_LIKE_REPEATED_CREDITS" then Some(StructuringLike(c, transactions))
    else None
  }

  // ----- sub-collections -----

  lemma {:induction false} TotalRemove(b: seq<Transaction>, j: nat)
    requires j < |b|
    ensures Total(b) == b[j].amount + Total(b[..j] + b[j + 1..])
  {
    if j == 0 {
      assert b[..0] + b[1..] == b[1..];
    } else {
      TotalRemove(b[1..], j - 1);
      assert b[1..][..j - 1] + b[1..][j..] == (b[..j] + b[j + 1..])[1..];
    }
  }

  lemma RemoveOne(a: seq<Transaction>, b: seq<Transaction>) returns (j: nat)
    requires a != [] && multiset(a) <= multiset(b)
    ensures j < |b| && b[j] == a[0]
    ensures multiset(a[1..]) <= multiset(b[..j] + b[j + 1..])
  {
    assert a == [a[0]] + a[1..];
    assert a[0] in multiset(a) && a[0] in multiset(b);
    j :| 0 <= j < |b| && b[j] == a[0];
    var rest := b[..j] + b[j + 1..];
    assert b == b[..j] + [b[j]] + b[j + 1..];
    assert multiset(b) == multiset(rest) + multiset{a[0]};
    forall x ensures multiset(a[1..])[x] <= multiset(rest)[x] {
      assert multiset(a)[x] == multiset(a[1..])[x] + multiset{a[0]}[x];
      assert multiset(a)[x] <= multiset(b)[x];
    }
  }

  /** Fewer positive transactions have a smaller count and a smaller total. */
  lemma {:induction false} SubTotal(a: seq<Transaction>, b: seq<Transaction>)
    requires multiset(a) <= multiset(b) && Positive(b)
    ensures |a| <= |b| && Total(a) <= Total(b)
    decreases |b|
  {
    if a == [] {
      TotalPositive(b);
    } else {
      var j := RemoveOne(a, b);
      SubTotal(a[1..], b[..j] + b[j + 1..]);
      TotalRemove(b, j);
    }
  }

  lemma {:induction false} TotalPositive(b: seq<Transaction>)
    requires Positive(b)
    ensures 0.0 <= Total(b)
  {
    if b != [] {
      TotalPositive(b[1..]);
    }
  }

  lemma SubPositive(a: seq<Transaction>, b: seq<Transaction>)
    requires multiset(a) <= multiset(b) && Positive(b)
    ensures Positive(a)
  {
    forall i | 0 <= i < |a| ensures a[i].amount > 0.0 {
      assert a[i] in multiset(a) && a[i] in multiset(b);
    }
  }

  /** `part` holds exactly the occurrences in `s` of the transactions that `keep` accepts. */
  ghost predicate Selects(part: seq<Transaction>, s: seq<Transaction>, keep: Transaction -> bool) {
    forall x :: multiset(part)[x] == if keep(x) then multiset(s)[x] else 0
  }

  lemma FilterSelects(s: seq<Transaction>, keep: Transaction -> bool)
    ensures Selects(Filter(s, keep), s, keep)
  {
    forall x ensures multiset(Filter(s, keep))[x] == if keep(x) then multiset(s)[x] else 0 {
      FilterCounts(s, keep, x);
    }
  }

  lemma OrderedSelects(s: seq<Transaction>, keep: Transaction -> bool)
    ensures Selects(Ordered(s, keep), s, keep) && SortedBy(Ordered(s, keep), ByTime())
  {
    FilterSelects(s, keep);
    SortSorts(Filter(s, keep), ByTime());
  }

  lemma SelectedPositive(part: seq<Transaction>, s: seq<Transaction>, keep: Transaction -> bool)
    requires Positive(s) && Selects(part, s, keep)
    ensures Positive(part) && multiset(part) <= multiset(s)
  {
    SubPositive(part, s);
  }

  // ----- structuring: exactly the seven-day windows, wherever they start -----

  function InWindow(c: string, t: int): Transaction -> bool {
    (x: Transaction) => StructuringCredit(c)(x) && t <= x.bookedAt <= t + 7 * DAY
  }

  /** Some seven-day window, starting at any time, holds five in-range credits of 20000 together. */
  ghost predicate HeavyWeek(c: string, transactions: seq<Transaction>) {
    exists t :: Heavy(Filter(transactions, InWindow(c, t)))
  }

  lemma WindowIsWeek(c: string, transactions: seq<Transaction>, credits: seq<Transaction>, i: nat,
                     week: seq<Transaction>)
    requires i < |credits| && Selects(credits, transactions, StructuringCredit(c))
    requires Selects(week, transactions, InWindow(c, credits[i].bookedAt))
    ensures multiset(WindowFrom(credits, i)) <= multiset(week)
  {
    FilterSelects(credits[i..], Within(credits[i].bookedAt, credits[i].bookedAt + 7 * DAY));
    assert credits == credits[..i] + credits[i..];
  }

  lemma FirstAtOrAfter(credits: seq<Transaction>, t: int, k: nat) returns (i: nat)
    requires k < |credits| && credits[k].bookedAt >= t
    ensures i <= k && credits[i].bookedAt >= t && forall j :: 0 <= j < i ==> credits[j].bookedAt < t
  {
    i := 0;
    while credits[i].bookedAt < t
      invariant i <= k && forall j :: 0 <= j < i ==> credits[j].bookedAt < t
      decreases k - i
    {
      i := i + 1;
    }
  }

  /** The first credit at or after t opens a window that holds the whole week starting at t. */
  lemma WeekIsWindow(c: string, transactions: seq<Transaction>, credits: seq<Transaction>, t: int,
                     week: seq<Transaction>)
    returns (i: nat)
    requires Selects(credits, transactions, StructuringCredit(c)) && SortedBy(credits, ByTime())
    requires Selects(week, transactions, InWindow(c, t)) && week != []
    ensures i < |credits| && multiset(week) <= multiset(WindowFrom(credits, i))
    ensures credits[i].bookedAt >= t && forall j :: 0 <= j < i ==> credits[j].bookedAt < t
  {
    var w := week[0];
    assert w in multiset(week) && w in multiset(credits);
    var k :| 0 <= k < |credits| && credits[k] == w;
    i := FirstAtOrAfter(credits, t, k);
    FilterSelects(credits[i..], Within(credits[i].bookedAt, credits[i].bookedAt + 7 * DAY));
    forall x ensures multiset(week)[x] <= multiset(WindowFrom(credits, i))[x] {
      if InWindow(c, t)(x) {
        WeekElement(c, credits, t, i, x);
      }
    }
  }

  lemma WeekElement(c: string, credits: seq<Transaction>, t: int, i: nat, x: Transaction)
    requires SortedBy(credits, ByTime()) && i < |credits| && credits[i].bookedAt >= t && InWindow(c, t)(x)
    requires forall j :: 0 <= j < i ==> credits[j].bookedAt < t
    ensures multiset(credits[i..])[x] == multiset(credits)[x]
    ensures x in credits[i..] ==> Within(credits[i].bookedAt, credits[i].bookedAt + 7 * DAY)(x)
  {
    assert credits == credits[..i] + credits[i..];
    assert x !in credits[..i];
    if x in credits[i..] {
      var j :| 0 <= j < |credits[i..]| && credits[i..][j] == x;
      assert credits[i + j] == x;
      assert j > 0 ==> ByTime()(credits[i], credits[i + j]);
    }
  }

  /**
   * The rule fires if and only if some seven-day window, starting at any time at all, is heavy,
   * and what it reports is such a window.
   */
  lemma StructuringFiresExactly(c: string, transactions: seq<Transaction>)
    requires Positive(transactions)
    ensures StructuringLike(c, transactions).Some? <==> HeavyWeek(c, transactions)
    ensures StructuringWindow(c, transactions).Some? ==>
              var window := StructuringWindow(c, transactions).value;
              && Heavy(window) && multiset(window) <= multiset(transactions)
              && (exists t :: forall x :: x in window ==> InWindow(c, t)(x))
              && StructuringLike(c, transactions).value.causalIds == Ids(window)
  {
    OrderedSelects(transactions, StructuringCredit(c));
    var credits := Ordered(transactions, StructuringCredit(c));
    var first := FirstHeavy(credits, 0);
    if first.Some? {
      FiringIsHeavy(c, transactions, credits, first.value);
    } else if HeavyWeek(c, transactions) {
      var t :| Heavy(Filter(transactions, InWindow(c, t)));
      NoFiringIsLight(c, transactions, credits, t);
      assert false;
    }
  }

  lemma FiringIsHeavy(c: string, transactions: seq<Transaction>, credits: seq<Transaction>, i: nat)
    requires Positive(transactions) && Selects(credits, transactions, StructuringCredit(c))
    requires i < |credits| && Heavy(WindowFrom(credits, i))
    ensures HeavyWeek(c, transactions)
    ensures multiset(WindowFrom(credits, i)) <= multiset(transactions)
    ensures forall x :: x in WindowFrom(credits, i) ==> InWindow(c, credits[i].bookedAt)(x)
  {
    var keep, window := InWindow(c, credits[i].bookedAt), WindowFrom(credits, i);
    var week := Filter(transactions, keep);
    FilterSelects(transactions, keep);
    WindowIsWeek(c, transactions, credits, i, week);
    SelectedPositive(week, transactions, keep);
    SubTotal(window, week);
    assert Heavy(Filter(transactions, InWindow(c, credits[i].bookedAt)));
    forall x | x in window ensures keep(x) {
      assert x in multiset(window) && x in multiset(week);
    }
  }

  lemma NoFiringIsLight(c: string, transactions: seq<Transaction>, credits: seq<Transaction>, t: int)
    requires Positive(transactions) && Selects(credits, transactions, StructuringCredit(c))
             && SortedBy(credits, ByTime())
    requires forall i :: 0 <= i < |credits| ==> !Heavy(WindowFrom(credits, i))
    ensures !Heavy(Filter(transactions, InWindow(c, t)))
  {
    var week := Filter(transactions, InWindow(c, t));
    FilterSelects(transactions, InWindow(c, t));
    if week != [] {
      var i := WeekIsWindow(c, transactions, credits, t, week);
      SelectedPositive(credits, transactions, StructuringCredit(c));
      WindowPositive(credits, i);
      SubTotal(week, WindowFrom(credits, i));
    }
  }

  lemma WindowPositive(credits: seq<Transaction>, i: nat)
    requires Positive(credits) && i < |credits|
    ensures Positive(WindowFrom(credits, i))
  {
    FilterSelects(credits[i..], Within(credits[i].bookedAt, credits[i].bookedAt + 7 * DAY));
    SelectedPositive(WindowFrom(credits, i), credits[i..], Within(credits[i].bookedAt, credits[i].bookedAt + 7 * DAY));
  }

  lemma FilterMonotone(fewer: seq<Transaction>, more: seq<Transaction>, keep: Transaction -> bool)
    requires Positive(more) && multiset(fewer) <= multiset(more)
    ensures |Filter(fewer, keep)| <= |Filter(more, keep)| && Total(Filter(fewer, keep)) <= Total(Filter(more, keep))
  {
    FilterSelects(fewer, keep);
    FilterSelects(more, keep);
    SelectedPositive(Filter(more, keep), more, keep);
    SubTotal(Filter(fewer, keep), Filter(more, keep));
  }

  /** Firing depends on the collection only, and more transactions never silence it. */
  lemma StructuringMonotone(c: string, fewer: seq<Transaction>, more: seq<Transaction>)
    requires Positive(more) && multiset(fewer) <= multiset(more)
    ensures StructuringLike(c, fewer).Some? ==> StructuringLike(c, more).Some?
  {
    SubPositive(fewer, more);
    StructuringFiresExactly(c, fewer);
    StructuringFiresExactly(c, more);
    if HeavyWeek(c, fewer) {
      var t :| Heavy(Filter(fewer, InWindow(c, t)));
      FilterMonotone(fewer, more, InWindow(c, t));
      assert Heavy(Filter(more, InWindow(c, t)));
    }
  }

  // ----- rapid movement -----

  function CustomerDebit(c: string, lo: int, hi: int): Transaction -> bool {
    (x: Transaction) => x.customerId == c && DebitWithin(lo, hi)(x)
  }

  predicate DrainedBy(c: string, transactions: seq<Transaction>, x: Transaction) {
    && x.customerId == c && LargeCredit(x)
    && Total(Filter(transactions, CustomerDebit(c, x.bookedAt, x.bookedAt + 3 * DAY))) >= x.amount * 0.80
  }

  /** Some credit of at least 5000 is followed within three days by debits of at least 80 percent. */
  ghost predicate Drained(c: string, transactions: seq<Transaction>) {
    exists x :: x in transactions && DrainedBy(c, transactions, x)
  }

  lemma OutgoingTotal(c: string, transactions: seq<Transaction>, ordered: seq<Transaction>, x: Transaction)
    requires Positive(transactions) && Selects(ordered, transactions, OfCustomer(c))
    ensures Total(Outgoing(ordered, x))
            == Total(Filter(transactions, CustomerDebit(c, x.bookedAt, x.bookedAt + 3 * DAY)))
  {
    var lo, hi := x.bookedAt, x.bookedAt + 3 * DAY;
    FilterSelects(ordered, DebitWithin(lo, hi));
    SelectsTwice(Outgoing(ordered, x), ordered, transactions, OfCustomer(c), DebitWithin(lo, hi),
                 CustomerDebit(c, lo, hi));
    FilterSelects(transactions, CustomerDebit(c, lo, hi));
    SelectedPositive(Filter(transactions, CustomerDebit(c, lo, hi)), transactions, CustomerDebit(c, lo, hi));
    SameTotal(Outgoing(ordered, x), Filter(transactions, CustomerDebit(c, lo, hi)));
  }

  lemma SelectsTwice(part: seq<Transaction>, middle: seq<Transaction>, s: seq<Transaction>,
                     first: Transaction -> bool, second: Transaction -> bool, both: Transaction -> bool)
    requires Selects(middle, s, first) && Selects(part, middle, second)
    requires forall x :: both(x) <==> first(x) && second(x)
    ensures Selects(part, s, both)
  {
  }

  lemma SameTotal(a: seq<Transaction>, b: seq<Transaction>)
    requires Positive(b) && forall x :: multiset(a)[x] == multiset(b)[x]
    ensures Total(a) == Total(b)
  {
    SubPositive(a, b);
    SubTotal(a, b);
    SubTotal(b, a);
  }

  lemma RapidFiresExactly(c: string, transactions: seq<Transaction>)
    requires Positive(transactions)
    ensures RapidFundsMovement(c, transactions).Some? <==> Drained(c, transactions)
  {
    OrderedSelects(transactions, OfCustomer(c));
    var ordered := Ordered(transactions, OfCustomer(c));
    var first := FirstMovedOut(ordered, 0);
    if first.Some? {
      var x := ordered[first.value];
      OutgoingTotal(c, transactions, ordered, x);
      assert x in multiset(ordered) && x in multiset(transactions);
      assert DrainedBy(c, transactions, x);
    } else {
      forall x | x in transactions ensures !DrainedBy(c, transactions, x) {
        if x.customerId == c {
          OutgoingTotal(c, transactions, ordered, x);
          assert x in multiset(transactions) && x in multiset(ordered);
          var j :| 0 <= j < |ordered| && ordered[j] == x;
          assert !MovedOut(ordered, ordered[j]);
        }
      }
    }
  }

  lemma RapidMonotone(c: string, fewer: seq<Transaction>, more: seq<Transaction>)
    requires Positive(more) && multiset(fewer) <= multiset(more)
    ensures RapidFundsMovement(c, fewer).Some? ==> RapidFundsMovement(c, more).Some?
  {
    SubPositive(fewer, more);
    RapidFiresExactly(c, fewer);
    RapidFiresExactly(c, more);
    if Drained(c, fewer) {
      var x :| x in fewer && DrainedBy(c, fewer, x);
      FilterMonotone(fewer, more, CustomerDebit(c, x.bookedAt, x.bookedAt + 3 * DAY));
      assert x in multiset(fewer) && x in multiset(more);
      assert DrainedBy(c, more, x);
    }
  }
}
