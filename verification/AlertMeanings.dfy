/** What each monitoring rule looks for and reports, in the terms of the transactions alone. */
module AlertMeanings {
  import opened Prelude
  import opened AlertRules

  /** The alert names these transactions in this order, and comes one second after the last of them. */
  ghost predicate IsAlert(alert: Alert, alertId: string, c: string, ruleId: string, causal: seq<Transaction>) {
    && alert.alertId == alertId && alert.customerId == c && alert.ruleId == ruleId
    && |alert.causalIds| == |causal|
    && (forall i :: 0 <= i < |causal| ==> alert.causalIds[i] == causal[i].transactionId)
    && (forall x :: x in causal ==> x.bookedAt + 1 <= alert.createdAt)
    && exists x :: x in causal && x.bookedAt + 1 == alert.createdAt
  }

  lemma ReportsAlert(alertId: string, c: string, ruleId: string, causal: seq<Transaction>)
    requires causal != []
    ensures IsAlert(Alert(alertId, c, ruleId, Ids(causal), LastBooked(causal) + 1), alertId, c, ruleId, causal)
  {
    var i :| 0 <= i < |causal| && causal[i].bookedAt == LastBooked(causal);
    assert causal[i] in causal;
  }

  /** The parts of the collection that the rules look at, and nothing is lost or doubled. */
  ghost predicate Picks(part: seq<Transaction>, all: seq<Transaction>, accepts: Transaction -> bool) {
    && (forall x :: accepts(x) ==> multiset(part)[x] == multiset(all)[x])
    && (forall x :: x in part ==> accepts(x))
    && forall i, j :: 0 <= i < j < |part| ==> part[i].bookedAt <= part[j].bookedAt
  }

  lemma SelectionPicks(part: seq<Transaction>, all: seq<Transaction>, keep: Transaction -> bool,
                       accepts: Transaction -> bool)
    requires Selects(part, all, keep) && SortedBy(part, ByTime()) && forall x :: keep(x) <==> accepts(x)
    ensures Picks(part, all, accepts)
  {
    forall x | x in part ensures accepts(x) {
      assert x in multiset(part);
    }
    forall i, j | 0 <= i < j < |part| ensures part[i].bookedAt <= part[j].bookedAt {
      assert ByTime()(part[i], part[j]);
    }
  }

  /** Filtering keeps the order. */
  lemma {:induction false} FilterSorted(s: seq<Transaction>, keep: Transaction -> bool)
    requires SortedBy(s, ByTime())
    ensures SortedBy(Filter(s, keep), ByTime())
  {
    if s != [] {
      FilterSorted(s[1..], keep);
      var rest := Filter(s[1..], keep);
      forall k | 0 <= k < |rest| ensures ByTime()(s[0], rest[k]) {
        assert rest[k] in s[1..];
        var i :| 0 <= i < |s[1..]| && s[1..][i] == rest[k];
        assert s[i + 1] == rest[k];
      }
    }
  }

  // ----- sampled variance -----

  lemma CustomersPart(c: string, transactions: seq<Transaction>, x: Transaction)
    ensures x in Ordered(transactions, OfCustomer(c)) <==> x in transactions && x.customerId == c
  {
    OrderedSelects(transactions, OfCustomer(c));
    var part := Ordered(transactions, OfCustomer(c));
    assert x in part <==> multiset(part)[x] > 0;
    assert x in transactions <==> multiset(transactions)[x] > 0;
  }

  lemma LastIsLatest(c: string, transactions: seq<Transaction>, part: seq<Transaction>)
    requires part == Ordered(transactions, OfCustomer(c)) && part != []
    ensures LatestOf(part[|part| - 1], c, transactions)
  {
    var last := part[|part| - 1];
    OrderedSelects(transactions, OfCustomer(c));
    CustomersPart(c, transactions, last);
    forall y | y in transactions && y.customerId == c ensures y.bookedAt <= last.bookedAt {
      CustomersPart(c, transactions, y);
      var k :| 0 <= k < |part| && part[k] == y;
      assert k < |part| - 1 ==> ByTime()(part[k], last);
    }
  }

  /** The alert reports one of the customer's latest transactions. */
  ghost predicate ReportsLatest(alert: Alert, c: string, transactions: seq<Transaction>) {
    exists x :: LatestOf(x, c, transactions) && IsAlert(alert, "ALT-EAV-" + c, c, "EXPECTED_ACTIVITY_VARIANCE", [x])
  }

  /** The variance rule fires for every customer with a transaction, and reports one of the latest. */
  lemma VarianceMeans(c: string, transactions: seq<Transaction>)
    ensures var r := ExpectedActivityVariance(c, transactions);
            && (r.None? <==> forall x :: x in transactions ==> x.customerId != c)
            && (r.Some? ==> ReportsLatest(r.value, c, transactions))
  {
    var part := Ordered(transactions, OfCustomer(c));
    if part != [] {
      LastIsLatest(c, transactions, part);
      ReportsAlert("ALT-EAV-" + c, c, "EXPECTED_ACTIVITY_VARIANCE", [part[|part| - 1]]);
    }
    forall x | x in transactions && x.customerId == c ensures part != [] {
      CustomersPart(c, transactions, x);
    }
  }

  predicate LatestOf(x: Transaction, c: string, transactions: seq<Transaction>) {
    && x in transactions && x.customerId == c
    && forall y :: y in transactions && y.customerId == c ==> y.bookedAt <= x.bookedAt
  }

  // ----- structuring -----

  /** A credit of the customer of at least 1000 and below 10000, in the seven days from t on. */
  function SmallCredit(c: string, t: int): Transaction -> bool {
    (x: Transaction) => x.customerId == c && x.direction == "credit" && 1000.0 <= x.amount && x.amount < 10000.0
                        && t <= x.bookedAt && x.bookedAt <= t + 604800
  }

  /** Five or more such credits that add up to 20000. */
  ghost predicate Structured(c: string, transactions: seq<Transaction>, t: int) {
    exists part :: Picks(part, transactions, SmallCredit(c, t)) && |part| >= 5 && Total(part) >= 20000.0
  }

  lemma SameCredits(c: string, t: int, x: Transaction)
    ensures InWindow(c, t)(x) <==> SmallCredit(c, t)(x)
  {
    assert StructuringCredit(c)(x) <==>
        x.customerId == c && x.direction == "credit" && 1000.0 <= x.amount < 10000.0;
    assert 7 * DAY == 604800;
  }

  lemma WeekPicks(c: string, transactions: seq<Transaction>, t: int) returns (week: seq<Transaction>)
    ensures week == Ordered(transactions, InWindow(c, t))
    ensures Picks(week, transactions, SmallCredit(c, t)) && Selects(week, transactions, InWindow(c, t))
  {
    week := Ordered(transactions, InWindow(c, t));
    OrderedSelects(transactions, InWindow(c, t));
    forall x ensures InWindow(c, t)(x) <==> SmallCredit(c, t)(x) {
      SameCredits(c, t, x);
    }
    SelectionPicks(week, transactions, InWindow(c, t), SmallCredit(c, t));
  }

  /** All picks of one kind have one size and one total. */
  lemma PicksAgree(a: seq<Transaction>, b: seq<Transaction>, all: seq<Transaction>, accepts: Transaction -> bool)
    requires Positive(all) && Picks(a, all, accepts) && Picks(b, all, accepts)
    ensures multiset(a) == multiset(b) && |a| == |b| && Total(a) == Total(b)
  {
    forall x ensures multiset(a)[x] == multiset(b)[x] {
      assert x in multiset(a) ==> x in a;
      assert x in multiset(b) ==> x in b;
    }
    assert multiset(a) <= multiset(all) by {
      forall x ensures multiset(a)[x] <= multiset(all)[x] {
        assert x in multiset(a) ==> x in a;
      }
    }
    SubPositive(a, all);
    SubPositive(b, all);
    SubTotal(a, b);
    SubTotal(b, a);
  }

  lemma StructuredIsHeavy(c: string, transactions: seq<Transaction>, t: int)
    requires Positive(transactions)
    ensures Structured(c, transactions, t) <==> Heavy(Filter(transactions, InWindow(c, t)))
  {
    var week := WeekPicks(c, transactions, t);
    var unordered := Filter(transactions, InWindow(c, t));
    FilterSelects(transactions, InWindow(c, t));
    SelectedPositive(unordered, transactions, InWindow(c, t));
    SameTotal(week, unordered);
    SortSorts(unordered, ByTime());
    assert |week| == |multiset(week)| == |multiset(unordered)| == |unordered|;
    if Structured(c, transactions, t) {
      var part :| Picks(part, transactions, SmallCredit(c, t)) && |part| >= 5 && Total(part) >= 20000.0;
      PicksAgree(part, week, transactions, SmallCredit(c, t));
    }
  }

  /** The first heavy window is the whole week from its first credit on. */
  lemma FirstHeavyIsWeek(c: string, transactions: seq<Transaction>, credits: seq<Transaction>, i: nat)
    requires Positive(transactions) && credits == Ordered(transactions, StructuringCredit(c))
    requires i < |credits| && Heavy(WindowFrom(credits, i))
    requires forall j :: 0 <= j < i ==> !Heavy(WindowFrom(credits, j))
    ensures multiset(WindowFrom(credits, i))
            == multiset(Filter(transactions, InWindow(c, credits[i].bookedAt)))
  {
    OrderedSelects(transactions, StructuringCredit(c));
    var t := credits[i].bookedAt;
    var week, window := Filter(transactions, InWindow(c, t)), WindowFrom(credits, i);
    FilterSelects(transactions, InWindow(c, t));
    WindowIsWeek(c, transactions, credits, i, week);
    SelectedPositive(week, transactions, InWindow(c, t));
    SubTotal(window, week);
    var k := WeekOpens(c, transactions, credits, t, week, i);
    assert k == i;
  }

  /** A heavy week has a heavy window that opens no later than any credit of the week. */
  lemma WeekOpens(c: string, transactions: seq<Transaction>, credits: seq<Transaction>, t: int,
                  week: seq<Transaction>, i: nat) returns (k: nat)
    requires Positive(transactions) && credits == Ordered(transactions, StructuringCredit(c))
    requires week == Filter(transactions, InWindow(c, t)) && Heavy(week)
    requires i < |credits| && t <= credits[i].bookedAt
    requires forall j :: 0 <= j < i ==> !Heavy(WindowFrom(credits, j))
    ensures i <= k < |credits| && multiset(week) <= multiset(WindowFrom(credits, k))
    ensures forall j :: 0 <= j < k ==> credits[j].bookedAt < t
  {
    OrderedSelects(transactions, StructuringCredit(c));
    FilterSelects(transactions, InWindow(c, t));
    k := WeekIsWindow(c, transactions, credits, t, week);
    SelectedPositive(credits, transactions, StructuringCredit(c));
    WindowPositive(credits, k);
    SubTotal(week, WindowFrom(credits, k));
  }

  /** The week from t on is the first heavy one that a credit opens: it is `week`, in booking order. */
  ghost predicate EarliestWeek(c: string, transactions: seq<Transaction>, t: int, week: seq<Transaction>) {
    && Picks(week, transactions, SmallCredit(c, t)) && |week| >= 5 && Total(week) >= 20000.0
    && week[0].bookedAt == t
    && forall y :: y in transactions && SmallCredit(c, y.bookedAt)(y) && y.bookedAt < t ==>
         !Structured(c, transactions, y.bookedAt)
  }

  lemma WindowOpens(credits: seq<Transaction>, i: nat)
    requires SortedBy(credits, ByTime()) && i < |credits|
    ensures SortedBy(WindowFrom(credits, i), ByTime())
    ensures WindowFrom(credits, i) != [] && WindowFrom(credits, i)[0] == credits[i]
  {
    var keep := Within(credits[i].bookedAt, credits[i].bookedAt + 7 * DAY);
    FilterSorted(credits[i..], keep);
    assert credits[i..][0] == credits[i] && keep(credits[i]);
  }

  lemma WindowPicks(c: string, transactions: seq<Transaction>, window: seq<Transaction>, t: int)
    requires multiset(window) == multiset(Filter(transactions, InWindow(c, t))) && SortedBy(window, ByTime())
    ensures Picks(window, transactions, SmallCredit(c, t))
  {
    FilterSelects(transactions, InWindow(c, t));
    forall x ensures InWindow(c, t)(x) <==> SmallCredit(c, t)(x) {
      SameCredits(c, t, x);
    }
    SelectionPicks(window, transactions, InWindow(c, t), SmallCredit(c, t));
  }

  lemma AmongCredits(c: string, transactions: seq<Transaction>, credits: seq<Transaction>, y: Transaction)
    returns (j: nat)
    requires credits == Ordered(transactions, StructuringCredit(c))
    requires y in transactions && SmallCredit(c, y.bookedAt)(y)
    ensures j < |credits| && credits[j] == y
    ensures forall k :: 0 <= k <= j ==> credits[k].bookedAt <= y.bookedAt
  {
    OrderedSelects(transactions, StructuringCredit(c));
    SameCredits(c, y.bookedAt, y);
    assert y in multiset(transactions) && y in multiset(credits);
    j :| 0 <= j < |credits| && credits[j] == y;
    forall k | 0 <= k <= j ensures credits[k].bookedAt <= y.bookedAt {
      assert k < j ==> ByTime()(credits[k], credits[j]);
    }
  }

  lemma HeavyFromFirst(c: string, transactions: seq<Transaction>, credits: seq<Transaction>, i: nat, y: Transaction)
    requires Positive(transactions) && credits == Ordered(transactions, StructuringCredit(c))
    requires i < |credits| && forall j :: 0 <= j < i ==> !Heavy(WindowFrom(credits, j))
    requires y in transactions && SmallCredit(c, y.bookedAt)(y)
    requires Heavy(Filter(transactions, InWindow(c, y.bookedAt)))
    ensures credits[i].bookedAt <= y.bookedAt
  {
    var j := AmongCredits(c, transactions, credits, y);
    if y.bookedAt <= credits[i].bookedAt {
      var k := WeekOpens(c, transactions, credits, y.bookedAt, Filter(transactions, InWindow(c, y.bookedAt)), i);
    }
  }

  lemma NoneEarlier(c: string, transactions: seq<Transaction>, credits: seq<Transaction>, i: nat, y: Transaction)
    requires Positive(transactions) && credits == Ordered(transactions, StructuringCredit(c))
    requires i < |credits| && forall j :: 0 <= j < i ==> !Heavy(WindowFrom(credits, j))
    requires y in transactions && SmallCredit(c, y.bookedAt)(y)
    ensures Structured(c, transactions, y.bookedAt) ==> credits[i].bookedAt <= y.bookedAt
  {
    StructuredIsHeavy(c, transactions, y.bookedAt);
    if Heavy(Filter(transactions, InWindow(c, y.bookedAt))) {
      HeavyFromFirst(c, transactions, credits, i, y);
    }
  }

  ghost predicate ReportsEarliestWeek(alert: Alert, c: string, transactions: seq<Transaction>) {
    exists t, week :: EarliestWeek(c, transactions, t, week)
                      && IsAlert(alert, "ALT-STR-" + c, c, "STRUCTURING_LIKE_REPEATED_CREDITS", week)
  }

  /**
   * The structuring rule fires exactly when some seven days hold five credits of the customer, each of at
   * least 1000 and below 10000, that reach 20000 together. It reports all such credits of the earliest week.
   */
  lemma StructuringMeans(c: string, transactions: seq<Transaction>)
    requires Positive(transactions)
    ensures StructuringLike(c, transactions).Some? <==> exists t :: Structured(c, transactions, t)
    ensures StructuringLike(c, transactions).Some? ==>
              ReportsEarliestWeek(StructuringLike(c, transactions).value, c, transactions)
  {
    StructuringFiresExactly(c, transactions);
    forall t ensures Structured(c, transactions, t) <==> Heavy(Filter(transactions, InWindow(c, t))) {
      StructuredIsHeavy(c, transactions, t);
    }
    var credits := Ordered(transactions, StructuringCredit(c));
    var first := FirstHeavy(credits, 0);
    if first.Some? {
      FirstWeekReported(c, transactions, credits, first.value);
    }
  }

  lemma FirstWeekReported(c: string, transactions: seq<Transaction>, credits: seq<Transaction>, i: nat)
    requires Positive(transactions) && credits == Ordered(transactions, StructuringCredit(c))
    requires FirstHeavy(credits, 0) == Some(i)
    ensures StructuringLike(c, transactions).Some?
    ensures ReportsEarliestWeek(StructuringLike(c, transactions).value, c, transactions)
  {
    var window := WindowFrom(credits, i);
    FirstWeek(c, transactions, credits, i);
    StructuringAlert(c, transactions, window);
    WeekReported(c, transactions, credits[i].bookedAt, window, StructuringLike(c, transactions).value);
  }

  lemma StructuringAlert(c: string, transactions: seq<Transaction>, window: seq<Transaction>)
    requires StructuringWindow(c, transactions) == Some(window) && window != []
    ensures StructuringLike(c, transactions) ==
            Some(Alert("ALT-STR-" + c, c, "STRUCTURING_LIKE_REPEATED_CREDITS", Ids(window), LastBooked(window) + 1))
  {
  }

  lemma WeekReported(c: string, transactions: seq<Transaction>, t: int, week: seq<Transaction>, alert: Alert)
    requires week != [] && EarliestWeek(c, transactions, t, week)
    requires alert == Alert("ALT-STR-" + c, c, "STRUCTURING_LIKE_REPEATED_CREDITS", Ids(week), LastBooked(week) + 1)
    ensures ReportsEarliestWeek(alert, c, transactions)
  {
    ReportsAlert("ALT-STR-" + c, c, "STRUCTURING_LIKE_REPEATED_CREDITS", week);
  }

  lemma FirstWeek(c: string, transactions: seq<Transaction>, credits: seq<Transaction>, i: nat)
    requires Positive(transactions) && credits == Ordered(transactions, StructuringCredit(c))
    requires FirstHeavy(credits, 0) == Some(i)
    ensures EarliestWeek(c, transactions, credits[i].bookedAt, WindowFrom(credits, i))
  {
    FirstHeavyIsWeek(c, transactions, credits, i);
    OrderedSelects(transactions, StructuringCredit(c));
    WindowOpens(credits, i);
    WindowPicks(c, transactions, WindowFrom(credits, i), credits[i].bookedAt);
    forall y | y in transactions && SmallCredit(c, y.bookedAt)(y) && y.bookedAt < credits[i].bookedAt
      ensures !Structured(c, transactions, y.bookedAt)
    {
      NoneEarlier(c, transactions, credits, i, y);
    }
  }

  // ----- rapid movement -----

  /** A debit of the customer within three days of t. */
  function DebitSoon(c: string, t: int): Transaction -> bool {
    (x: Transaction) => x.customerId == c && x.direction == "debit" && t <= x.bookedAt && x.bookedAt <= t + 259200
  }

  /** A credit of at least 5000 of which 80 percent leave within three days; `out` are all the debits of these days. */
  ghost predicate MovesOn(x: Transaction, c: string, transactions: seq<Transaction>, out: seq<Transaction>) {
    && x in transactions && x.customerId == c && x.direction == "credit" && x.amount >= 5000.0
    && Picks(out, transactions, DebitSoon(c, x.bookedAt)) && 5.0 * Total(out) >= 4.0 * x.amount
  }

  /** The credit and the debits, and no credit booked earlier moves on. */
  ghost predicate EarliestMove(x: Transaction, c: string, transactions: seq<Transaction>, out: seq<Transaction>) {
    && MovesOn(x, c, transactions, out)
    && forall y: Transaction, part :: y.bookedAt < x.bookedAt ==> !MovesOn(y, c, transactions, part)
  }

  ghost predicate ReportsEarliestMove(alert: Alert, c: string, transactions: seq<Transaction>) {
    exists x, out :: EarliestMove(x, c, transactions, out)
                     && IsAlert(alert, "ALT-RFM-" + c, c, "RAPID_FUNDS_MOVEMENT", [x] + out)
  }

  lemma SameDebits(c: string, t: int, x: Transaction)
    ensures OfCustomer(c)(x) && DebitWithin(t, t + 3 * DAY)(x) <==> DebitSoon(c, t)(x)
  {
    assert 3 * DAY == 259200;
  }

  lemma OutgoingPicks(c: string, transactions: seq<Transaction>, ordered: seq<Transaction>, t: int,
                      out: seq<Transaction>)
    requires ordered == Ordered(transactions, OfCustomer(c)) && out == Filter(ordered, DebitWithin(t, t + 3 * DAY))
    ensures Picks(out, transactions, DebitSoon(c, t))
  {
    OrderedSelects(transactions, OfCustomer(c));
    FilterSelects(ordered, DebitWithin(t, t + 3 * DAY));
    FilterSorted(ordered, DebitWithin(t, t + 3 * DAY));
    forall x ensures OfCustomer(c)(x) && DebitWithin(t, t + 3 * DAY)(x) <==> DebitSoon(c, t)(x) {
      SameDebits(c, t, x);
    }
    SelectsTwice(out, ordered, transactions, OfCustomer(c), DebitWithin(t, t + 3 * DAY), DebitSoon(c, t));
    SelectionPicks(out, transactions, DebitSoon(c, t), DebitSoon(c, t));
  }

  /** For a transaction of the customer the loop's test means that it moves on. */
  lemma MovedOutExactly(c: string, transactions: seq<Transaction>, ordered: seq<Transaction>, x: Transaction,
                        part: seq<Transaction>)
    requires Positive(transactions) && ordered == Ordered(transactions, OfCustomer(c))
    requires x in transactions && x.customerId == c
    ensures MovedOut(ordered, x) ==> MovesOn(x, c, transactions, Outgoing(ordered, x))
    ensures MovesOn(x, c, transactions, part) ==> MovedOut(ordered, x)
  {
    OutgoingPicks(c, transactions, ordered, x.bookedAt, Outgoing(ordered, x));
    if MovesOn(x, c, transactions, part) {
      PicksAgree(part, Outgoing(ordered, x), transactions, DebitSoon(c, x.bookedAt));
    }
  }

  lemma AmongCustomers(c: string, transactions: seq<Transaction>, ordered: seq<Transaction>, y: Transaction)
    returns (j: nat)
    requires ordered == Ordered(transactions, OfCustomer(c)) && y in transactions && y.customerId == c
    ensures j < |ordered| && ordered[j] == y
    ensures forall k :: 0 <= k <= j ==> ordered[k].bookedAt <= y.bookedAt
  {
    OrderedSelects(transactions, OfCustomer(c));
    CustomersPart(c, transactions, y);
    j :| 0 <= j < |ordered| && ordered[j] == y;
    forall k | 0 <= k <= j ensures ordered[k].bookedAt <= y.bookedAt {
      assert k < j ==> ByTime()(ordered[k], ordered[j]);
    }
  }

  /** A credit that moves on is met by the loop. */
  lemma MovingIsMet(c: string, transactions: seq<Transaction>, ordered: seq<Transaction>, y: Transaction,
                    part: seq<Transaction>) returns (j: nat)
    requires Positive(transactions) && ordered == Ordered(transactions, OfCustomer(c))
    requires MovesOn(y, c, transactions, part)
    ensures j < |ordered| && MovedOut(ordered, ordered[j])
    ensures forall k :: 0 <= k <= j ==> ordered[k].bookedAt <= y.bookedAt
  {
    j := AmongCustomers(c, transactions, ordered, y);
    MovedOutExactly(c, transactions, ordered, y, part);
  }

  lemma NoneMovesEarlier(c: string, transactions: seq<Transaction>, ordered: seq<Transaction>, i: nat, y: Transaction,
                         part: seq<Transaction>)
    requires Positive(transactions) && ordered == Ordered(transactions, OfCustomer(c))
    requires FirstMovedOut(ordered, 0) == Some(i) && MovesOn(y, c, transactions, part)
    ensures ordered[i].bookedAt <= y.bookedAt
  {
    var j := MovingIsMet(c, transactions, ordered, y, part);
  }

  lemma FirstMove(c: string, transactions: seq<Transaction>, ordered: seq<Transaction>, i: nat)
    requires Positive(transactions) && ordered == Ordered(transactions, OfCustomer(c))
    requires FirstMovedOut(ordered, 0) == Some(i)
    ensures EarliestMove(ordered[i], c, transactions, Outgoing(ordered, ordered[i]))
  {
    CustomersPart(c, transactions, ordered[i]);
    MovedOutExactly(c, transactions, ordered, ordered[i], []);
    forall y, part | MovesOn(y, c, transactions, part) ensures ordered[i].bookedAt <= y.bookedAt {
      NoneMovesEarlier(c, transactions, ordered, i, y, part);
    }
  }

  lemma FirstMoveReported(c: string, transactions: seq<Transaction>, ordered: seq<Transaction>, i: nat)
    requires Positive(transactions) && ordered == Ordered(transactions, OfCustomer(c))
    requires FirstMovedOut(ordered, 0) == Some(i)
    ensures RapidFundsMovement(c, transactions).Some?
    ensures ReportsEarliestMove(RapidFundsMovement(c, transactions).value, c, transactions)
  {
    var x := ordered[i];
    FirstMove(c, transactions, ordered, i);
    ReportsAlert("ALT-RFM-" + c, c, "RAPID_FUNDS_MOVEMENT", [x] + Outgoing(ordered, x));
  }

  /**
   * The rapid-movement rule fires exactly when some credit of the customer of at least 5000 is followed within
   * three days by debits of 80 percent of it. It reports the earliest such credit and all these debits.
   */
  lemma RapidMeans(c: string, transactions: seq<Transaction>)
    requires Positive(transactions)
    ensures RapidFundsMovement(c, transactions).Some? <==> exists x, out :: MovesOn(x, c, transactions, out)
    ensures RapidFundsMovement(c, transactions).Some? ==>
              ReportsEarliestMove(RapidFundsMovement(c, transactions).value, c, transactions)
  {
    var ordered := Ordered(transactions, OfCustomer(c));
    var first := FirstMovedOut(ordered, 0);
    if first.Some? {
      FirstMove(c, transactions, ordered, first.value);
      FirstMoveReported(c, transactions, ordered, first.value);
    }
    forall x, out | MovesOn(x, c, transactions, out) ensures first.Some? {
      var j := MovingIsMet(c, transactions, ordered, x, out);
    }
  }

  /** Each rule is found under its own id, and nothing under any other. */
  lemma RuleMeans(ruleId: string, c: string, transactions: seq<Transaction>)
    ensures Rule("EXPECTED_ACTIVITY_VARIANCE", c, transactions) == Some(ExpectedActivityVariance(c, transactions))
    ensures Rule("RAPID_FUNDS_MOVEMENT", c, transactions) == Some(RapidFundsMovement(c, transactions))
    ensures Rule("STRUCTURING_LIKE_REPEATED_CREDITS", c, transactions) == Some(StructuringLike(c, transactions))
    ensures Rule(ruleId, c, transactions).None? <==>
            ruleId !in {"EXPECTED_ACTIVITY_VARIANCE", "RAPID_FUNDS_MOVEMENT", "STRUCTURING_LIKE_REPEATED_CREDITS"}
  {
    assert "EXPECTED_ACTIVITY_VARIANCE"[0] == 'E' && "RAPID_FUNDS_MOVEMENT"[0] == 'R';
    assert "STRUCTURING_LIKE_REPEATED_CREDITS"[0] == 'S';
  }
}
