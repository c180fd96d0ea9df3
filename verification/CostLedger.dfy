/**
 * The money view of one experiment: a ceiling, what has been spent, and what is held in
 * reservations. Both queues are proved to move their per-experiment ledger only by `Apply`.
 */
module CostLedger {
  import opened Prelude

  datatype Ledger<K> = Ledger(ceiling: int, spent: int, held: map<K, int>)

  datatype Op<K> =
    | Reserve(key: K, amount: int)
    | Settle(key: K, cost: int)
    | Release(key: K)
    | Idle

  ghost function HeldFor<K(!new)>(l: Ledger<K>, key: K): int {
    if key in l.held then l.held[key] else 0
  }

  ghost function Committed<K(!new)>(l: Ledger<K>): int {
    l.spent + SumValues(l.held)
  }

  ghost function Apply<K(!new)>(l: Ledger<K>, op: Op<K>): Ledger<K> {
    match op
    case Reserve(key, amount) =>
      if key in l.held || Committed(l) + amount > l.ceiling then l
      else l.(held := l.held[key := amount])
    case Settle(key, cost) =>
      if l.spent + cost > l.ceiling then l
      else l.(spent := l.spent + cost, held := l.held - {key})
    case Release(key) => l.(held := l.held - {key})
    case Idle => l
  }

  ghost function Run<K(!new)>(l: Ledger<K>, ops: seq<Op<K>>): Ledger<K> {
    if ops == [] then l else Apply(Run(l, ops[..|ops| - 1]), ops[|ops| - 1])
  }

  /** The settlement spends no more than its own reservation holds; without one it spends nothing. */
  ghost predicate Backed<K(!new)>(l: Ledger<K>, op: Op<K>) {
    op.Settle? ==> op.cost <= HeldFor(l, op.key)
  }

  ghost predicate NonNegative<K(!new)>(l: Ledger<K>) {
    forall k :: k in l.held ==> 0 <= l.held[k]
  }

  /** Well-formed operations: amounts and costs are not negative. */
  ghost predicate Sane<K>(op: Op<K>) {
    && (op.Reserve? ==> 0 <= op.amount)
    && (op.Settle? ==> 0 <= op.cost)
  }

  /** What an accepted settlement takes beyond its reservation. */
  ghost function Excess<K(!new)>(l: Ledger<K>, op: Op<K>): int {
    if op.Settle? && l.spent + op.cost <= l.ceiling && op.cost > HeldFor(l, op.key)
    then op.cost - HeldFor(l, op.key) else 0
  }

  ghost function TotalExcess<K(!new)>(l: Ledger<K>, ops: seq<Op<K>>): int {
    if ops == [] then 0 else
      var before := ops[..|ops| - 1];
      TotalExcess(l, before) + Excess(Run(l, before), ops[|ops| - 1])
  }

  lemma HeldRemoved<K(!new)>(l: Ledger<K>, key: K)
    ensures SumValues(l.held - {key}) == SumValues(l.held) - HeldFor(l, key)
  {
    if key in l.held {
      SumWithout(l.held, key);
    } else {
      assert l.held - {key} == l.held;
    }
  }

  /** How one operation moves the committed total: the double-entry rule of the ledger. */
  lemma CommittedMoves<K(!new)>(l: Ledger<K>, op: Op<K>)
    ensures op.Reserve? ==>
              Committed(Apply(l, op)) - Committed(l) ==
              if op.key in l.held || Committed(l) + op.amount > l.ceiling then 0 else op.amount
    ensures op.Settle? ==>
              Committed(Apply(l, op)) - Committed(l) ==
              if l.spent + op.cost > l.ceiling then 0 else op.cost - HeldFor(l, op.key)
    ensures op.Release? ==> Committed(Apply(l, op)) == Committed(l) - HeldFor(l, op.key)
  {
    match op
    case Reserve(key, amount) => SumUpdate(l.held, key, amount);
    case Settle(key, cost) => HeldRemoved(l, key);
    case Release(key) => HeldRemoved(l, key);
    case Idle =>
  }

  /** An accepted settlement stays within the ceiling exactly when its excess fits the headroom. */
  lemma SettleKeepsCeilingExactly<K(!new)>(l: Ledger<K>, key: K, cost: int)
    requires Committed(l) <= l.ceiling && l.spent + cost <= l.ceiling
    ensures Committed(Apply(l, Settle(key, cost))) <= l.ceiling
       <==> cost - HeldFor(l, key) <= l.ceiling - Committed(l)
  {
    CommittedMoves(l, Settle(key, cost));
  }

  lemma BackedStep<K(!new)>(l: Ledger<K>, op: Op<K>)
    requires Committed(l) <= l.ceiling && NonNegative(l)
    requires Sane(op) && Backed(l, op)
    ensures Committed(Apply(l, op)) <= l.ceiling && NonNegative(Apply(l, op))
    ensures op.Settle? ==> l.spent + op.cost <= l.ceiling
  {
    CommittedMoves(l, op);
    if op.Settle? {
      HeldRemoved(l, op.key);
      SumNonNegative(l.held - {op.key});
    }
    if op.Settle? || op.Release? {
      SumNonNegative(l.held);
      assert NonNegative(Apply(l, op));
    }
  }

  /** What an accepted settlement takes beyond its reservation fits the headroom below the ceiling. */
  ghost predicate Fits<K(!new)>(l: Ledger<K>, op: Op<K>) {
    op.Settle? && l.spent + op.cost <= l.ceiling ==> op.cost - HeldFor(l, op.key) <= l.ceiling - Committed(l)
  }

  /** An operation leaves a solvent ledger solvent exactly when it fits. */
  lemma StepSolventExactly<K(!new)>(l: Ledger<K>, op: Op<K>)
    requires Committed(l) <= l.ceiling && NonNegative(l) && Sane(op)
    ensures Committed(Apply(l, op)) <= Apply(l, op).ceiling <==> Fits(l, op)
    ensures NonNegative(Apply(l, op))
  {
    CommittedMoves(l, op);
    assert NonNegative(Apply(l, op));
  }

  /** Whatever the operations, spending alone never passes the ceiling. */
  lemma {:induction false} SpentWithinCeiling<K(!new)>(l: Ledger<K>, ops: seq<Op<K>>)
    requires l.spent <= l.ceiling
    ensures Run(l, ops).spent <= Run(l, ops).ceiling == l.ceiling
  {
    if ops != [] {
      SpentWithinCeiling(l, ops[..|ops| - 1]);
    }
  }

  /**
   * Over any operations at all, the committed total passes the ceiling by no more than the
   * settlements took beyond their reservations.
   */
  lemma {:induction false} OvercommitBoundedByExcess<K(!new)>(l: Ledger<K>, ops: seq<Op<K>>)
    requires Committed(l) <= l.ceiling && NonNegative(l)
    requires forall op :: op in ops ==> Sane(op)
    ensures NonNegative(Run(l, ops)) && Run(l, ops).ceiling == l.ceiling
    ensures Committed(Run(l, ops)) <= l.ceiling + TotalExcess(l, ops)
    ensures 0 <= TotalExcess(l, ops)
  {
    if ops != [] {
      var before, op := ops[..|ops| - 1], ops[|ops| - 1];
      OvercommitBoundedByExcess(l, before);
      var m := Run(l, before);
      CommittedMoves(m, op);
      assert op in ops;
      assert NonNegative(Apply(m, op));
    }
  }
}
