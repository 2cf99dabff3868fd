/** Whole runs of the stock: any sequence of operations, by any number of orders. Each operation is
    one transaction under the balance locks, so a run is their serial order. */
module StockRuns {
  import opened Common
  import opened Stock
  import opened StockBooks

  datatype StockOp =
    | OpenBalance(variant: nat)
    | SetMinLevel(variant: nat, level: Option<int>)
    | Reserve(order: nat, needs: map<nat, int>)
    | Commit(order: nat)
    | Release(order: nat, expired: bool)
    | Recover(order: nat)
    | ReturnStock(order: nat)
    | ReturnSome(order: nat, wanted: map<nat, int>)
    | Adjust(kind: AdjustmentKind, lines: seq<AdjustmentLine>)

  /** Lines that passed the request checks. */
  predicate WellFormed(kind: AdjustmentKind, lines: seq<AdjustmentLine>) {
    && Distinct(lines)
    && forall l | l in lines ::
         && (kind.KReceipt? || kind.KLoss? ==> 0 < l.qty)
         && (kind.KCount? ==> 0 <= l.qty)
  }

  predicate Allowed(s: Stock, op: StockOp) {
    match op
    case Reserve(_, needs) => Available(s, needs)
    case Adjust(kind, lines) => WellFormed(kind, lines)
    case _ => true
  }

  function Step(s: Stock, op: StockOp): Stock
    requires Allowed(s, op)
  {
    match op
    case OpenBalance(v) => WithBalances(s, {v})
    case SetMinLevel(v, level) => SetMinLevelStep(s, v, level)
    case Reserve(order, needs) => ReserveStep(s, order, needs)
    case Commit(order) => CommitStep(s, order)
    case Release(order, expired) => ReleaseStep(s, order, expired)
    case Recover(order) => RecoverStep(s, order)
    case ReturnStock(order) => ReturnStep(s, order)
    case ReturnSome(order, wanted) => ReturnSomeStep(s, order, wanted)
    case Adjust(kind, lines) => AdjustStep(s, kind, lines)
  }

  predicate Feasible(s: Stock, ops: seq<StockOp>)
    decreases |ops|, 0
  {
    ops == [] ||
    var last := |ops| - 1;
    Feasible(s, ops[..last]) && Allowed(Exec(s, ops[..last]), ops[last])
  }

  function Exec(s: Stock, ops: seq<StockOp>): Stock
    requires Feasible(s, ops)
    decreases |ops|, 1
  {
    if ops == [] then s else Step(Exec(s, ops[..|ops| - 1]), ops[|ops| - 1])
  }

  // ---------------------------------------------------------------- conservation

  /** What one line of an adjustment has to be. */
  predicate Acceptable(kind: AdjustmentKind, l: AdjustmentLine, info: VariantInfo) {
    && info.tracked && (info.byUnit ==> l.qty % MILLI == 0)
    && (kind.KReceipt? || kind.KLoss? ==> 0 < l.qty)
    && (kind.KAdjustment? ==> l.qty != 0)
    && (kind.KCount? ==> 0 <= l.qty)
    && (l.hasCost ==> kind.KReceipt?)
  }

  lemma {:induction false} NoLineProblem(kind: AdjustmentKind, lines: seq<AdjustmentLine>, found: map<nat, VariantInfo>)
    requires forall l | l in lines :: l.variant in found
    ensures FirstLineProblem(kind, lines, found).None?
      <==> forall l | l in lines :: Acceptable(kind, l, found[l.variant])
  {
    if lines != [] {
      NoLineProblem(kind, lines[1..], found);
      assert lines == [lines[0]] + lines[1..];
    }
  }

  /** A request passes its checks exactly when a reason is given where one is needed and the lines are
      distinct, known and acceptable, one by one; and then they are well-formed. */
  lemma CheckedLinesAreWellFormed(kind: AdjustmentKind, hasReason: bool, lines: seq<AdjustmentLine>, found: map<nat, VariantInfo>)
    ensures RequestProblem(kind, hasReason, lines, found).None? <==>
      && (kind.KAdjustment? || kind.KLoss? ==> hasReason)
      && Distinct(lines)
      && forall l | l in lines :: l.variant in found && Acceptable(kind, l, found[l.variant])
    ensures RequestProblem(kind, hasReason, lines, found).None? ==> WellFormed(kind, lines)
  {
    if forall l | l in lines :: l.variant in found {
      NoLineProblem(kind, lines, found);
    }
  }

  lemma SetMinLevelKeepsBooks(s: Stock, v: nat, level: Option<int>)
    requires Books(s)
    ensures Books(SetMinLevelStep(s, v, level))
  {
    WithBalancesKeepsBooks(s, {v});
    var locked := WithBalances(s, {v});
    var t := SetMinLevelStep(s, v, level);
    forall i: nat | i < |t.movements| ensures MovementOk(t, i) {
      assert MovementOk(locked, i);
    }
    forall u | u in t.balances ensures BalanceOk(t, u) {
      assert BalanceOk(locked, u);
    }
  }

  lemma AdjustStepKeepsBooks(s: Stock, kind: AdjustmentKind, lines: seq<AdjustmentLine>)
    requires Books(s)
    ensures Books(AdjustStep(s, kind, lines))
  {
    var ids := set l | l in lines :: l.variant;
    WithBalancesKeepsBooks(s, ids);
    var locked := WithBalances(s, ids);
    AdjustAllKeepsBooks(locked, kind, lines);
    BooksIgnoreEvents(AdjustAll(locked, kind, lines), AdjustStep(s, kind, lines).events);
  }

  lemma ReserveKeepsBooks(s: Stock, order: nat, needs: map<nat, int>)
    requires Books(s) && Available(s, needs)
    ensures Books(ReserveStep(s, order, needs))
  {
    if Holdable(s, order, needs) {
      HoldAllKeepsBooks(s, order, SortedIds(needs.Keys), needs);
    }
  }

  lemma RecoverKeepsBooks(s: Stock, order: nat)
    requires Books(s)
    ensures Books(RecoverStep(s, order))
  {
    var vs := Lines(s, order, Expired);
    if Recoverable(s, order) {
      MoveLinesKeepsBooks(s, order, vs, Sell);
    } else {
      WithBalancesKeepsBooks(s, set v | v in vs);
    }
  }

  lemma ReturnSomeKeepsBooks(s: Stock, order: nat, wanted: map<nat, int>)
    requires Books(s)
    ensures Books(ReturnSomeStep(s, order, wanted))
  {
    MoveLinesKeepsBooks(s, order, Asked(s, order, wanted), TakeBackSome(wanted));
  }

  lemma LinesMoveKeepsBooks(s: Stock, order: nat, status: ReservationStatus, m: Move)
    requires Books(s)
    requires (status.Active? && (m.Sell? || m.Free?)) || (status.Committed? && m.TakeBack?)
    ensures Books(MoveLines(s, order, Lines(s, order, status), m))
  {
    MoveLinesKeepsBooks(s, order, Lines(s, order, status), m);
  }

  lemma StepKeepsBooks(s: Stock, op: StockOp)
    requires Books(s) && Allowed(s, op)
    ensures Books(Step(s, op))
  {
    match op
    case OpenBalance(v) => WithBalancesKeepsBooks(s, {v});
    case SetMinLevel(v, level) => SetMinLevelKeepsBooks(s, v, level);
    case Reserve(order, needs) => ReserveKeepsBooks(s, order, needs);
    case Commit(order) => LinesMoveKeepsBooks(s, order, Active, Sell);
    case Release(order, expired) => LinesMoveKeepsBooks(s, order, Active, Free(expired));
    case Recover(order) => RecoverKeepsBooks(s, order);
    case ReturnStock(order) => LinesMoveKeepsBooks(s, order, Committed, TakeBack);
    case ReturnSome(order, wanted) => ReturnSomeKeepsBooks(s, order, wanted);
    case Adjust(kind, lines) => AdjustStepKeepsBooks(s, kind, lines);
  }

  /** Stock is conserved in every reachable state. */
  lemma {:induction false} EveryRunKeepsBooks(s: Stock, ops: seq<StockOp>)
    requires Books(s) && Feasible(s, ops)
    ensures Books(Exec(s, ops))
  {
    if ops != [] {
      EveryRunKeepsBooks(s, ops[..|ops| - 1]);
      StepKeepsBooks(Exec(s, ops[..|ops| - 1]), ops[|ops| - 1]);
    }
  }

  /** The same, spelled out for one variant of a store that started empty: the shelf is the ledger
      total and also what was put in by hand less what is sold; the hold is what active lines hold;
      the last movement shows the level. */
  lemma StockIsConserved(ops: seq<StockOp>, v: nat)
    requires Feasible(EMPTY, ops)
    requires v in Exec(EMPTY, ops).balances
    ensures var s := Exec(EMPTY, ops); var b := s.balances[v];
      && b.onHand == LedgerSum(s.movements, v)
      && b.onHand == AdjustedSum(s.movements, v) - SoldSum(s, v)
      && b.reserved == HeldSum(s, v)
      && (s.movements != [] && s.movements[|s.movements| - 1].variant == v
          ==> s.movements[|s.movements| - 1].balanceAfter == b.onHand)
  {
    EmptyBooks();
    EveryRunKeepsBooks(EMPTY, ops);
    var s := Exec(EMPTY, ops);
    assert BalanceOk(s, v);
    if s.movements != [] {
      var last := |s.movements| - 1;
      assert MovementOk(s, last);
      assert s.movements[..last + 1] == s.movements;
    }
  }

  lemma StepAppendsToLedger(s: Stock, op: StockOp)
    requires Allowed(s, op)
    ensures s.movements <= Step(s, op).movements
  {
    match op
    case Commit(order) => MoveLinesAppends(s, order, Lines(s, order, Active), Sell);
    case Release(order, expired) => MoveLinesAppends(s, order, Lines(s, order, Active), Free(expired));
    case Recover(order) => MoveLinesAppends(s, order, Lines(s, order, Expired), Sell);
    case ReturnStock(order) => MoveLinesAppends(s, order, Lines(s, order, Committed), TakeBack);
    case ReturnSome(order, wanted) => MoveLinesAppends(s, order, Asked(s, order, wanted), TakeBackSome(wanted));
    case Adjust(kind, lines) =>
      AdjustAllAppends(WithBalances(s, set l | l in lines :: l.variant), kind, lines);
    case _ =>
  }

  lemma MoveLinesAppends(s: Stock, order: nat, vs: seq<nat>, m: Move)
    requires forall v | v in vs :: (order, v) in s.reservations
    ensures s.movements <= MoveLines(s, order, vs, m).movements
  {
    PostAllAppends(WithBalances(s, set v | v in vs), order, vs, m);
  }

  /** The ledger is append-only over any stretch of any run. */
  lemma {:induction false} LedgerIsAppendOnly(s: Stock, ops: seq<StockOp>, more: seq<StockOp>)
    requires Feasible(s, ops) && Feasible(s, ops + more)
    ensures Exec(s, ops).movements <= Exec(s, ops + more).movements
  {
    if more == [] {
      assert ops + more == ops;
    } else {
      var last := |more| - 1;
      assert (ops + more)[..|ops + more| - 1] == ops + more[..last];
      LedgerIsAppendOnly(s, ops, more[..last]);
      StepAppendsToLedger(Exec(s, ops + more[..last]), more[last]);
    }
  }
}
