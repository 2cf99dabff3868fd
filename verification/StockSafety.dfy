/** What the stock promises its customers: nothing is sold twice, a late payment is honoured only
    when every line still fits, and returns put back exactly what was sold. */
module StockSafety {
  import opened Common
  import opened Stock
  import opened StockBooks
  import opened StockRuns

  // ---------------------------------------------------------------- overselling

  /** How many units are promised to open orders beyond what is on the shelf. */
  function Shortfall(s: Stock, v: nat): int {
    if v in s.balances then Max(0, s.balances[v].reserved - s.balances[v].onHand) else 0
  }

  lemma ShortfallOfMoved(s: Stock, t: Stock, order: nat, m: Move, v: nat)
    requires (order, v) in s.reservations && v in s.balances
    requires LineOk(s.reservations[(order, v)]) && Applies(m, s.reservations[(order, v)])
    requires s.reservations[(order, v)].status.Expired? ==>
      s.reservations[(order, v)].quantity <= s.balances[v].onHand - s.balances[v].reserved
    requires Moved(s, t, order, m, v)
    ensures Shortfall(t, v) <= Shortfall(s, v)
  {
  }

  lemma MovesNeverOversell(s: Stock, order: nat, vs: seq<nat>, m: Move, v: nat)
    requires Books(s) && Ascending(vs)
    requires forall u | u in vs :: (order, u) in s.reservations && Applies(m, s.reservations[(order, u)])
    requires forall u | u in vs :: s.reservations[(order, u)].status.Expired? ==>
      u in s.balances && s.reservations[(order, u)].quantity <= s.balances[u].onHand - s.balances[u].reserved
    ensures Shortfall(MoveLines(s, order, vs, m), v) <= Shortfall(s, v)
  {
    if v in vs {
      MoveLinesEach(s, order, vs, m, v);
      ShortfallOfMoved(s, MoveLines(s, order, vs, m), order, m, v);
    } else {
      MoveLinesElsewhere(s, order, vs, m, v);
    }
  }

  lemma HoldsNeverOversell(s: Stock, order: nat, needs: map<nat, int>, v: nat)
    requires Available(s, needs)
    ensures Shortfall(ReserveStep(s, order, needs), v) <= Shortfall(s, v)
  {
    var vs := SortedIds(needs.Keys);
    if Holdable(s, order, needs) && v in vs {
      HoldAllEach(s, order, vs, needs, v);
    }
  }

  function Locked(s: Stock, lines: seq<AdjustmentLine>): Stock {
    WithBalances(s, set l | l in lines :: l.variant)
  }

  /** Where an accepted adjustment leaves the balance of its line `i`. */
  lemma AdjustedAt(s: Stock, kind: AdjustmentKind, lines: seq<AdjustmentLine>, i: nat)
    requires Distinct(lines) && i < |lines| && BalanceProblem(Locked(s, lines), kind, lines).None?
    ensures var v := lines[i].variant;
      var b := Locked(s, lines).balances[v];
      var level := LevelAfter(kind, b.onHand, lines[i].qty);
      && v in AdjustStep(s, kind, lines).balances
      && AdjustStep(s, kind, lines).balances[v] == b.(onHand := level)
      && 0 <= level
      && (kind.KLoss? || kind.KAdjustment? ==> b.reserved <= level)
  {
    var locked := Locked(s, lines);
    AdjustAllEach(locked, kind, lines, i);
    AnEmptyPickHasNoBadLine(locked, kind, lines, BELOW_ZERO, i);
    if kind.KLoss? || kind.KAdjustment? {
      AnEmptyPickHasNoBadLine(locked, kind, lines, BELOW_RESERVED, i);
    }
  }

  /** Balances without a line, and every balance when the adjustment is refused. */
  lemma AdjustedElsewhere(s: Stock, kind: AdjustmentKind, lines: seq<AdjustmentLine>, v: nat)
    requires BalanceProblem(Locked(s, lines), kind, lines).Some? || forall i | 0 <= i < |lines| :: lines[i].variant != v
    ensures var t := AdjustStep(s, kind, lines);
      && (v in t.balances <==> v in s.balances)
      && (v in s.balances ==> t.balances[v] == s.balances[v])
  {
  }

  /** An accepted loss or adjustment leaves at least what is reserved; a receipt only adds. */
  lemma AdjustmentsNeverOversell(s: Stock, kind: AdjustmentKind, lines: seq<AdjustmentLine>, v: nat)
    requires WellFormed(kind, lines) && !kind.KCount?
    ensures Shortfall(AdjustStep(s, kind, lines), v) <= Shortfall(s, v)
  {
    if BalanceProblem(Locked(s, lines), kind, lines).None? && exists i :: 0 <= i < |lines| && lines[i].variant == v {
      var i :| 0 <= i < |lines| && lines[i].variant == v;
      AdjustedAt(s, kind, lines, i);
    } else {
      AdjustedElsewhere(s, kind, lines, v);
    }
  }

  lemma RecoverNeverOversells(s: Stock, order: nat, v: nat)
    requires Books(s)
    ensures Shortfall(RecoverStep(s, order), v) <= Shortfall(s, v)
  {
    var vs := Lines(s, order, Expired);
    if Recoverable(s, order) {
      MovesNeverOversell(s, order, vs, Sell, v);
    }
  }

  /** No operation but a physical count makes the shortfall of any variant grow. */
  lemma OnlyACountOversells(s: Stock, op: StockOp, v: nat)
    requires Books(s) && Allowed(s, op)
    requires !(op.Adjust? && op.kind.KCount?)
    ensures Shortfall(Step(s, op), v) <= Shortfall(s, v)
  {
    match op
    case Reserve(order, needs) => HoldsNeverOversell(s, order, needs, v);
    case Commit(order) => MovesNeverOversell(s, order, Lines(s, order, Active), Sell, v);
    case Release(order, expired) => MovesNeverOversell(s, order, Lines(s, order, Active), Free(expired), v);
    case Recover(order) => RecoverNeverOversells(s, order, v);
    case ReturnStock(order) => MovesNeverOversell(s, order, Lines(s, order, Committed), TakeBack, v);
    case ReturnSome(order, wanted) =>
      MovesNeverOversell(s, order, Asked(s, order, wanted), TakeBackSome(wanted), v);
    case Adjust(kind, lines) => AdjustmentsNeverOversell(s, kind, lines, v);
    case _ =>
  }

  /** A count is never refused, and it makes the shortfall grow exactly when it finds less than
      what is reserved and less than what the shelf was believed to hold. */
  lemma ACountOversellsExactly(s: Stock, lines: seq<AdjustmentLine>, v: nat)
    requires Books(s) && WellFormed(KCount, lines)
    ensures BalanceProblem(Locked(s, lines), KCount, lines).None?
    ensures Shortfall(AdjustStep(s, KCount, lines), v) > Shortfall(s, v) <==>
      v in s.balances && exists i: nat ::
        i < |lines| && lines[i].variant == v && lines[i].qty < Min(s.balances[v].reserved, s.balances[v].onHand)
  {
    CountsAreAccepted(s, lines);
    if exists i: nat :: i < |lines| && lines[i].variant == v {
      var i: nat :| i < |lines| && lines[i].variant == v;
      AdjustedAt(s, KCount, lines, i);
      forall j: nat | j < |lines| && lines[j].variant == v ensures j == i {
      }
    } else {
      AdjustedElsewhere(s, KCount, lines, v);
    }
  }

  lemma CountsAreAccepted(s: Stock, lines: seq<AdjustmentLine>)
    requires WellFormed(KCount, lines)
    ensures BalanceProblem(Locked(s, lines), KCount, lines).None?
  {
    var short := PickedLines(Locked(s, lines), KCount, lines, BELOW_ZERO);
    if short != [] {
      PickedLinesExactly(Locked(s, lines), KCount, lines, BELOW_ZERO, short[0]);
      assert false;
    }
  }

  /** A count that does not find less than what open orders hold. */
  predicate Covered(s: Stock, op: StockOp) {
    op.Adjust? && op.kind.KCount? ==>
      forall l | l in op.lines && l.variant in s.balances :: s.balances[l.variant].reserved <= l.qty
  }

  predicate EveryCountCovered(s: Stock, ops: seq<StockOp>)
    requires Feasible(s, ops)
  {
    ops == [] ||
    var last := |ops| - 1;
    EveryCountCovered(s, ops[..last]) && Covered(Exec(s, ops[..last]), ops[last])
  }

  lemma {:induction false} ShortfallStaysZero(ops: seq<StockOp>, v: nat)
    requires Feasible(EMPTY, ops) && EveryCountCovered(EMPTY, ops)
    ensures Shortfall(Exec(EMPTY, ops), v) == 0
  {
    if ops != [] {
      var last := |ops| - 1;
      var s, op := Exec(EMPTY, ops[..last]), ops[last];
      ShortfallStaysZero(ops[..last], v);
      EmptyBooks();
      EveryRunKeepsBooks(EMPTY, ops[..last]);
      if op.Adjust? && op.kind.KCount? {
        ACountOversellsExactly(s, op.lines, v);
      } else {
        OnlyACountOversells(s, op, v);
      }
    }
  }

  /** Without a count below what is reserved, the shelf always covers every open order. */
  lemma NeverOversold(ops: seq<StockOp>, v: nat)
    requires Feasible(EMPTY, ops) && EveryCountCovered(EMPTY, ops)
    requires v in Exec(EMPTY, ops).balances
    ensures var b := Exec(EMPTY, ops).balances[v]; 0 <= b.reserved <= b.onHand
  {
    var s := Exec(EMPTY, ops);
    ShortfallStaysZero(ops, v);
    EmptyBooks();
    EveryRunKeepsBooks(EMPTY, ops);
    assert BalanceOk(s, v);
    SumMapNonNegative(s.reservations, HeldBy(v));
  }

  // ---------------------------------------------------------------- late payments

  ghost function ExpiredBy(order: nat, v: nat): (Line, Reservation) -> int {
    (k: Line, r: Reservation) => if k.0 == order && k.1 == v && r.status.Expired? then r.quantity else 0
  }

  /** Everything the order's expired lines need of a variant, taken together. */
  ghost function ExpiredNeed(s: Stock, order: nat, v: nat): int {
    SumMap(s.reservations, ExpiredBy(order, v))
  }

  /** One line per order and variant: the order's whole need of a variant is that line's. */
  lemma OneLinePerVariant(s: Stock, order: nat, v: nat)
    requires (order, v) in s.reservations && s.reservations[(order, v)].status.Expired?
    ensures ExpiredNeed(s, order, v) == s.reservations[(order, v)].quantity
  {
    SumMapTake(s.reservations, ExpiredBy(order, v), (order, v));
    var others := s.reservations - {(order, v)};
    forall k | k in others ensures ExpiredBy(order, v)(k, others[k]) == 0 {
      assert k != (order, v);
    }
    SumMapZero(others, ExpiredBy(order, v));
  }

  /** The order has expired lines, and taken together they are still available. */
  ghost predicate FitsTogether(s: Stock, order: nat) {
    forall v | (order, v) in s.reservations && s.reservations[(order, v)].status.Expired? ::
      v in s.balances && ExpiredNeed(s, order, v) <= s.balances[v].onHand - s.balances[v].reserved
  }

  /** A late payment is honoured if and only if everything it needs fits at the same time. */
  lemma RecoversExactlyWhatFits(s: Stock, order: nat)
    requires Books(s)
    ensures Recoverable(s, order) <==> FitsTogether(s, order)
  {
    var vs := Lines(s, order, Expired);
    LockingOwnLinesChangesNothing(s, order, vs);
    forall v | (order, v) in s.reservations && s.reservations[(order, v)].status.Expired?
      ensures v in vs && ExpiredNeed(s, order, v) == s.reservations[(order, v)].quantity
    {
      OneLinePerVariant(s, order, v);
    }
  }

  lemma LockingOwnLinesChangesNothing(s: Stock, order: nat, vs: seq<nat>)
    requires Books(s) && forall v | v in vs :: (order, v) in s.reservations
    ensures WithBalances(s, set v | v in vs) == s
  {
    forall v | v in vs ensures v in s.balances {
      assert (order, v).1 in s.balances;
    }
    assert WithBalances(s, set v | v in vs).balances == s.balances;
  }

  /** All or nothing: either every expired line is sold and still covered, or nothing changed. */
  lemma RecoverIsAllOrNothing(s: Stock, order: nat, v: nat)
    requires Books(s) && (order, v) in s.reservations && s.reservations[(order, v)].status.Expired?
    ensures var t := RecoverStep(s, order); var q := s.reservations[(order, v)].quantity;
      if Recoverable(s, order) then
        && (order, v) in t.reservations && t.reservations[(order, v)].status.Committed?
        && v in t.balances && t.balances[v].onHand == s.balances[v].onHand - q
        && t.balances[v].reserved == s.balances[v].reserved <= t.balances[v].onHand
      else t == s
  {
    var vs := Lines(s, order, Expired);
    LockingOwnLinesChangesNothing(s, order, vs);
    assert (order, v).1 in s.balances;
    if Recoverable(s, order) {
      MoveLinesEach(s, order, vs, Sell, v);
    }
  }

  // ---------------------------------------------------------------- returns

  /** Every request of a series of partial returns on one order. */
  function PartialReturns(order: nat, asks: seq<map<nat, int>>): (ops: seq<StockOp>)
    ensures |ops| == |asks|
    ensures forall i | 0 <= i < |asks| :: ops[i] == ReturnSome(order, asks[i])
  {
    seq(|asks|, i requires 0 <= i < |asks| => ReturnSome(order, asks[i]))
  }

  lemma {:induction false} PartialReturnsFeasible(s: Stock, order: nat, asks: seq<map<nat, int>>)
    ensures Feasible(s, PartialReturns(order, asks))
  {
    if asks != [] {
      var last := |asks| - 1;
      PartialReturnsFeasible(s, order, asks[..last]);
      assert PartialReturns(order, asks)[..last] == PartialReturns(order, asks[..last]);
    }
  }

  predicate SoldLine(s: Stock, order: nat, v: nat) {
    && (order, v) in s.reservations && v in s.balances
    && (s.reservations[(order, v)].status.Committed? || s.reservations[(order, v)].status.Returned?)
  }

  /** What a line's units come to, wherever they are: on the shelf or with the customer. */
  function ShelfAndSold(s: Stock, order: nat, v: nat): int
    requires SoldLine(s, order, v)
  {
    s.balances[v].onHand + Sold(s.reservations[(order, v)])
  }

  lemma TakingBackMovesToShelf(s: Stock, order: nat, vs: seq<nat>, m: Move, v: nat)
    requires Books(s) && Ascending(vs) && (m.TakeBack? || m.TakeBackSome?)
    requires forall u | u in vs :: (order, u) in s.reservations && Applies(m, s.reservations[(order, u)])
    requires SoldLine(s, order, v)
    ensures SoldLine(MoveLines(s, order, vs, m), order, v)
    ensures ShelfAndSold(MoveLines(s, order, vs, m), order, v) == ShelfAndSold(s, order, v)
    ensures m.TakeBack? && v in vs ==> MoveLines(s, order, vs, m).reservations[(order, v)].status.Returned?
    ensures v !in vs ==> MoveLines(s, order, vs, m).reservations[(order, v)] == s.reservations[(order, v)]
  {
    if v in vs {
      MoveLinesEach(s, order, vs, m, v);
    } else {
      MoveLinesElsewhere(s, order, vs, m, v);
    }
  }

  /** However many partial returns are made, the line's units are all accounted for. */
  lemma {:induction false} ReturnsSoFar(s: Stock, order: nat, asks: seq<map<nat, int>>, v: nat)
    requires Books(s) && SoldLine(s, order, v)
    requires Feasible(s, PartialReturns(order, asks))
    ensures var t := Exec(s, PartialReturns(order, asks));
      Books(t) && SoldLine(t, order, v) && ShelfAndSold(t, order, v) == ShelfAndSold(s, order, v)
  {
    if asks != [] {
      var last := |asks| - 1;
      PartialReturnsFeasible(s, order, asks[..last]);
      var ops := PartialReturns(order, asks);
      assert ops[..last] == PartialReturns(order, asks[..last]);
      ReturnsSoFar(s, order, asks[..last], v);
      OneMoreReturn(Exec(s, ops[..last]), order, asks[last], v);
      assert Exec(s, ops) == Step(Exec(s, ops[..last]), ReturnSome(order, asks[last]));
    }
  }

  lemma OneMoreReturn(s: Stock, order: nat, wanted: map<nat, int>, v: nat)
    requires Books(s) && SoldLine(s, order, v)
    ensures var t := ReturnSomeStep(s, order, wanted);
      Books(t) && SoldLine(t, order, v) && ShelfAndSold(t, order, v) == ShelfAndSold(s, order, v)
  {
    TakingBackMovesToShelf(s, order, Asked(s, order, wanted), TakeBackSome(wanted), v);
    ReturnSomeKeepsBooks(s, order, wanted);
  }

  /** However a return is split, and however much each part asks for, closing it with the order's
      cancellation puts back exactly what the line had sold. */
  lemma ReturnsPutBackWhatWasSold(s: Stock, order: nat, asks: seq<map<nat, int>>, v: nat)
    requires Books(s) && (order, v) in s.reservations && s.reservations[(order, v)].status.Committed?
    ensures Feasible(s, PartialReturns(order, asks))
    ensures var t := ReturnStep(Exec(s, PartialReturns(order, asks)), order);
      && (order, v) in t.reservations && t.reservations[(order, v)].status.Returned?
      && v in s.balances && v in t.balances
      && t.balances[v].onHand == s.balances[v].onHand + s.reservations[(order, v)].quantity - s.reservations[(order, v)].returned
  {
    assert (order, v).1 in s.balances;
    PartialReturnsFeasible(s, order, asks);
    ReturnsSoFar(s, order, asks, v);
    CancellingReturnsTheRest(Exec(s, PartialReturns(order, asks)), order, v);
  }

  lemma CancellingReturnsTheRest(s: Stock, order: nat, v: nat)
    requires Books(s) && SoldLine(s, order, v)
    ensures SoldLine(ReturnStep(s, order), order, v)
    ensures ReturnStep(s, order).reservations[(order, v)].status.Returned?
    ensures ReturnStep(s, order).balances[v].onHand == ShelfAndSold(s, order, v)
  {
    var vs := Lines(s, order, Committed);
    TakingBackMovesToShelf(s, order, vs, TakeBack, v);
    LinesMoveKeepsBooks(s, order, Committed, TakeBack);
    FullyReturnedIsUnsold(ReturnStep(s, order), (order, v));
  }

  lemma FullyReturnedIsUnsold(s: Stock, k: Line)
    requires Books(s) && k in s.reservations && s.reservations[k].status.Returned?
    ensures Sold(s.reservations[k]) == 0
  {
  }

  /** A committed line always has something left to return, so cancelling it moves stock. */
  lemma ACommittedLineHasSomethingLeft(ops: seq<StockOp>, k: Line)
    requires Feasible(EMPTY, ops) && k in Exec(EMPTY, ops).reservations
    requires Exec(EMPTY, ops).reservations[k].status.Committed?
    ensures var r := Exec(EMPTY, ops).reservations[k]; 0 <= r.returned < r.quantity
  {
    EmptyBooks();
    EveryRunKeepsBooks(EMPTY, ops);
  }

  // ---------------------------------------------------------------- sell-outs are announced

  ghost predicate AnnouncedIn(s: Stock, t: Stock, v: nat) {
    s.events <= t.events && SoldOut(v) in t.events[|s.events|..]
  }

  ghost predicate Emptied(s: Stock, t: Stock, v: nat) {
    v in s.balances && v in t.balances && CrossedToZero(s.balances[v].onHand, t.balances[v].onHand)
  }

  lemma SalesAnnounceSellouts(s: Stock, order: nat, vs: seq<nat>, m: Move, v: nat)
    requires Books(s) && Ascending(vs)
    requires forall u | u in vs :: (order, u) in s.reservations && Applies(m, s.reservations[(order, u)])
    requires Emptied(s, MoveLines(s, order, vs, m), v)
    ensures AnnouncedIn(s, MoveLines(s, order, vs, m), v)
  {
    if v in vs {
      MoveLinesEach(s, order, vs, m, v);
      if m.Sell? {
        SaleEvents(s, order, vs, v);
      }
    } else {
      MoveLinesElsewhere(s, order, vs, m, v);
    }
  }

  lemma SaleEvents(s: Stock, order: nat, vs: seq<nat>, v: nat)
    requires forall u | u in vs :: (order, u) in s.reservations
    requires v in vs && Emptied(s, MoveLines(s, order, vs, Sell), v)
    ensures AnnouncedIn(s, MoveLines(s, order, vs, Sell), v)
  {
    var locked := WithBalances(s, set u | u in vs);
    var moved := PostAll(locked, order, vs, Sell);
    assert v in Picked(vs, EmptyAfter(locked, moved)) by {
      assert EmptyAfter(locked, moved)(v);
    }
    SoldOutAtTheEnd(s.events, LowEvents(Picked(vs, LowAfter(locked, moved))), Picked(vs, EmptyAfter(locked, moved)), v);
  }

  lemma SoldOutAtTheEnd(es: seq<StockEvent>, others: seq<StockEvent>, gone: seq<nat>, v: nat)
    requires v in gone
    ensures es <= es + others + SoldOutEvents(gone)
    ensures SoldOut(v) in (es + others + SoldOutEvents(gone))[|es|..]
  {
    var tail := SoldOutEvents(gone);
    assert SoldOut(v) in tail;
    var k :| 0 <= k < |tail| && tail[k] == SoldOut(v);
    assert (es + others + tail)[|es|..][|others| + k] == SoldOut(v);
  }

  lemma AdjustmentsAnnounceSellouts(s: Stock, kind: AdjustmentKind, lines: seq<AdjustmentLine>, v: nat)
    requires WellFormed(kind, lines) && Emptied(s, AdjustStep(s, kind, lines), v)
    ensures AnnouncedIn(s, AdjustStep(s, kind, lines), v)
  {
    var locked := Locked(s, lines);
    if BalanceProblem(locked, kind, lines).Some? || forall i | 0 <= i < |lines| :: lines[i].variant != v {
      AdjustedElsewhere(s, kind, lines, v);
      assert false;
    } else {
      var i: nat :| i < |lines| && lines[i].variant == v;
      AdjustedAt(s, kind, lines, i);
      PickedLinesExactly(locked, kind, lines, OUT, v);
      assert BadLine(locked, kind, lines[i], OUT);
      AdjustmentEvents(s, kind, lines, v);
    }
  }

  lemma AdjustmentEvents(s: Stock, kind: AdjustmentKind, lines: seq<AdjustmentLine>, v: nat)
    requires BalanceProblem(Locked(s, lines), kind, lines).None?
    requires v in PickedLines(Locked(s, lines), kind, lines, OUT)
    ensures AnnouncedIn(s, AdjustStep(s, kind, lines), v)
  {
    var locked := Locked(s, lines);
    SoldOutAfterTwo(s.events,
                    OversoldEvents(PickedLines(locked, kind, lines, BELOW_RESERVED)),
                    LowEvents(PickedLines(locked, kind, lines, LOW)),
                    PickedLines(locked, kind, lines, OUT), v);
  }

  lemma SoldOutAfterTwo(es: seq<StockEvent>, a: seq<StockEvent>, b: seq<StockEvent>, gone: seq<nat>, v: nat)
    requires v in gone
    ensures es <= es + a + b + SoldOutEvents(gone)
    ensures SoldOut(v) in (es + a + b + SoldOutEvents(gone))[|es|..]
  {
    SoldOutAtTheEnd(es, a + b, gone, v);
    assert es + (a + b) + SoldOutEvents(gone) == es + a + b + SoldOutEvents(gone);
  }

  lemma HoldsEmptyNothing(s: Stock, order: nat, needs: map<nat, int>, v: nat)
    requires Available(s, needs)
    ensures !Emptied(s, ReserveStep(s, order, needs), v)
  {
    var vs := SortedIds(needs.Keys);
    if Holdable(s, order, needs) && v in vs {
      HoldAllEach(s, order, vs, needs, v);
    }
  }

  lemma RecoveriesAnnounceSellouts(s: Stock, order: nat, v: nat)
    requires Books(s)
    ensures Emptied(s, RecoverStep(s, order), v) ==> AnnouncedIn(s, RecoverStep(s, order), v)
  {
    if Emptied(s, RecoverStep(s, order), v) && Recoverable(s, order) {
      SalesAnnounceSellouts(s, order, Lines(s, order, Expired), Sell, v);
    }
  }

  // ---------------------------------------------------------------- and nothing else is

  lemma OnlyTheTailAnnounces(es: seq<StockEvent>, others: seq<StockEvent>, gone: seq<nat>, v: nat)
    requires forall e | e in others :: !e.SoldOut?
    requires SoldOut(v) in (es + others + SoldOutEvents(gone))[|es|..]
    ensures v in gone
  {
    assert (es + others + SoldOutEvents(gone))[|es|..] == others + SoldOutEvents(gone);
  }

  lemma OnlyTheTailOfTwoAnnounces(es: seq<StockEvent>, a: seq<StockEvent>, b: seq<StockEvent>, gone: seq<nat>, v: nat)
    requires forall e | e in a || e in b :: !e.SoldOut?
    requires SoldOut(v) in (es + a + b + SoldOutEvents(gone))[|es|..]
    ensures v in gone
  {
    assert es + (a + b) + SoldOutEvents(gone) == es + a + b + SoldOutEvents(gone);
    OnlyTheTailAnnounces(es, a + b, gone, v);
  }

  lemma SalesAnnounceOnlySellouts(s: Stock, order: nat, vs: seq<nat>, m: Move, v: nat)
    requires forall u | u in vs :: (order, u) in s.reservations
    requires AnnouncedIn(s, MoveLines(s, order, vs, m), v)
    ensures Emptied(s, MoveLines(s, order, vs, m), v)
  {
    var locked := WithBalances(s, set u | u in vs);
    var moved := PostAll(locked, order, vs, m);
    if m.Sell? {
      var gone := Picked(vs, EmptyAfter(locked, moved));
      OnlyTheTailAnnounces(s.events, LowEvents(Picked(vs, LowAfter(locked, moved))), gone, v);
      assert EmptyAfter(locked, moved)(v);
    }
  }

  lemma AnAnnouncedLineIsOut(s: Stock, kind: AdjustmentKind, lines: seq<AdjustmentLine>, v: nat)
    requires BalanceProblem(Locked(s, lines), kind, lines).None?
    requires AnnouncedIn(s, AdjustStep(s, kind, lines), v)
    ensures v in PickedLines(Locked(s, lines), kind, lines, OUT)
  {
    var locked := Locked(s, lines);
    OnlyTheTailOfTwoAnnounces(s.events,
                              OversoldEvents(PickedLines(locked, kind, lines, BELOW_RESERVED)),
                              LowEvents(PickedLines(locked, kind, lines, LOW)),
                              PickedLines(locked, kind, lines, OUT), v);
  }

  lemma AnOutLineIsEmptied(s: Stock, kind: AdjustmentKind, lines: seq<AdjustmentLine>, i: nat)
    requires Distinct(lines) && i < |lines| && BalanceProblem(Locked(s, lines), kind, lines).None?
    requires BadLine(Locked(s, lines), kind, lines[i], OUT)
    ensures Emptied(s, AdjustStep(s, kind, lines), lines[i].variant)
  {
    AdjustedAt(s, kind, lines, i);
  }

  lemma AdjustmentsAnnounceOnlySellouts(s: Stock, kind: AdjustmentKind, lines: seq<AdjustmentLine>, v: nat)
    requires WellFormed(kind, lines) && AnnouncedIn(s, AdjustStep(s, kind, lines), v)
    ensures Emptied(s, AdjustStep(s, kind, lines), v)
  {
    if BalanceProblem(Locked(s, lines), kind, lines).None? {
      AnAnnouncedLineIsOut(s, kind, lines, v);
      PickedLinesExactly(Locked(s, lines), kind, lines, OUT, v);
      var i: nat :| i < |lines| && lines[i].variant == v && BadLine(Locked(s, lines), kind, lines[i], OUT);
      AnOutLineIsEmptied(s, kind, lines, i);
    }
  }

  lemma RecoveriesAnnounceOnlySellouts(s: Stock, order: nat, v: nat)
    requires AnnouncedIn(s, RecoverStep(s, order), v)
    ensures Emptied(s, RecoverStep(s, order), v)
  {
    if Recoverable(s, order) {
      SalesAnnounceOnlySellouts(s, order, Lines(s, order, Expired), Sell, v);
    }
  }

  lemma OnlySelloutsAreAnnounced(s: Stock, op: StockOp, v: nat)
    requires Allowed(s, op) && AnnouncedIn(s, Step(s, op), v)
    ensures Emptied(s, Step(s, op), v)
  {
    match op
    case Commit(order) => SalesAnnounceOnlySellouts(s, order, Lines(s, order, Active), Sell, v);
    case Release(order, expired) => SalesAnnounceOnlySellouts(s, order, Lines(s, order, Active), Free(expired), v);
    case Recover(order) => RecoveriesAnnounceOnlySellouts(s, order, v);
    case ReturnStock(order) => SalesAnnounceOnlySellouts(s, order, Lines(s, order, Committed), TakeBack, v);
    case ReturnSome(order, wanted) =>
      SalesAnnounceOnlySellouts(s, order, Asked(s, order, wanted), TakeBackSome(wanted), v);
    case Adjust(kind, lines) => AdjustmentsAnnounceOnlySellouts(s, kind, lines, v);
    case _ =>
  }

  lemma EmptiedIsAnnounced(s: Stock, op: StockOp, v: nat)
    requires Books(s) && Allowed(s, op) && Emptied(s, Step(s, op), v)
    ensures AnnouncedIn(s, Step(s, op), v)
  {
    match op
    case Reserve(order, needs) => HoldsEmptyNothing(s, order, needs, v);
    case Commit(order) => SalesAnnounceSellouts(s, order, Lines(s, order, Active), Sell, v);
    case Release(order, expired) => SalesAnnounceSellouts(s, order, Lines(s, order, Active), Free(expired), v);
    case Recover(order) => RecoveriesAnnounceSellouts(s, order, v);
    case ReturnStock(order) => SalesAnnounceSellouts(s, order, Lines(s, order, Committed), TakeBack, v);
    case ReturnSome(order, wanted) =>
      SalesAnnounceSellouts(s, order, Asked(s, order, wanted), TakeBackSome(wanted), v);
    case Adjust(kind, lines) => AdjustmentsAnnounceSellouts(s, kind, lines, v);
    case _ =>
  }

  /** An operation announces that a variant sold out exactly when it took its shelf from above zero to
      zero or below. */
  lemma SelloutsAreAnnouncedExactly(s: Stock, op: StockOp, v: nat)
    requires Books(s) && Allowed(s, op)
    ensures Emptied(s, Step(s, op), v) <==> AnnouncedIn(s, Step(s, op), v)
  {
    if Emptied(s, Step(s, op), v) {
      EmptiedIsAnnounced(s, op, v);
    }
    if AnnouncedIn(s, Step(s, op), v) {
      OnlySelloutsAreAnnounced(s, op, v);
    }
  }
}
