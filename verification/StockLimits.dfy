/** What the stock does not give: a count below what open orders hold, and the per-line check of a late
    payment if an order could list a variant twice. */
module StockLimits {
  import opened Common
  import opened Stock
  import opened StockBooks
  import opened StockRuns
  import opened StockSafety

  lemma OneMore(ops: seq<StockOp>, op: StockOp)
    requires Feasible(EMPTY, ops) && Allowed(Exec(EMPTY, ops), op)
    ensures Feasible(EMPTY, ops + [op]) && Exec(EMPTY, ops + [op]) == Step(Exec(EMPTY, ops), op)
  {
    assert (ops + [op])[..|ops + [op]| - 1] == ops;
  }

  function OneLine(v: nat, qty: int): seq<AdjustmentLine> {
    [AdjustmentLine(v, qty, false)]
  }

  lemma AfterReceipt(v: nat, qty: int)
    requires 0 < qty
    ensures var s := AdjustStep(EMPTY, KReceipt, OneLine(v, qty));
      v in s.balances && s.balances[v] == Balance(qty, 0, None) && s.reservations == map[]
  {
    var locked := Locked(EMPTY, OneLine(v, qty));
    AnAcceptedLine(locked, KReceipt, v, qty);
    AdjustedAt(EMPTY, KReceipt, OneLine(v, qty), 0);
  }

  lemma AnAcceptedLine(s: Stock, kind: AdjustmentKind, v: nat, qty: int)
    requires v in s.balances && 0 <= LevelAfter(kind, s.balances[v].onHand, qty) && (kind.KReceipt? || kind.KCount?)
    ensures BalanceProblem(s, kind, OneLine(v, qty)).None?
  {
    assert PickedLines(s, kind, OneLine(v, qty)[..0], BELOW_ZERO) == [];
    assert !BELOW_ZERO(s.balances[v], LevelAfter(kind, s.balances[v].onHand, qty));
  }

  lemma AfterHold(s: Stock, order: nat, v: nat, qty: int)
    requires v in s.balances && 0 < qty <= s.balances[v].onHand - s.balances[v].reserved && (order, v) !in s.reservations
    ensures Available(s, map[v := qty])
    ensures var t := ReserveStep(s, order, map[v := qty]);
      && v in t.balances && t.balances[v] == s.balances[v].(reserved := s.balances[v].reserved + qty)
      && (order, v) in t.reservations && t.reservations[(order, v)] == Reservation(qty, 0, Active)
  {
    HoldAllEach(s, order, SortedIds(map[v := qty].Keys), map[v := qty], v);
  }

  lemma AfterCount(s: Stock, v: nat, found: int)
    requires v in s.balances && 0 <= found
    ensures var t := AdjustStep(s, KCount, OneLine(v, found));
      && v in t.balances && t.balances[v] == s.balances[v].(onHand := found) && t.reservations == s.reservations
  {
    AnAcceptedLine(Locked(s, OneLine(v, found)), KCount, v, found);
    AdjustedAt(s, KCount, OneLine(v, found), 0);
  }

  lemma AfterSale(s: Stock, order: nat, v: nat, qty: int)
    requires v in s.balances && (order, v) in s.reservations && s.reservations[(order, v)] == Reservation(qty, 0, Active)
    ensures var t := CommitStep(s, order);
      v in t.balances && t.balances[v].onHand == s.balances[v].onHand - qty
  {
    MoveLinesEach(s, order, Lines(s, order, Active), Sell, v);
  }

  /** Goods come in, and an order holds them all. */
  function HoldingRun(v: nat, order: nat, held: int): seq<StockOp> {
    ReceivingRun(v, held) + [Reserve(order, map[v := held])]
  }

  function ReceivingRun(v: nat, held: int): seq<StockOp> {
    [] + [Adjust(KReceipt, OneLine(v, held))]
  }

  lemma AllIsReceived(v: nat, held: int)
    requires 0 < held
    ensures Feasible(EMPTY, ReceivingRun(v, held))
    ensures var s := Exec(EMPTY, ReceivingRun(v, held));
      v in s.balances && s.balances[v] == Balance(held, 0, None) && s.reservations == map[]
  {
    OneMore([], Adjust(KReceipt, OneLine(v, held)));
    AfterReceipt(v, held);
  }

  lemma AllIsHeld(v: nat, order: nat, held: int)
    requires 0 < held
    ensures Feasible(EMPTY, HoldingRun(v, order, held))
    ensures var s := Exec(EMPTY, HoldingRun(v, order, held));
      && v in s.balances && s.balances[v] == Balance(held, held, None)
      && (order, v) in s.reservations && s.reservations[(order, v)] == Reservation(held, 0, Active)
  {
    AllIsReceived(v, held);
    AfterHold(Exec(EMPTY, ReceivingRun(v, held)), order, v, held);
    OneMore(ReceivingRun(v, held), Reserve(order, map[v := held]));
  }

  lemma Counted(ops: seq<StockOp>, v: nat, found: int)
    requires Feasible(EMPTY, ops) && 0 <= found && v in Exec(EMPTY, ops).balances
    ensures var run := ops + [Adjust(KCount, OneLine(v, found))]; var s := Exec(EMPTY, ops);
      && Feasible(EMPTY, run) && v in Exec(EMPTY, run).balances
      && Exec(EMPTY, run).balances[v] == s.balances[v].(onHand := found)
      && Exec(EMPTY, run).reservations == s.reservations
  {
    OneMore(ops, Adjust(KCount, OneLine(v, found)));
    AfterCount(Exec(EMPTY, ops), v, found);
  }

  lemma Paid(s: Stock, v: nat, order: nat, held: int, found: int)
    requires 0 <= found < held && v in s.balances && s.balances[v] == Balance(found, held, None)
    requires (order, v) in s.reservations && s.reservations[(order, v)] == Reservation(held, 0, Active)
    ensures Shortfall(s, v) == held - found
    ensures v in CommitStep(s, order).balances && CommitStep(s, order).balances[v].onHand == found - held < 0
  {
    AfterSale(s, order, v, held);
  }

  /** Then a count finds fewer: from an empty store three operations oversell by any amount, and the
      sale takes the shelf below zero. */
  lemma ACountCanOversell(v: nat, order: nat, held: int, found: int) returns (run: seq<StockOp>)
    requires 0 <= found < held
    ensures Feasible(EMPTY, run) && Shortfall(Exec(EMPTY, run), v) == held - found
    ensures v in CommitStep(Exec(EMPTY, run), order).balances
    ensures CommitStep(Exec(EMPTY, run), order).balances[v].onHand == found - held < 0
  {
    AllIsHeld(v, order, held);
    Counted(HoldingRun(v, order, held), v, found);
    run := HoldingRun(v, order, held) + [Adjust(KCount, OneLine(v, found))];
    Paid(Exec(EMPTY, run), v, order, held, found);
  }

  // ---------------------------------------------------------------- one line per variant

  /** A line of an order as a late payment looks at it: a variant and a quantity. */
  datatype Need = Need(variant: nat, quantity: int)

  predicate EachLineFits(lines: seq<Need>, free: map<nat, int>) {
    forall l | l in lines :: l.variant in free && l.quantity <= free[l.variant]
  }

  function NeedOf(lines: seq<Need>, v: nat): int {
    if lines == [] then 0
    else NeedOf(lines[..|lines| - 1], v) + if lines[|lines| - 1].variant == v then lines[|lines| - 1].quantity else 0
  }

  predicate AllFitTogether(lines: seq<Need>, free: map<nat, int>) {
    forall l | l in lines :: l.variant in free && NeedOf(lines, l.variant) <= free[l.variant]
  }

  predicate NoRepeats(lines: seq<Need>) {
    forall i, j | 0 <= i < j < |lines| :: lines[i].variant != lines[j].variant
  }

  predicate Positive(lines: seq<Need>) {
    forall l | l in lines :: 0 < l.quantity
  }

  lemma {:induction false} NothingNeeded(lines: seq<Need>, v: nat)
    requires forall l | l in lines :: l.variant != v
    ensures NeedOf(lines, v) == 0
  {
    if lines != [] {
      assert lines[|lines| - 1] in lines;
      NothingNeeded(lines[..|lines| - 1], v);
    }
  }

  lemma {:induction false} OneLineNeedsItself(lines: seq<Need>, i: nat)
    requires NoRepeats(lines) && i < |lines|
    ensures NeedOf(lines, lines[i].variant) == lines[i].quantity
  {
    var last := |lines| - 1;
    if i == last {
      NothingNeeded(lines[..last], lines[i].variant);
    } else {
      assert lines[..last][i] == lines[i];
      OneLineNeedsItself(lines[..last], i);
    }
  }

  lemma {:induction false} NeededAtLeast(lines: seq<Need>, v: nat, i: nat)
    requires Positive(lines)
    ensures 0 <= NeedOf(lines, v)
    ensures i < |lines| && lines[i].variant == v ==> lines[i].quantity <= NeedOf(lines, v)
  {
    if lines != [] {
      var last := |lines| - 1;
      assert lines[last] in lines;
      NeededAtLeast(lines[..last], v, i);
      assert i < last ==> lines[..last][i] == lines[i];
    }
  }

  lemma {:induction false} TwoLinesNeedMore(lines: seq<Need>, i: nat, j: nat, k: nat)
    requires Positive(lines) && i < j < |lines| && lines[i].variant == lines[j].variant
    requires k < |lines| && lines[k].variant == lines[i].variant
    ensures lines[k].quantity < NeedOf(lines, lines[i].variant)
  {
    var last := |lines| - 1;
    var rest, v := lines[..last], lines[i].variant;
    assert lines[last] in lines;
    NeededAtLeast(rest, v, i);
    assert rest[i] == lines[i] && lines[i] in lines;
    if k < last {
      NeededAtLeast(rest, v, k);
      assert rest[k] == lines[k];
      if j < last {
        assert rest[j] == lines[j];
        TwoLinesNeedMore(rest, i, j, k);
      }
    }
  }

  /** Looking at each line by itself is enough, whatever is free, exactly when no variant is listed
      twice: it is the unique key of the reservations that makes the check of a late payment sound. */
  lemma LineByLineIsEnoughWithoutRepeats(lines: seq<Need>)
    requires Positive(lines)
    ensures NoRepeats(lines) <==> forall free :: EachLineFits(lines, free) ==> AllFitTogether(lines, free)
  {
    if NoRepeats(lines) {
      forall free | EachLineFits(lines, free) ensures AllFitTogether(lines, free) {
        forall l | l in lines ensures l.variant in free && NeedOf(lines, l.variant) <= free[l.variant] {
          var i :| 0 <= i < |lines| && lines[i] == l;
          OneLineNeedsItself(lines, i);
        }
      }
    } else {
      var i, j :| 0 <= i < j < |lines| && lines[i].variant == lines[j].variant;
      ARepeatFoolsTheCheck(lines, i, j);
    }
  }

  lemma ARepeatFoolsTheCheck(lines: seq<Need>, i: nat, j: nat)
    requires Positive(lines) && i < j < |lines| && lines[i].variant == lines[j].variant
    ensures exists free :: EachLineFits(lines, free) && !AllFitTogether(lines, free)
  {
    var v := lines[i].variant;
    var free := map l | l in lines :: l.variant := NeedOf(lines, l.variant) - if l.variant == v then 1 else 0;
    forall l | l in lines ensures l.variant in free && l.quantity <= free[l.variant] {
      var k :| 0 <= k < |lines| && lines[k] == l;
      if l.variant == v {
        TwoLinesNeedMore(lines, i, j, k);
      } else {
        NeededAtLeast(lines, l.variant, k);
      }
    }
    assert lines[i] in lines && free[v] == NeedOf(lines, v) - 1;
    assert EachLineFits(lines, free) && !AllFitTogether(lines, free);
  }

  // ---------------------------------------------------------------- the lines a late payment reads

  function ExpiredLines(s: Stock, order: nat): (lines: seq<Need>)
    ensures |lines| == |Lines(s, order, Expired)|
    ensures forall i | 0 <= i < |lines| ::
      var v := Lines(s, order, Expired)[i]; v in Lines(s, order, Expired) && lines[i] == Need(v, s.reservations[(order, v)].quantity)
  {
    var vs := Lines(s, order, Expired);
    seq(|vs|, i requires 0 <= i < |vs| => assert vs[i] in vs; Need(vs[i], s.reservations[(order, vs[i])].quantity))
  }

  function FreeIn(s: Stock): map<nat, int> {
    map v | v in s.balances :: s.balances[v].onHand - s.balances[v].reserved
  }

  lemma ExpiredLinesAreFine(s: Stock, order: nat)
    requires Books(s)
    ensures NoRepeats(ExpiredLines(s, order)) && Positive(ExpiredLines(s, order))
    ensures Recoverable(s, order) <==> EachLineFits(ExpiredLines(s, order), FreeIn(s))
  {
    var vs, lines := Lines(s, order, Expired), ExpiredLines(s, order);
    forall l | l in lines ensures 0 < l.quantity && l.variant in vs && l.variant in s.balances {
      var i :| 0 <= i < |lines| && lines[i] == l;
      assert LineOk(s.reservations[(order, vs[i])]);
    }
    assert Ascending(vs);
    forall v | v in vs ensures Need(v, s.reservations[(order, v)].quantity) in lines {
      var i :| 0 <= i < |vs| && vs[i] == v;
      assert lines[i] == Need(v, s.reservations[(order, v)].quantity);
    }
    LockingOwnLinesChangesNothing(s, order, vs);
  }

  /** The unique key keeps the order's expired lines free of repeats, and so a late payment, which looks
      at one line at a time, is honoured exactly when they all fit together. */
  lemma LatePaymentsAreCheckedInFull(s: Stock, order: nat)
    requires Books(s)
    ensures NoRepeats(ExpiredLines(s, order))
    ensures Recoverable(s, order) <==> AllFitTogether(ExpiredLines(s, order), FreeIn(s))
  {
    var lines := ExpiredLines(s, order);
    ExpiredLinesAreFine(s, order);
    LineByLineIsEnoughWithoutRepeats(lines);
    if AllFitTogether(lines, FreeIn(s)) {
      forall l | l in lines ensures l.variant in FreeIn(s) && l.quantity <= FreeIn(s)[l.variant] {
        var i :| 0 <= i < |lines| && lines[i] == l;
        NeededAtLeast(lines, l.variant, i);
      }
    }
  }
}
