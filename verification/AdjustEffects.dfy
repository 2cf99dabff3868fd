/** What an adjustment is accepted for, what it writes and what it announces, told on the request and the
    rows themselves. */
module AdjustEffects {
  import opened Common
  import opened Stock
  import opened StockBooks
  import opened StockRuns
  import opened StockSafety
  import opened StockEffects

  /** A variant without a balance row has nothing on hand and nothing reserved. */
  function Row(s: Stock, v: nat): Balance {
    if v in s.balances then s.balances[v] else Balance(0, 0, None)
  }

  // ---------------------------------------------------------------- the request

  predicate ReasonGiven(kind: AdjustmentKind, hasReason: bool) {
    hasReason || kind.KReceipt? || kind.KCount?
  }

  predicate AllKnown(lines: seq<AdjustmentLine>, found: map<nat, VariantInfo>) {
    forall l | l in lines :: l.variant in found
  }

  predicate InOrder(kind: AdjustmentKind, hasReason: bool, lines: seq<AdjustmentLine>, found: map<nat, VariantInfo>) {
    && ReasonGiven(kind, hasReason) && Distinct(lines) && AllKnown(lines, found)
    && forall l | l in lines :: Acceptable(kind, l, found[l.variant])
  }

  /** The check of a single line that fails, all earlier ones having passed. */
  predicate LineFails(kind: AdjustmentKind, l: AdjustmentLine, info: VariantInfo, error: AdjustError) {
    var whole := info.tracked && (info.byUnit ==> l.qty % MILLI == 0);
    match error
    case NotTracked => !info.tracked
    case NotWhole => info.tracked && info.byUnit && l.qty % MILLI != 0
    case NotPositive => whole && (kind.KReceipt? || kind.KLoss?) && l.qty <= 0
    case ZeroQuantity => whole && kind.KAdjustment? && l.qty == 0
    case NegativeCount => whole && kind.KCount? && l.qty < 0
    case CostNotAllowed =>
      && whole && l.hasCost
      && ((kind.KLoss? && 0 < l.qty) || (kind.KAdjustment? && l.qty != 0) || (kind.KCount? && 0 <= l.qty))
    case _ => false
  }

  /** The error names the first check of the request that fails. */
  ghost predicate RequestFails(kind: AdjustmentKind, hasReason: bool, lines: seq<AdjustmentLine>, found: map<nat, VariantInfo>,
                               error: AdjustError)
  {
    match error
    case MissingReason => !ReasonGiven(kind, hasReason)
    case RepeatedVariant => ReasonGiven(kind, hasReason) && !Distinct(lines)
    case UnknownVariant => ReasonGiven(kind, hasReason) && Distinct(lines) && !AllKnown(lines, found)
    case _ =>
      && ReasonGiven(kind, hasReason) && Distinct(lines) && AllKnown(lines, found)
      && exists i :: 0 <= i < |lines|
                     && (forall j | 0 <= j < i :: Acceptable(kind, lines[j], found[lines[j].variant]))
                     && LineFails(kind, lines[i], found[lines[i].variant], error)
  }

  lemma {:induction false} TheFirstBadLine(kind: AdjustmentKind, lines: seq<AdjustmentLine>, found: map<nat, VariantInfo>)
    returns (i: nat)
    requires AllKnown(lines, found) && exists l :: l in lines && !Acceptable(kind, l, found[l.variant])
    ensures i < |lines| && forall j | 0 <= j < i :: Acceptable(kind, lines[j], found[lines[j].variant])
    ensures var p := FirstLineProblem(kind, lines, found);
      p.Some? && LineFails(kind, lines[i], found[lines[i].variant], p.value)
  {
    if Acceptable(kind, lines[0], found[lines[0].variant]) {
      assert lines == [lines[0]] + lines[1..];
      i := TheFirstBadLine(kind, lines[1..], found);
      assert forall j | 0 < j < i + 1 :: lines[j] == lines[1..][j - 1];
      i := i + 1;
    } else {
      i := 0;
    }
  }

  /** A request passes its checks exactly when it is in order, and otherwise the first failing one is named. */
  lemma RequestsAreCheckedExactly(kind: AdjustmentKind, hasReason: bool, lines: seq<AdjustmentLine>, found: map<nat, VariantInfo>)
    ensures match RequestProblem(kind, hasReason, lines, found)
      case None => InOrder(kind, hasReason, lines, found) && WellFormed(kind, lines)
      case Some(error) => !InOrder(kind, hasReason, lines, found) && RequestFails(kind, hasReason, lines, found, error)
  {
    CheckedLinesAreWellFormed(kind, hasReason, lines, found);
    if ReasonGiven(kind, hasReason) && Distinct(lines) && AllKnown(lines, found) && !InOrder(kind, hasReason, lines, found) {
      var i := TheFirstBadLine(kind, lines, found);
    }
  }

  // ---------------------------------------------------------------- the balances

  /** The line would leave its shelf below zero. */
  predicate FallsShort(s: Stock, kind: AdjustmentKind, l: AdjustmentLine) {
    var b := Row(s, l.variant);
    match kind
    case KReceipt => b.onHand + l.qty < 0
    case KLoss => b.onHand < l.qty
    case KAdjustment => b.onHand + l.qty < 0
    case KCount => l.qty < 0
  }

  /** It would leave something, but less than open orders hold. */
  predicate TakesHeld(s: Stock, kind: AdjustmentKind, l: AdjustmentLine) {
    var b := Row(s, l.variant);
    match kind
    case KReceipt => 0 <= b.onHand + l.qty < b.reserved
    case KLoss => l.qty <= b.onHand < l.qty + b.reserved
    case KAdjustment => 0 <= b.onHand + l.qty < b.reserved
    case KCount => 0 <= l.qty < b.reserved
  }

  /** Nothing may fall short, and losses and adjustments may not take what is held. */
  predicate CanWrite(s: Stock, kind: AdjustmentKind, lines: seq<AdjustmentLine>) {
    forall k | 0 <= k < |lines| ::
      !FallsShort(s, kind, lines[k]) && (kind.KLoss? || kind.KAdjustment? ==> !TakesHeld(s, kind, lines[k]))
  }

  function ShortLines(s: Stock, kind: AdjustmentKind, lines: seq<AdjustmentLine>): set<nat> {
    set k: nat | k < |lines| && FallsShort(s, kind, lines[k])
  }

  function HeldLines(s: Stock, kind: AdjustmentKind, lines: seq<AdjustmentLine>): set<nat> {
    set k: nat | k < |lines| && TakesHeld(s, kind, lines[k])
  }

  function VariantsAt(lines: seq<AdjustmentLine>, order: seq<nat>): seq<nat>
    requires forall i | 0 <= i < |order| :: order[i] < |lines|
  {
    seq(|order|, i requires 0 <= i < |order| => lines[order[i]].variant)
  }

  /** The variants of some of the lines, in line order. */
  function Listed(lines: seq<AdjustmentLine>, ks: set<nat>): seq<nat>
    requires forall k | k in ks :: k < |lines|
  {
    var order := SortedIds(ks);
    assert forall i | 0 <= i < |order| :: order[i] in order;
    VariantsAt(lines, order)
  }

  /** The refusal names every line that falls short or, if none does, every line that takes held goods. */
  predicate RefusedFor(s: Stock, kind: AdjustmentKind, lines: seq<AdjustmentLine>, error: AdjustError) {
    if ShortLines(s, kind, lines) != {} then error == InsufficientStock(Listed(lines, ShortLines(s, kind, lines)))
    else error == ReservedStock(Listed(lines, HeldLines(s, kind, lines)))
  }

  // ---------------------------------------------------------------- what is written

  /** Receipts add, losses take, adjustments move by a signed quantity, counts set the level. */
  predicate Levels(kind: AdjustmentKind, before: int, qty: int, after: int) {
    && (kind.KReceipt? ==> after == before + qty)
    && (kind.KLoss? ==> before == after + qty)
    && (kind.KAdjustment? ==> after == before + qty)
    && (kind.KCount? ==> after == qty)
  }

  predicate BookedUnder(kind: AdjustmentKind, entry: MovementType) {
    && (entry.Receipt? <==> kind.KReceipt?) && (entry.Loss? <==> kind.KLoss?)
    && (entry.Adjustment? <==> kind.KAdjustment?) && (entry.Count? <==> kind.KCount?)
  }

  predicate LineWritten(s: Stock, t: Stock, kind: AdjustmentKind, l: AdjustmentLine, m: Movement) {
    var b := Row(s, l.variant);
    && m.variant == l.variant && BookedUnder(kind, m.kind)
    && Levels(kind, b.onHand, l.qty, m.balanceAfter) && b.onHand + m.qty == m.balanceAfter
    && l.variant in t.balances && t.balances[l.variant] == Balance(m.balanceAfter, b.reserved, b.minLevel)
  }

  predicate LinesWritten(s: Stock, t: Stock, kind: AdjustmentKind, lines: seq<AdjustmentLine>) {
    && s.movements <= t.movements && |t.movements| == |s.movements| + |lines|
    && forall i | 0 <= i < |lines| :: LineWritten(s, t, kind, lines[i], t.movements[|s.movements| + i])
  }

  /** What is left to sell fell below the minimum. */
  predicate LeftFellLow(s: Stock, t: Stock, v: nat) {
    var b := Row(s, v);
    && v in t.balances && b.minLevel.Some?
    && b.onHand - b.reserved >= b.minLevel.value && t.balances[v].onHand - b.reserved < b.minLevel.value
  }

  /** One movement per line in line order, the shelves at the levels booked, the rest as it was, and the
      alerts. */
  ghost predicate AdjustedAs(s: Stock, t: Stock, kind: AdjustmentKind, lines: seq<AdjustmentLine>) {
    && LinesWritten(s, t, kind, lines)
    && (forall v :: v in t.balances <==> v in s.balances || exists l :: l in lines && l.variant == v)
    && (forall v | v in s.balances && (forall l | l in lines :: l.variant != v) :: t.balances[v] == s.balances[v])
    && t.reservations == s.reservations
    && AdjustmentAnnounced(s, t, kind, lines)
  }

  ghost predicate AdjustmentAnnounced(s: Stock, t: Stock, kind: AdjustmentKind, lines: seq<AdjustmentLine>) {
    t.events == s.events + OversoldAlerts(Listed(lines, HeldLines(s, kind, lines)))
                         + LowAlerts(Listed(lines, set k: nat | k < |lines| && LeftFellLow(s, t, lines[k].variant)))
                         + SoldOutAlerts(Listed(lines, set k: nat | k < |lines| && RanOut(s, t, lines[k].variant)))
  }

  // ---------------------------------------------------------------- the lines a pass picks

  lemma TheLastComesLast(ks: set<nat>, last: nat)
    requires last in ks && forall k | k in ks :: k <= last
    ensures SortedIds(ks) == SortedIds(ks - {last}) + [last]
  {
    var rest := SortedIds(ks - {last});
    OneAboveAll(rest, last);
    AscendingListingsAgree(SortedIds(ks), rest + [last]);
  }

  lemma OneMoreAt(lines: seq<AdjustmentLine>, order: seq<nat>)
    requires lines != [] && forall i | 0 <= i < |order| :: order[i] < |lines| - 1
    ensures VariantsAt(lines, order) == VariantsAt(lines[..|lines| - 1], order)
    ensures VariantsAt(lines, order + [|lines| - 1]) == VariantsAt(lines, order) + [lines[|lines| - 1].variant]
  {
  }

  lemma OneMoreIsListed(lines: seq<AdjustmentLine>, ks: set<nat>)
    requires lines != [] && forall k | k in ks :: k < |lines|
    ensures var last := |lines| - 1;
      Listed(lines, ks) == Listed(lines[..last], ks - {last}) + if last in ks then [lines[last].variant] else []
  {
    var last := |lines| - 1;
    var order := SortedIds(ks - {last});
    assert forall i | 0 <= i < |order| :: order[i] in order;
    OneMoreAt(lines, order);
    if last in ks {
      TheLastComesLast(ks, last);
    } else {
      assert ks - {last} == ks;
    }
  }

  lemma {:induction false} PickedAreListed(s: Stock, kind: AdjustmentKind, lines: seq<AdjustmentLine>, bad: (Balance, int) -> bool,
                                           ks: set<nat>)
    requires forall l | l in lines :: l.variant in s.balances
    requires forall k :: k in ks <==> 0 <= k < |lines| && BadLine(s, kind, lines[k], bad)
    ensures PickedLines(s, kind, lines, bad) == Listed(lines, ks)
  {
    if lines == [] {
      assert ks == {};
    } else {
      var last := |lines| - 1;
      var rest := lines[..last];
      forall k {:trigger k in ks - {last}} ensures k in ks - {last} <==> 0 <= k < |rest| && BadLine(s, kind, rest[k], bad) {
        assert k in ks <==> 0 <= k < |lines| && BadLine(s, kind, lines[k], bad);
      }
      PickedAreListed(s, kind, rest, bad, ks - {last});
      OneMoreIsListed(lines, ks);
    }
  }

  lemma {:induction false} EachLineIsWritten(s: Stock, kind: AdjustmentKind, lines: seq<AdjustmentLine>)
    requires Distinct(lines) && forall l | l in lines :: l.variant in s.balances
    ensures LinesWritten(s, AdjustAll(s, kind, lines), kind, lines)
  {
    if lines != [] {
      var last := |lines| - 1;
      var rest := lines[..last];
      EachLineIsWritten(s, kind, rest);
      var before := AdjustAll(s, kind, rest);
      assert before.balances[lines[last].variant] == s.balances[lines[last].variant] by {
        assert forall l | l in rest :: l.variant != lines[last].variant;
      }
      OneMoreIsWritten(s, before, AdjustAll(s, kind, lines), kind, lines);
    }
  }

  lemma OneMoreIsWritten(s: Stock, before: Stock, t: Stock, kind: AdjustmentKind, lines: seq<AdjustmentLine>)
    requires lines != [] && Distinct(lines) && LinesWritten(s, before, kind, lines[..|lines| - 1])
    requires var l := lines[|lines| - 1];
      l.variant in s.balances && l.variant in before.balances
      && before.balances[l.variant] == s.balances[l.variant] && t == AdjustOne(before, kind, l)
    ensures LinesWritten(s, t, kind, lines)
  {
    var last := |lines| - 1;
    forall i | 0 <= i < |lines| ensures LineWritten(s, t, kind, lines[i], t.movements[|s.movements| + i]) {
      if i < last {
        assert lines[..last][i] == lines[i] && lines[i].variant != lines[last].variant;
      }
    }
  }

  // ---------------------------------------------------------------- the operation

  lemma LockedRows(s: Stock, lines: seq<AdjustmentLine>)
    ensures forall l | l in lines :: l.variant in Locked(s, lines).balances
    ensures forall v | v in Locked(s, lines).balances :: Locked(s, lines).balances[v] == Row(s, v)
  {
    forall l | l in lines ensures l.variant in Locked(s, lines).balances {
      assert l.variant in set m | m in lines :: m.variant;
    }
  }

  lemma WhatThePassesPick(s: Stock, kind: AdjustmentKind, lines: seq<AdjustmentLine>)
    ensures PickedLines(Locked(s, lines), kind, lines, BELOW_ZERO) == Listed(lines, ShortLines(s, kind, lines))
    ensures PickedLines(Locked(s, lines), kind, lines, BELOW_RESERVED) == Listed(lines, HeldLines(s, kind, lines))
  {
    LockedRows(s, lines);
    PickedAreListed(Locked(s, lines), kind, lines, BELOW_ZERO, ShortLines(s, kind, lines));
    PickedAreListed(Locked(s, lines), kind, lines, BELOW_RESERVED, HeldLines(s, kind, lines));
  }

  lemma ListedIsEmptyExactly(lines: seq<AdjustmentLine>, ks: set<nat>)
    requires forall k | k in ks :: k < |lines|
    ensures Listed(lines, ks) == [] <==> ks == {}
  {
    var order := SortedIds(ks);
    assert order != [] ==> order[0] in ks;
    if ks != {} {
      var k :| k in ks;
      assert k in order;
    }
  }

  lemma CanWriteMeansNoLineIsBad(s: Stock, kind: AdjustmentKind, lines: seq<AdjustmentLine>)
    ensures CanWrite(s, kind, lines) <==>
      ShortLines(s, kind, lines) == {} && (kind.KLoss? || kind.KAdjustment? ==> HeldLines(s, kind, lines) == {})
  {
    var short, held := ShortLines(s, kind, lines), HeldLines(s, kind, lines);
    forall k: nat | k < |lines|
      ensures FallsShort(s, kind, lines[k]) <==> k in short
      ensures TakesHeld(s, kind, lines[k]) <==> k in held
    {
    }
  }

  /** The balances accept an adjustment exactly when it can be written, and a refusal names its lines. */
  lemma AdjustmentsAreAcceptedExactly(s: Stock, kind: AdjustmentKind, lines: seq<AdjustmentLine>)
    ensures var problem := BalanceProblem(Locked(s, lines), kind, lines);
      && (problem.None? <==> CanWrite(s, kind, lines))
      && (problem.Some? ==> RefusedFor(s, kind, lines, problem.value))
  {
    LockedRows(s, lines);
    WhatThePassesPick(s, kind, lines);
    CanWriteMeansNoLineIsBad(s, kind, lines);
    ListedIsEmptyExactly(lines, ShortLines(s, kind, lines));
    ListedIsEmptyExactly(lines, HeldLines(s, kind, lines));
  }

  /** What an accepted adjustment does to the stock. */
  lemma AdjustEffect(s: Stock, kind: AdjustmentKind, lines: seq<AdjustmentLine>)
    requires Distinct(lines)
    ensures var t := AdjustStep(s, kind, lines); if CanWrite(s, kind, lines) then AdjustedAs(s, t, kind, lines) else t == s
  {
    AdjustmentsAreAcceptedExactly(s, kind, lines);
    if CanWrite(s, kind, lines) {
      var t := AdjustStep(s, kind, lines);
      LinesAreWritten(s, t, kind, lines);
      OthersAreNotWritten(s, t, kind, lines);
      AdjustmentIsAnnounced(s, t, kind, lines);
    }
  }

  lemma LinesAreWritten(s: Stock, t: Stock, kind: AdjustmentKind, lines: seq<AdjustmentLine>)
    requires Distinct(lines) && BalanceProblem(Locked(s, lines), kind, lines).None? && t == AdjustStep(s, kind, lines)
    ensures LinesWritten(s, t, kind, lines)
  {
    var locked := Locked(s, lines);
    LockedRows(s, lines);
    EachLineIsWritten(locked, kind, lines);
    LockingDoesNotMatter(s, locked, AdjustAll(locked, kind, lines), t, kind, lines);
  }

  lemma LockingDoesNotMatter(s: Stock, locked: Stock, done: Stock, t: Stock, kind: AdjustmentKind, lines: seq<AdjustmentLine>)
    requires LinesWritten(locked, done, kind, lines) && locked.movements == s.movements
    requires forall l | l in lines :: Row(locked, l.variant) == Row(s, l.variant)
    requires t.balances == done.balances && t.movements == done.movements
    ensures LinesWritten(s, t, kind, lines)
  {
    forall i | 0 <= i < |lines| ensures LineWritten(s, t, kind, lines[i], t.movements[|s.movements| + i]) {
      assert LineWritten(locked, done, kind, lines[i], done.movements[|locked.movements| + i]);
      assert lines[i] in lines;
    }
  }

  lemma OthersAreNotWritten(s: Stock, t: Stock, kind: AdjustmentKind, lines: seq<AdjustmentLine>)
    requires BalanceProblem(Locked(s, lines), kind, lines).None? && t == AdjustStep(s, kind, lines)
    ensures forall v :: v in t.balances <==> v in s.balances || exists l :: l in lines && l.variant == v
    ensures forall v | v in s.balances && (forall l | l in lines :: l.variant != v) :: t.balances[v] == s.balances[v]
    ensures t.reservations == s.reservations
  {
  }

  lemma AdjustmentIsAnnounced(s: Stock, t: Stock, kind: AdjustmentKind, lines: seq<AdjustmentLine>)
    requires Distinct(lines) && BalanceProblem(Locked(s, lines), kind, lines).None? && t == AdjustStep(s, kind, lines)
    ensures AdjustmentAnnounced(s, t, kind, lines)
  {
    var locked := Locked(s, lines);
    LockedRows(s, lines);
    WhatThePassesPick(s, kind, lines);
    var low, out := (set k: nat | k < |lines| && LeftFellLow(s, t, lines[k].variant)),
                    (set k: nat | k < |lines| && RanOut(s, t, lines[k].variant));
    forall k: nat | k < |lines|
      ensures LeftFellLow(s, t, lines[k].variant) <==> BadLine(locked, kind, lines[k], LOW)
      ensures RanOut(s, t, lines[k].variant) <==> BadLine(locked, kind, lines[k], OUT)
    {
      AlarmsOfALine(s, kind, lines, k);
    }
    PickedAreListed(locked, kind, lines, LOW, low);
    PickedAreListed(locked, kind, lines, OUT, out);
    EachIsOversold(Listed(lines, HeldLines(s, kind, lines)));
    EachIsLow(Listed(lines, low));
    EachIsSoldOut(Listed(lines, out));
  }

  lemma AlarmsOfALine(s: Stock, kind: AdjustmentKind, lines: seq<AdjustmentLine>, k: nat)
    requires Distinct(lines) && k < |lines| && BalanceProblem(Locked(s, lines), kind, lines).None?
    ensures lines[k].variant in Locked(s, lines).balances
    ensures var t := AdjustStep(s, kind, lines); var v := lines[k].variant;
      && (LeftFellLow(s, t, v) <==> BadLine(Locked(s, lines), kind, lines[k], LOW))
      && (RanOut(s, t, v) <==> BadLine(Locked(s, lines), kind, lines[k], OUT))
  {
    LockedRows(s, lines);
    AdjustedAt(s, kind, lines, k);
  }

  // ---------------------------------------------------------------- every step of a run

  /** The variant has this minimum level, on a row of its own; nothing else changes. */
  ghost predicate MinLevelSet(s: Stock, t: Stock, v: nat, level: Option<int>) {
    && t.balances == s.balances[v := Balance(Row(s, v).onHand, Row(s, v).reserved, level)]
    && t.reservations == s.reservations && t.movements == s.movements && t.events == s.events
  }

  ghost predicate Opened(s: Stock, t: Stock, v: nat) {
    && t.balances == s.balances[v := Row(s, v)]
    && t.reservations == s.reservations && t.movements == s.movements && t.events == s.events
  }

  /** What an operation does to the stock it finds, or that it leaves it alone. */
  ghost predicate TakesEffect(s: Stock, t: Stock, op: StockOp) {
    match op
    case OpenBalance(v) => Opened(s, t, v)
    case SetMinLevel(v, level) => MinLevelSet(s, t, v, level)
    case Reserve(order, needs) =>
      if exists v :: v in needs && (order, v) in s.reservations then t == s else HeldAs(s, t, order, needs)
    case Commit(order) => SoldAs(s, t, order)
    case Release(order, expired) => FreedAs(s, t, order, expired)
    case Recover(order) => if FitsTogether(s, order) then SoldLateAs(s, t, order) else t == s
    case ReturnStock(order) => ReturnedAs(s, t, order)
    case ReturnSome(order, wanted) => exists back :: PartlyReturnedAs(s, t, order, wanted, back)
    case Adjust(kind, lines) => if CanWrite(s, kind, lines) then AdjustedAs(s, t, kind, lines) else t == s
  }

  lemma RowsTakeEffect(s: Stock, v: nat, level: Option<int>)
    ensures Opened(s, WithBalances(s, {v}), v)
    ensures MinLevelSet(s, SetMinLevelStep(s, v, level), v, level)
  {
    assert WithBalances(s, {v}).balances == s.balances[v := Row(s, v)];
  }

  lemma PartialReturnsTakeEffect(s: Stock, order: nat, wanted: map<nat, int>)
    requires Books(s)
    ensures exists back :: PartlyReturnedAs(s, ReturnSomeStep(s, order, wanted), order, wanted, back)
  {
    ReturnSomeEffect(s, order, wanted);
  }

  /** Every step of every run writes what its operation is to write, and nothing else. */
  lemma StepsTakeEffect(s: Stock, op: StockOp)
    requires Books(s) && Allowed(s, op)
    ensures TakesEffect(s, Step(s, op), op)
  {
    match op
    case OpenBalance(v) => RowsTakeEffect(s, v, None);
    case SetMinLevel(v, level) => RowsTakeEffect(s, v, level);
    case Reserve(order, needs) => ReserveEffect(s, order, needs);
    case Commit(order) => CommitEffect(s, order);
    case Release(order, expired) => ReleaseEffect(s, order, expired);
    case Recover(order) => RecoverEffect(s, order);
    case ReturnStock(order) => ReturnEffect(s, order);
    case ReturnSome(order, wanted) => PartialReturnsTakeEffect(s, order, wanted);
    case Adjust(kind, lines) => AdjustEffect(s, kind, lines);
  }
}
