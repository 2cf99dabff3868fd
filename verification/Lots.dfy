/** Ticket lots: batches of an event's tickets, each sold from the stock of one variant. */
module Lots {
  import opened Common
  import opened Stock
  import opened StockBooks
  import opened StockRuns
  import opened StockSafety

  datatype Lot = Lot(id: nat, variant: nat, quantity: nat)

  datatype World = World(capacity: Option<nat>, lots: seq<Lot>, stock: Stock)

  datatype LotError =
    | TooManyLots
    | OverCapacity
    | CapacityBelowLots
    | NoSuchLot
    | SoldTickets
    | ReservedTickets
    | LastLotOfPublished
    | RefusedByStock(error: AdjustError)

  const MAX_LOTS := 20

  function Allocated(lots: seq<Lot>): nat {
    if lots == [] then 0 else Allocated(lots[..|lots| - 1]) + lots[|lots| - 1].quantity
  }

  predicate HasRoom(capacity: Option<nat>, tickets: int) {
    capacity.Some? ==> tickets <= capacity.value
  }

  /** The position of a lot among the event's lots. */
  function Find(lots: seq<Lot>, id: nat): (at: Option<nat>)
    ensures at.Some? ==> at.value < |lots| && lots[at.value].id == id
    ensures at.None? ==> forall lot | lot in lots :: lot.id != id
  {
    if lots == [] then None
    else if lots[0].id == id then Some(0)
    else
      var at := Find(lots[1..], id);
      assert lots == [lots[0]] + lots[1..];
      if at.Some? then Some(at.value + 1) else None
  }

  function StockLine(v: nat, tickets: int): seq<AdjustmentLine> {
    [AdjustmentLine(v, tickets * MILLI, false)]
  }

  // ---------------------------------------------------------------- operations

  function SetCapacityError(w: World, capacity: Option<nat>): Option<LotError> {
    if !HasRoom(capacity, Allocated(w.lots)) then Some(CapacityBelowLots) else None
  }

  function SetCapacityStep(w: World, capacity: Option<nat>): World {
    if SetCapacityError(w, capacity).Some? then w else w.(capacity := capacity)
  }

  function AddLotError(w: World, v: nat, quantity: nat): Option<LotError> {
    if |w.lots| >= MAX_LOTS then Some(TooManyLots)
    else if !HasRoom(w.capacity, Allocated(w.lots) + quantity) then Some(OverCapacity)
    else
      var problem := BalanceProblem(Locked(w.stock, StockLine(v, quantity)), KCount, StockLine(v, quantity));
      if problem.Some? then Some(RefusedByStock(problem.value)) else None
  }

  /** The new lot's tickets are what a count of its variant finds. */
  function AddLotStep(w: World, id: nat, v: nat, quantity: nat): World {
    if AddLotError(w, v, quantity).Some? then w
    else w.(lots := w.lots + [Lot(id, v, quantity)], stock := AdjustStep(w.stock, KCount, StockLine(v, quantity)))
  }

  function EditLines(lot: Lot, quantity: nat): seq<AdjustmentLine> {
    StockLine(lot.variant, quantity - lot.quantity)
  }

  function EditError(w: World, i: nat, quantity: nat): Option<LotError>
    requires i < |w.lots|
  {
    var lines := EditLines(w.lots[i], quantity);
    if quantity == w.lots[i].quantity then None
    else if !HasRoom(w.capacity, Allocated(w.lots) + quantity - w.lots[i].quantity) then Some(OverCapacity)
    else
      var problem := BalanceProblem(Locked(w.stock, lines), KAdjustment, lines);
      if problem.Some? then Some(RefusedByStock(problem.value)) else None
  }

  /** The stock is adjusted by the difference, so what is sold stays sold. */
  function EditStep(w: World, i: nat, quantity: nat): World
    requires i < |w.lots|
  {
    if EditError(w, i, quantity).Some? || quantity == w.lots[i].quantity then w
    else w.(lots := w.lots[i := w.lots[i].(quantity := quantity)],
            stock := AdjustStep(w.stock, KAdjustment, EditLines(w.lots[i], quantity)))
  }

  function UpdateLotError(w: World, id: nat, quantity: nat): Option<LotError> {
    var at := Find(w.lots, id);
    if at.None? then Some(NoSuchLot) else EditError(w, at.value, quantity)
  }

  function UpdateLotStep(w: World, id: nat, quantity: nat): World {
    var at := Find(w.lots, id);
    if at.None? then w else EditStep(w, at.value, quantity)
  }

  function OnHand(s: Stock, v: nat): int {
    if v in s.balances then s.balances[v].onHand else 0
  }

  function TicketsOnHand(s: Stock, v: nat): int {
    OnHand(s, v) / MILLI
  }

  function TicketsReserved(s: Stock, v: nat): int {
    if v in s.balances then s.balances[v].reserved / MILLI else 0
  }

  function RemoveLotError(w: World, id: nat, published: bool): Option<LotError> {
    var at := Find(w.lots, id);
    if at.None? then Some(NoSuchLot)
    else
      var lot := w.lots[at.value];
      if TicketsOnHand(w.stock, lot.variant) < lot.quantity then Some(SoldTickets)
      else if TicketsReserved(w.stock, lot.variant) > 0 then Some(ReservedTickets)
      else if published && |w.lots| == 1 then Some(LastLotOfPublished)
      else None
  }

  function RemoveLotStep(w: World, id: nat, published: bool): World {
    if RemoveLotError(w, id, published).Some? then w
    else
      var i := Find(w.lots, id).value;
      w.(lots := w.lots[..i] + w.lots[i + 1..])
  }

  // ---------------------------------------------------------------- what always holds

  ghost predicate LotFine(w: World, i: nat)
    requires i < |w.lots|
  {
    var lot := w.lots[i];
    && lot.variant in w.stock.balances
    && lot.quantity * MILLI == w.stock.balances[lot.variant].onHand + SoldSum(w.stock, lot.variant)
    && w.stock.balances[lot.variant].reserved <= w.stock.balances[lot.variant].onHand
  }

  ghost predicate LotsFine(w: World) {
    && Books(w.stock)
    && (forall i: nat | i < |w.lots| :: LotFine(w, i))
    && (forall i, j | 0 <= i < j < |w.lots| :: w.lots[i].variant != w.lots[j].variant)
    && |w.lots| <= MAX_LOTS
    && HasRoom(w.capacity, Allocated(w.lots))
  }

  /** A variant that has sold nothing and holds nothing, and is no lot yet. */
  ghost predicate FreshFor(w: World, v: nat) {
    && SoldSum(w.stock, v) == 0 && HeldSum(w.stock, v) == 0
    && forall lot | lot in w.lots :: lot.variant != v
  }

  // ---------------------------------------------------------------- the stock behind a lot

  lemma {:induction false} MovesAdjustNothing(s: Stock, order: nat, vs: seq<nat>, m: Move, v: nat)
    requires Postable(s, order, vs)
    ensures AdjustedSum(PostAll(s, order, vs, m).movements, v) == AdjustedSum(s.movements, v)
  {
    if vs != [] {
      var last := |vs| - 1;
      MovesAdjustNothing(s, order, vs[..last], m, v);
      var before := PostAll(s, order, vs[..last], m);
      var after := Post(before, order, vs[last], m);
      if after.movements != before.movements {
        LedgerAppend(before.movements, after.movements[|before.movements|], v);
      }
    }
  }

  lemma LinesAdjustNothing(s: Stock, order: nat, vs: seq<nat>, m: Move, v: nat)
    requires forall u | u in vs :: (order, u) in s.reservations
    ensures AdjustedSum(MoveLines(s, order, vs, m).movements, v) == AdjustedSum(s.movements, v)
    ensures s.balances.Keys <= MoveLines(s, order, vs, m).balances.Keys
  {
    MovesAdjustNothing(WithBalances(s, set u | u in vs), order, vs, m, v);
  }

  lemma OrdersAdjustNothing(s: Stock, op: StockOp, v: nat)
    requires Allowed(s, op) && !op.Adjust?
    ensures AdjustedSum(Step(s, op).movements, v) == AdjustedSum(s.movements, v)
    ensures s.balances.Keys <= Step(s, op).balances.Keys
  {
    match op
    case Commit(order) => LinesAdjustNothing(s, order, Lines(s, order, Active), Sell, v);
    case Release(order, expired) => LinesAdjustNothing(s, order, Lines(s, order, Active), Free(expired), v);
    case Recover(order) => LinesAdjustNothing(s, order, Lines(s, order, Expired), Sell, v);
    case ReturnStock(order) => LinesAdjustNothing(s, order, Lines(s, order, Committed), TakeBack, v);
    case ReturnSome(order, wanted) => LinesAdjustNothing(s, order, Asked(s, order, wanted), TakeBackSome(wanted), v);
    case _ =>
  }

  /** Tickets on the shelf and tickets sold. */
  ghost function TicketsInAll(s: Stock, v: nat): int
    requires v in s.balances
  {
    s.balances[v].onHand + SoldSum(s, v)
  }

  /** Orders only move tickets between the shelf and the sold. */
  lemma OrdersKeepTheTotal(s: Stock, op: StockOp, v: nat)
    requires Books(s) && Allowed(s, op) && !op.Adjust? && v in s.balances
    ensures v in Step(s, op).balances && TicketsInAll(Step(s, op), v) == TicketsInAll(s, v)
  {
    OrdersAdjustNothing(s, op, v);
    StepKeepsBooks(s, op);
    assert BalanceOk(s, v) && BalanceOk(Step(s, op), v);
  }

  lemma AdjustmentsElsewhereKeepTheTotal(s: Stock, kind: AdjustmentKind, lines: seq<AdjustmentLine>, v: nat)
    requires v in s.balances && forall l | l in lines :: l.variant != v
    ensures var t := AdjustStep(s, kind, lines);
      v in t.balances && t.balances[v] == s.balances[v] && TicketsInAll(t, v) == TicketsInAll(s, v)
  {
    AdjustedElsewhere(s, kind, lines, v);
    assert AdjustStep(s, kind, lines).reservations == s.reservations;
  }

  /** What an accepted change of a lot's tickets does to its variant. */
  lemma TicketsChange(s: Stock, kind: AdjustmentKind, v: nat, tickets: int)
    requires Books(s) && (kind.KCount? || kind.KAdjustment?) && WellFormed(kind, StockLine(v, tickets))
    requires BalanceProblem(Locked(s, StockLine(v, tickets)), kind, StockLine(v, tickets)).None?
    ensures var t := AdjustStep(s, kind, StockLine(v, tickets));
      && Books(t) && t.reservations == s.reservations && v in t.balances
      && t.balances[v].onHand == (if kind.KCount? then 0 else OnHand(s, v)) + tickets * MILLI
      && (kind.KAdjustment? ==> t.balances[v].reserved <= t.balances[v].onHand)
  {
    AdjustStepKeepsBooks(s, kind, StockLine(v, tickets));
    AdjustedAt(s, kind, StockLine(v, tickets), 0);
  }

  lemma SumsAreNotNegative(s: Stock, v: nat)
    requires Books(s)
    ensures 0 <= SoldSum(s, v) && 0 <= HeldSum(s, v)
  {
    SumMapNonNegative(s.reservations, HeldBy(v));
    SumMapNonNegative(s.reservations, SoldOf(v));
  }

  // ---------------------------------------------------------------- what every step keeps

  lemma {:induction false} AllocatedWith(lots: seq<Lot>, i: nat, quantity: nat)
    requires i < |lots|
    ensures Allocated(lots[i := lots[i].(quantity := quantity)]) == Allocated(lots) + quantity - lots[i].quantity
  {
    var last := |lots| - 1;
    var changed := lots[i := lots[i].(quantity := quantity)];
    if i < last {
      AllocatedWith(lots[..last], i, quantity);
      assert changed[..last] == lots[..last][i := lots[i].(quantity := quantity)];
    } else {
      assert changed[..last] == lots[..last];
    }
  }

  lemma {:induction false} AllocatedWithout(lots: seq<Lot>, i: nat)
    requires i < |lots|
    ensures Allocated(lots[..i] + lots[i + 1..]) == Allocated(lots) - lots[i].quantity
  {
    var last := |lots| - 1;
    if i < last {
      AllocatedWithout(lots[..last], i);
      var rest := lots[..i] + lots[i + 1..];
      assert rest[..|rest| - 1] == lots[..last][..i] + lots[..last][i + 1..];
    } else {
      assert lots[..i] + lots[i + 1..] == lots[..last];
    }
  }

  /** A stock in which one variant's tickets changed, and nothing else did. */
  ghost predicate OnlyTicketsOf(s: Stock, t: Stock, v: nat) {
    && Books(t) && t.reservations == s.reservations && v in t.balances
    && forall u | u in s.balances && u != v :: u in t.balances && t.balances[u] == s.balances[u]
  }

  lemma TicketsOnlyOf(s: Stock, kind: AdjustmentKind, v: nat, tickets: int)
    requires Books(s) && (kind.KCount? || kind.KAdjustment?) && WellFormed(kind, StockLine(v, tickets))
    requires BalanceProblem(Locked(s, StockLine(v, tickets)), kind, StockLine(v, tickets)).None?
    ensures OnlyTicketsOf(s, AdjustStep(s, kind, StockLine(v, tickets)), v)
  {
    TicketsChange(s, kind, v, tickets);
    forall u | u in s.balances && u != v
      ensures u in AdjustStep(s, kind, StockLine(v, tickets)).balances
        && AdjustStep(s, kind, StockLine(v, tickets)).balances[u] == s.balances[u]
    {
      AdjustedElsewhere(s, kind, StockLine(v, tickets), u);
    }
  }

  lemma OtherLotsStayFine(w: World, i: nat, v: nat, w': World)
    requires i < |w.lots| && LotFine(w, i) && w.lots[i].variant != v
    requires i < |w'.lots| && w'.lots[i] == w.lots[i] && OnlyTicketsOf(w.stock, w'.stock, v)
    ensures LotFine(w', i)
  {
  }

  lemma AddLotKeeps(w: World, id: nat, v: nat, quantity: nat)
    requires LotsFine(w) && FreshFor(w, v)
    ensures LotsFine(AddLotStep(w, id, v, quantity))
  {
    if AddLotError(w, v, quantity).None? {
      TicketsChange(w.stock, KCount, v, quantity);
      TicketsOnlyOf(w.stock, KCount, v, quantity);
      ALotJoins(w, Lot(id, v, quantity), AdjustStep(w.stock, KCount, StockLine(v, quantity)));
    }
  }

  lemma ALotJoins(w: World, lot: Lot, t: Stock)
    requires LotsFine(w) && FreshFor(w, lot.variant) && |w.lots| < MAX_LOTS
    requires HasRoom(w.capacity, Allocated(w.lots) + lot.quantity)
    requires OnlyTicketsOf(w.stock, t, lot.variant) && t.balances[lot.variant].onHand == lot.quantity * MILLI
    ensures LotsFine(w.(lots := w.lots + [lot], stock := t))
  {
    var w' := w.(lots := w.lots + [lot], stock := t);
    assert BalanceOk(t, lot.variant);
    assert w'.lots[..|w.lots|] == w.lots;
    forall i: nat | i < |w.lots| ensures LotFine(w', i) {
      OtherLotsStayFine(w, i, lot.variant, w');
    }
  }

  lemma UpdateLotKeeps(w: World, id: nat, quantity: nat)
    requires LotsFine(w)
    ensures LotsFine(UpdateLotStep(w, id, quantity))
  {
    var at := Find(w.lots, id);
    if at.Some? {
      EditKeeps(w, at.value, quantity);
    }
  }

  lemma EditKeeps(w: World, i: nat, quantity: nat)
    requires LotsFine(w) && i < |w.lots|
    ensures LotsFine(EditStep(w, i, quantity))
  {
    var lot := w.lots[i];
    if EditError(w, i, quantity).None? && quantity != lot.quantity {
      assert LotFine(w, i);
      TicketsChange(w.stock, KAdjustment, lot.variant, quantity - lot.quantity);
      TicketsOnlyOf(w.stock, KAdjustment, lot.variant, quantity - lot.quantity);
      ALotChanges(w, i, quantity, AdjustStep(w.stock, KAdjustment, EditLines(lot, quantity)));
    }
  }

  lemma ALotChanges(w: World, i: nat, quantity: nat, t: Stock)
    requires LotsFine(w) && i < |w.lots| && HasRoom(w.capacity, Allocated(w.lots) + quantity - w.lots[i].quantity)
    requires OnlyTicketsOf(w.stock, t, w.lots[i].variant)
    requires var b := t.balances[w.lots[i].variant];
      b.onHand == OnHand(w.stock, w.lots[i].variant) + (quantity - w.lots[i].quantity) * MILLI && b.reserved <= b.onHand
    ensures LotsFine(w.(lots := w.lots[i := w.lots[i].(quantity := quantity)], stock := t))
  {
    var w' := w.(lots := w.lots[i := w.lots[i].(quantity := quantity)], stock := t);
    AllocatedWith(w.lots, i, quantity);
    forall j: nat | j < |w.lots| ensures LotFine(w', j) {
      assert LotFine(w, j);
      if j != i {
        OtherLotsStayFine(w, j, w.lots[i].variant, w');
      }
    }
  }

  lemma RemoveLotKeeps(w: World, id: nat, published: bool)
    requires LotsFine(w)
    ensures LotsFine(RemoveLotStep(w, id, published))
  {
    if RemoveLotError(w, id, published).None? {
      var i := Find(w.lots, id).value;
      var w' := RemoveLotStep(w, id, published);
      AllocatedWithout(w.lots, i);
      forall j: nat | j < |w'.lots| ensures LotFine(w', j) {
        assert LotFine(w, if j < i then j else j + 1);
      }
    }
  }

  lemma OrdersKeepLots(w: World, op: StockOp)
    requires LotsFine(w) && Allowed(w.stock, op)
    requires op.Adjust? ==> forall l, lot | l in op.lines && lot in w.lots :: l.variant != lot.variant
    ensures LotsFine(w.(stock := Step(w.stock, op)))
  {
    var w' := w.(stock := Step(w.stock, op));
    StepKeepsBooks(w.stock, op);
    forall i: nat | i < |w.lots| ensures LotFine(w', i) {
      assert LotFine(w, i);
      var v := w.lots[i].variant;
      if op.Adjust? {
        AdjustmentsElsewhereKeepTheTotal(w.stock, op.kind, op.lines, v);
      } else {
        OrdersKeepTheTotal(w.stock, op, v);
        OnlyACountOversells(w.stock, op, v);
      }
    }
  }

  // ---------------------------------------------------------------- runs

  datatype LotOp =
    | SetCapacity(capacity: Option<nat>)
    | AddLot(id: nat, variant: nat, quantity: nat)
    | UpdateLot(id: nat, quantity: nat)
    | RemoveLot(id: nat, published: bool)
    | Orders(op: StockOp)

  /** A new lot gets a variant that starts fresh, and nobody but its lot adjusts its stock. */
  ghost predicate Enabled(w: World, op: LotOp) {
    match op
    case AddLot(_, v, _) => FreshFor(w, v)
    case Orders(o) =>
      && Allowed(w.stock, o)
      && (o.Adjust? ==> forall l, lot | l in o.lines && lot in w.lots :: l.variant != lot.variant)
    case _ => true
  }

  ghost function Next(w: World, op: LotOp): World
    requires Enabled(w, op)
  {
    match op
    case SetCapacity(capacity) => SetCapacityStep(w, capacity)
    case AddLot(id, v, quantity) => AddLotStep(w, id, v, quantity)
    case UpdateLot(id, quantity) => UpdateLotStep(w, id, quantity)
    case RemoveLot(id, published) => RemoveLotStep(w, id, published)
    case Orders(o) => w.(stock := Step(w.stock, o))
  }

  ghost predicate Possible(w: World, ops: seq<LotOp>)
    decreases |ops|, 0
  {
    ops == [] ||
    var last := |ops| - 1;
    Possible(w, ops[..last]) && Enabled(After(w, ops[..last]), ops[last])
  }

  ghost function After(w: World, ops: seq<LotOp>): World
    requires Possible(w, ops)
    decreases |ops|, 1
  {
    if ops == [] then w else Next(After(w, ops[..|ops| - 1]), ops[|ops| - 1])
  }

  lemma {:induction false} EveryRunKeepsLots(w: World, ops: seq<LotOp>)
    requires LotsFine(w) && Possible(w, ops)
    ensures LotsFine(After(w, ops))
  {
    if ops != [] {
      var last := |ops| - 1;
      EveryRunKeepsLots(w, ops[..last]);
      var s := After(w, ops[..last]);
      match ops[last]
      case SetCapacity(_) =>
        assert forall i: nat | i < |s.lots| :: LotFine(s, i) ==> LotFine(Next(s, ops[last]), i);
      case AddLot(id, v, quantity) => AddLotKeeps(s, id, v, quantity);
      case UpdateLot(id, quantity) => UpdateLotKeeps(s, id, quantity);
      case RemoveLot(id, published) => RemoveLotKeeps(s, id, published);
      case Orders(op) => OrdersKeepLots(s, op);
    }
  }

  const START: World := World(None, [], EMPTY)

  /** In every reachable state a lot's tickets are those on the shelf and those sold; those sold and
      those promised to open orders never exceed them; and the lots fit the event. */
  lemma TicketsAddUp(ops: seq<LotOp>, i: nat)
    requires Possible(START, ops) && i < |After(START, ops).lots|
    ensures var w := After(START, ops); var lot := w.lots[i]; var v := lot.variant;
      && v in w.stock.balances
      && lot.quantity * MILLI == w.stock.balances[v].onHand + SoldSum(w.stock, v)
      && 0 <= SoldSum(w.stock, v) && 0 <= HeldSum(w.stock, v)
      && SoldSum(w.stock, v) + HeldSum(w.stock, v) <= lot.quantity * MILLI
      && HasRoom(w.capacity, Allocated(w.lots)) && |w.lots| <= MAX_LOTS
  {
    EmptyBooks();
    EveryRunKeepsLots(START, ops);
    var w := After(START, ops);
    assert LotFine(w, i) && BalanceOk(w.stock, w.lots[i].variant);
    SumsAreNotNegative(w.stock, w.lots[i].variant);
  }

  // ---------------------------------------------------------------- when an edit is refused

  lemma OneLineProblem(s: Stock, kind: AdjustmentKind, v: nat, tickets: int)
    ensures var lines := StockLine(v, tickets); var b := Locked(s, lines).balances[v];
      var after := LevelAfter(kind, b.onHand, tickets * MILLI);
      BalanceProblem(Locked(s, lines), kind, lines).None? <==>
        0 <= after && (kind.KLoss? || kind.KAdjustment? ==> b.reserved <= after)
  {
    var lines := StockLine(v, tickets);
    var locked := Locked(s, lines);
    var b := locked.balances[v];
    var after := LevelAfter(kind, b.onHand, tickets * MILLI);
    assert lines[..0] == [];
    assert PickedLines(locked, kind, lines, BELOW_ZERO) == if BELOW_ZERO(b, after) then [v] else [];
    assert PickedLines(locked, kind, lines, BELOW_RESERVED) == if BELOW_RESERVED(b, after) then [v] else [];
  }

  /** A lot can be given any number of tickets that fits the event and covers what is sold and what
      open orders hold, and no other. */
  lemma AnEditIsAcceptedExactly(w: World, id: nat, quantity: nat)
    requires LotsFine(w) && Find(w.lots, id).Some?
    ensures var lot := w.lots[Find(w.lots, id).value];
      UpdateLotError(w, id, quantity).None? <==>
        || quantity == lot.quantity
        || (HasRoom(w.capacity, Allocated(w.lots) + quantity - lot.quantity)
            && SoldSum(w.stock, lot.variant) + HeldSum(w.stock, lot.variant) <= quantity * MILLI)
  {
    var i := Find(w.lots, id).value;
    var lot := w.lots[i];
    assert LotFine(w, i) && BalanceOk(w.stock, lot.variant);
    SumsAreNotNegative(w.stock, lot.variant);
    OneLineProblem(w.stock, KAdjustment, lot.variant, quantity - lot.quantity);
  }

  /** A lot is refused removal for its sales exactly when some of its tickets are sold. */
  lemma SoldLotsStay(w: World, id: nat, published: bool)
    requires LotsFine(w) && Find(w.lots, id).Some?
    ensures RemoveLotError(w, id, published) == Some(SoldTickets) <==>
      0 < SoldSum(w.stock, w.lots[Find(w.lots, id).value].variant)
  {
    var i := Find(w.lots, id).value;
    assert LotFine(w, i);
    SumsAreNotNegative(w.stock, w.lots[i].variant);
  }
}
