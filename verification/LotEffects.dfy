/** When a lot may be added, edited or removed, and what that does, told on the lots and the balances. */
module LotEffects {
  import opened Common
  import opened Stock
  import opened StockBooks
  import opened StockRuns
  import opened StockSafety
  import opened AdjustEffects
  import opened Lots

  predicate Exceeds(capacity: Option<nat>, tickets: int) {
    capacity.Some? && capacity.value < tickets
  }

  predicate StandsAt(lots: seq<Lot>, id: nat, i: nat) {
    i < |lots| && lots[i].id == id && forall j | 0 <= j < i :: lots[j].id != id
  }

  /** Why a lot is not added, or that it is. */
  predicate AddDecided(w: World, quantity: nat, error: Option<LotError>) {
    && (error == Some(TooManyLots) <==> 20 <= |w.lots|)
    && (error == Some(OverCapacity) <==> |w.lots| < 20 && Exceeds(w.capacity, Allocated(w.lots) + quantity))
    && (error.None? <==> |w.lots| < 20 && !Exceeds(w.capacity, Allocated(w.lots) + quantity))
  }

  /** One variant's shelf is at a new level, and the ledger says so. */
  predicate ShelfSet(s: Stock, t: Stock, v: nat, entry: MovementType, level: int) {
    var b := Row(s, v);
    && t.balances == s.balances[v := Balance(level, b.reserved, b.minLevel)]
    && t.movements == s.movements + [Movement(v, entry, level - b.onHand, level)]
    && t.reservations == s.reservations
  }

  /** The lot comes last, and its variant is counted to have its tickets. */
  predicate Added(w: World, w': World, id: nat, v: nat, quantity: nat) {
    && w'.capacity == w.capacity && w'.lots == w.lots + [Lot(id, v, quantity)]
    && ShelfSet(w.stock, w'.stock, v, Count, 1000 * quantity)
  }

  /** An edit can be written: the shelf covers the difference and what open orders hold. */
  predicate Covers(w: World, lot: Lot, quantity: nat) {
    var b := Row(w.stock, lot.variant);
    var level := b.onHand + 1000 * (quantity - lot.quantity);
    0 <= level && b.reserved <= level
  }

  ghost predicate EditDecided(w: World, i: nat, quantity: nat, error: Option<LotError>)
    requires i < |w.lots|
  {
    var lot := w.lots[i];
    var full := quantity != lot.quantity && Exceeds(w.capacity, Allocated(w.lots) + quantity - lot.quantity);
    && (error == Some(OverCapacity) <==> full)
    && (error.None? <==> !full && (quantity == lot.quantity || Covers(w, lot, quantity)))
    && (error.Some? && error.value.RefusedByStock? ==>
          RefusedFor(w.stock, KAdjustment, EditLines(lot, quantity), error.value.error))
    && (error.Some? ==> error.value.OverCapacity? || error.value.RefusedByStock?)
  }

  /** The lot has its new size, and the stock moved by the difference. */
  predicate Edited(w: World, w': World, i: nat, quantity: nat)
    requires i < |w.lots|
  {
    var lot := w.lots[i];
    && w'.capacity == w.capacity && w'.lots == w.lots[i := Lot(lot.id, lot.variant, quantity)]
    && (quantity == lot.quantity ==> w'.stock == w.stock)
    && (quantity != lot.quantity ==>
          ShelfSet(w.stock, w'.stock, lot.variant, Adjustment, Row(w.stock, lot.variant).onHand + 1000 * (quantity - lot.quantity)))
  }

  /** Why a lot stays: tickets of it are not on the shelf any more, open orders hold a whole ticket, or
      it is the last of a published event. */
  ghost predicate RemovalDecided(w: World, i: nat, published: bool, error: Option<LotError>)
    requires i < |w.lots|
  {
    var b := Row(w.stock, w.lots[i].variant);
    var sold, held := b.onHand < 1000 * w.lots[i].quantity, 1000 <= b.reserved;
    && (error == Some(SoldTickets) <==> sold)
    && (error == Some(ReservedTickets) <==> !sold && held)
    && (error == Some(LastLotOfPublished) <==> !sold && !held && published && |w.lots| == 1)
    && (error.None? <==> !sold && !held && !(published && |w.lots| == 1))
  }

  /** The lots before and after it close ranks. */
  predicate LotGone(lots: seq<Lot>, lots': seq<Lot>, i: nat) {
    && i < |lots| && |lots'| == |lots| - 1
    && (forall j | 0 <= j < i :: lots'[j] == lots[j]) && (forall j | i <= j < |lots'| :: lots'[j] == lots[j + 1])
  }

  /** Its variant is not live any more; the others are. */
  predicate VariantGone(live: seq<nat>, live': seq<nat>, v: nat) {
    v !in live' && (forall u | u in live && u != v :: u in live') && (forall u | u in live' :: u in live)
  }

  // ---------------------------------------------------------------- proofs

  lemma FoundAt(lots: seq<Lot>, id: nat)
    ensures match Find(lots, id)
      case None => forall lot | lot in lots :: lot.id != id
      case Some(i) => StandsAt(lots, id, i)
  {
    if lots != [] && lots[0].id != id {
      FoundAt(lots[1..], id);
      assert forall j | 0 < j < |lots| :: lots[j] == lots[1..][j - 1];
      assert lots == [lots[0]] + lots[1..];
    }
  }

  /** The line can be written on its own. */
  predicate CanTake(s: Stock, kind: AdjustmentKind, v: nat, tickets: int) {
    var l := AdjustmentLine(v, 1000 * tickets, false);
    !FallsShort(s, kind, l) && (kind.KLoss? || kind.KAdjustment? ==> !TakesHeld(s, kind, l))
  }

  predicate IsLine(lines: seq<AdjustmentLine>, v: nat, tickets: int) {
    |lines| == 1 && lines[0] == AdjustmentLine(v, 1000 * tickets, false)
  }

  lemma TicketsAreTakenExactly(s: Stock, kind: AdjustmentKind, lines: seq<AdjustmentLine>, v: nat, tickets: int)
    requires IsLine(lines, v, tickets)
    ensures CanWrite(s, kind, lines) <==> CanTake(s, kind, v, tickets)
    ensures BalanceProblem(Locked(s, lines), kind, lines).None? <==> CanTake(s, kind, v, tickets)
  {
    AdjustmentsAreAcceptedExactly(s, kind, lines);
  }

  lemma OneEntryIsSet(before: map<nat, Balance>, after: map<nat, Balance>, v: nat, b: Balance)
    requires forall u :: u in after <==> u in before || u == v
    requires (forall u | u in before && u != v :: after[u] == before[u]) && after[v] == b
    ensures after == before[v := b]
  {
  }

  lemma OneLineIsWritten(s: Stock, t: Stock, kind: AdjustmentKind, lines: seq<AdjustmentLine>, v: nat, tickets: int)
    requires IsLine(lines, v, tickets) && LinesWritten(s, t, kind, lines) && t.reservations == s.reservations
    requires forall u :: u in t.balances <==> u in s.balances || exists l :: l in lines && l.variant == u
    requires forall u | u in s.balances && (forall l | l in lines :: l.variant != u) :: t.balances[u] == s.balances[u]
    ensures kind.KCount? ==> ShelfSet(s, t, v, Count, 1000 * tickets)
    ensures kind.KAdjustment? ==> ShelfSet(s, t, v, Adjustment, Row(s, v).onHand + 1000 * tickets)
  {
    assert LineWritten(s, t, kind, lines[0], t.movements[|s.movements| + 0]);
    assert t.movements == s.movements + [t.movements[|s.movements|]];
    assert lines[0] in lines && forall l | l in lines :: l.variant == v;
    OneEntryIsSet(s.balances, t.balances, v, t.balances[v]);
  }

  lemma TicketsAreWritten(s: Stock, kind: AdjustmentKind, lines: seq<AdjustmentLine>, v: nat, tickets: int)
    requires IsLine(lines, v, tickets) && CanTake(s, kind, v, tickets)
    ensures var t := AdjustStep(s, kind, lines);
      && (kind.KCount? ==> ShelfSet(s, t, v, Count, 1000 * tickets))
      && (kind.KAdjustment? ==> ShelfSet(s, t, v, Adjustment, Row(s, v).onHand + 1000 * tickets))
  {
    TicketsAreTakenExactly(s, kind, lines, v, tickets);
    AdjustEffect(s, kind, lines);
    OneLineIsWritten(s, AdjustStep(s, kind, lines), kind, lines, v, tickets);
  }

  lemma AddingIsDecided(w: World, v: nat, quantity: nat)
    ensures AddDecided(w, quantity, AddLotError(w, v, quantity))
  {
    TicketsAreTakenExactly(w.stock, KCount, StockLine(v, quantity), v, quantity);
  }

  lemma AddingIsWritten(w: World, id: nat, v: nat, quantity: nat)
    ensures if AddLotError(w, v, quantity).None? then Added(w, AddLotStep(w, id, v, quantity), id, v, quantity)
            else AddLotStep(w, id, v, quantity) == w
  {
    TicketsAreWritten(w.stock, KCount, StockLine(v, quantity), v, quantity);
  }

  lemma EditsAreTakenExactly(w: World, i: nat, quantity: nat)
    requires i < |w.lots|
    ensures BalanceProblem(Locked(w.stock, EditLines(w.lots[i], quantity)), KAdjustment, EditLines(w.lots[i], quantity)).None?
      <==> Covers(w, w.lots[i], quantity)
  {
    TicketsAreTakenExactly(w.stock, KAdjustment, EditLines(w.lots[i], quantity), w.lots[i].variant, quantity - w.lots[i].quantity);
  }

  lemma AnEditFits(w: World, i: nat, quantity: nat)
    requires i < |w.lots| && quantity != w.lots[i].quantity && EditError(w, i, quantity).None?
    ensures CanTake(w.stock, KAdjustment, w.lots[i].variant, quantity - w.lots[i].quantity)
  {
    EditsAreTakenExactly(w, i, quantity);
  }

  lemma TheErrorIsTheStocks(w: World, i: nat, quantity: nat)
    requires i < |w.lots| && EditError(w, i, quantity).Some? && EditError(w, i, quantity).value.RefusedByStock?
    ensures RefusedFor(w.stock, KAdjustment, EditLines(w.lots[i], quantity), EditError(w, i, quantity).value.error)
  {
    AdjustmentsAreAcceptedExactly(w.stock, KAdjustment, EditLines(w.lots[i], quantity));
  }

  lemma EditsAreDecided(w: World, i: nat, quantity: nat)
    requires i < |w.lots|
    ensures EditDecided(w, i, quantity, EditError(w, i, quantity))
  {
    EditsAreTakenExactly(w, i, quantity);
    if EditError(w, i, quantity).Some? && EditError(w, i, quantity).value.RefusedByStock? {
      TheErrorIsTheStocks(w, i, quantity);
    }
  }

  lemma AnEditMovesStock(w: World, i: nat, quantity: nat)
    requires i < |w.lots| && quantity != w.lots[i].quantity && EditError(w, i, quantity).None?
    ensures EditStep(w, i, quantity).stock == AdjustStep(w.stock, KAdjustment, EditLines(w.lots[i], quantity))
    ensures EditStep(w, i, quantity).lots == w.lots[i := Lot(w.lots[i].id, w.lots[i].variant, quantity)]
    ensures EditStep(w, i, quantity).capacity == w.capacity
  {
  }

  lemma EditedFrom(w: World, w': World, i: nat, quantity: nat, t: Stock)
    requires i < |w.lots| && quantity != w.lots[i].quantity
    requires w'.stock == t && w'.lots == w.lots[i := Lot(w.lots[i].id, w.lots[i].variant, quantity)] && w'.capacity == w.capacity
    requires ShelfSet(w.stock, t, w.lots[i].variant, Adjustment,
                      Row(w.stock, w.lots[i].variant).onHand + 1000 * (quantity - w.lots[i].quantity))
    ensures Edited(w, w', i, quantity)
  {
  }

  lemma AChangeIsWritten(w: World, i: nat, quantity: nat)
    requires i < |w.lots| && quantity != w.lots[i].quantity && EditError(w, i, quantity).None?
    ensures Edited(w, EditStep(w, i, quantity), i, quantity)
  {
    AnEditFits(w, i, quantity);
    TicketsAreWritten(w.stock, KAdjustment, EditLines(w.lots[i], quantity), w.lots[i].variant, quantity - w.lots[i].quantity);
    AnEditMovesStock(w, i, quantity);
    EditedFrom(w, EditStep(w, i, quantity), i, quantity, AdjustStep(w.stock, KAdjustment, EditLines(w.lots[i], quantity)));
  }

  lemma EditsAreWritten(w: World, i: nat, quantity: nat)
    requires i < |w.lots|
    ensures if EditError(w, i, quantity).None? then Edited(w, EditStep(w, i, quantity), i, quantity)
            else EditStep(w, i, quantity) == w
  {
    if quantity == w.lots[i].quantity {
      assert w.lots[i := Lot(w.lots[i].id, w.lots[i].variant, quantity)] == w.lots;
    } else if EditError(w, i, quantity).None? {
      AChangeIsWritten(w, i, quantity);
    }
  }

  lemma RemovalIsDecided(w: World, id: nat, published: bool)
    ensures match Find(w.lots, id)
      case None => RemoveLotError(w, id, published) == Some(NoSuchLot)
      case Some(i) => RemovalDecided(w, i, published, RemoveLotError(w, id, published))
  {
  }

  /** In a reachable state a lot goes exactly when none of its tickets is sold, open orders hold less than
      one, and it is not the last of a published event; and it is refused for the first of these that
      fails. */
  lemma LotsAreRemovedExactly(w: World, id: nat, published: bool, i: nat)
    requires LotsFine(w) && StandsAt(w.lots, id, i)
    ensures var sold, held := SoldSum(w.stock, w.lots[i].variant), HeldSum(w.stock, w.lots[i].variant);
      var error := RemoveLotError(w, id, published);
      && (error == Some(SoldTickets) <==> 0 < sold)
      && (error == Some(ReservedTickets) <==> sold == 0 && 1000 <= held)
      && (error == Some(LastLotOfPublished) <==> sold == 0 && held < 1000 && published && |w.lots| == 1)
      && (error.None? <==> sold == 0 && held < 1000 && !(published && |w.lots| == 1))
  {
    FoundAt(w.lots, id);
    assert Find(w.lots, id) == Some(i) by {
      assert forall j | 0 <= j < i :: w.lots[j].id != id;
    }
    RemovalIsDecided(w, id, published);
    assert LotFine(w, i) && BalanceOk(w.stock, w.lots[i].variant);
    SumsAreNotNegative(w.stock, w.lots[i].variant);
  }
}
