/** An event's lots as they run: rows changed in place, tickets put into and taken out of the stock
    through the inventory service. */
module EventService {
  import opened Common
  import opened Stock
  import opened StockRuns
  import opened StockSafety
  import opened InventoryService
  import opened Lots
  import opened LotEffects

  function Without(ids: seq<nat>, v: nat): (rest: seq<nat>)
    ensures forall u :: u in rest <==> u in ids && u != v
  {
    if ids == [] then []
    else
      var last := |ids| - 1;
      assert ids == ids[..last] + [ids[last]];
      Without(ids[..last], v) + if ids[last] == v then [] else [ids[last]]
  }

  /** Each lot has a variant of its own, and it is live. */
  predicate Listed(lots: seq<Lot>, live: seq<nat>) {
    && (forall lot | lot in lots :: lot.variant in live)
    && (forall i, j | 0 <= i < j < |lots| :: lots[i].variant != lots[j].variant)
  }

  /** The live variant that becomes the next lot, or the one the table draws. */
  function Spare(lots: seq<Lot>, live: seq<nat>, drawn: nat): (v: nat)
    requires Listed(lots, live) && drawn !in live
    ensures forall lot | lot in lots :: lot.variant != v
  {
    if lots == [] && live != [] then live[0] else drawn
  }

  function FromStock(problem: Option<AdjustError>): Option<LotError> {
    if problem.Some? then Some(RefusedByStock(problem.value)) else None
  }

  lemma ALotIsListed(lots: seq<Lot>, live: seq<nat>, lot: Lot)
    requires Listed(lots, live) && forall l | l in lots :: l.variant != lot.variant
    ensures Listed(lots + [lot], if lot.variant in live then live else live + [lot.variant])
  {
  }

  lemma ALotIsUnlisted(lots: seq<Lot>, live: seq<nat>, i: nat)
    requires Listed(lots, live) && i < |lots|
    ensures Listed(lots[..i] + lots[i + 1..], Without(live, lots[i].variant))
    ensures LotGone(lots, lots[..i] + lots[i + 1..], i) && VariantGone(live, Without(live, lots[i].variant), lots[i].variant)
  {
    var rest := lots[..i] + lots[i + 1..];
    forall k | 0 <= k < |rest| ensures rest[k].variant in Without(live, lots[i].variant) {
      assert rest[k] == if k < i then lots[k] else lots[k + 1];
    }
  }

  lemma AnEditIsListed(lots: seq<Lot>, live: seq<nat>, i: nat, quantity: nat)
    requires Listed(lots, live) && i < |lots|
    ensures Listed(lots[i := lots[i].(quantity := quantity)], live)
  {
  }

  class EventRow {
    const inventory: Inventory
    var capacity: Option<nat>
    var lots: seq<Lot>
    var live: seq<nat>      // the product's variants that are not archived, in catalog order

    constructor (inventory: Inventory, live: seq<nat>)
      requires inventory.Valid()
      ensures this.inventory == inventory && capacity == None && lots == [] && this.live == live && Valid()
    {
      this.inventory := inventory;
      capacity, lots := None, [];
      this.live := live;
    }

    function State(): World
      reads this, inventory
    {
      World(capacity, lots, inventory.State())
    }

    ghost predicate Valid()
      reads this, inventory
    {
      inventory.Valid() && Listed(lots, live)
    }

    /** Tickets are tracked and sold by the unit. */
    method StockTickets(kind: AdjustmentKind, v: nat, tickets: int) returns (error: Option<AdjustError>)
      requires Valid() && (kind.KCount? || kind.KAdjustment?)
      requires kind.KCount? ==> 0 <= tickets
      requires kind.KAdjustment? ==> tickets != 0
      modifies inventory
      ensures Valid() && inventory.State() == AdjustStep(old(inventory.State()), kind, StockLine(v, tickets))
      ensures error == BalanceProblem(Locked(old(inventory.State()), StockLine(v, tickets)), kind, StockLine(v, tickets))
    {
      var lines := StockLine(v, tickets);
      WholeTicketsPass(kind, v, tickets);
      var outcome := inventory.Adjust(kind, true, lines, map[v := VariantInfo(true, true)]);
      error := if outcome.Refused? then Some(outcome.error) else None;
    }

    method SumQuantities() returns (sum: nat)
      ensures sum == Allocated(lots)
    {
      sum := 0;
      var i := 0;
      while i < |lots|
        invariant 0 <= i <= |lots|
        invariant sum == Allocated(lots[..i])
      {
        assert lots[..i + 1][..i] == lots[..i];
        sum := sum + lots[i].quantity;
        i := i + 1;
      }
      assert lots[..i] == lots;
    }

    method SetCapacity(limit: Option<nat>) returns (error: Option<LotError>)
      modifies this`capacity
      ensures State() == Next(old(State()), LotOp.SetCapacity(limit))
      ensures error == if Exceeds(limit, Allocated(lots)) then Some(CapacityBelowLots) else None
      ensures capacity == if error.None? then limit else old(capacity)
    {
      var sum := SumQuantities();
      if limit.Some? && sum > limit.value {
        return Some(CapacityBelowLots);
      }
      capacity := limit;
      error := None;
    }

    /** The first lot takes over the product's own variant; every other lot gets a new one, whose id the
        table draws and no order has seen. */
    method AddLot(id: nat, drawn: nat, quantity: nat) returns (error: Option<LotError>, spare: nat)
      requires Valid() && drawn !in live && FreshFor(State(), drawn)
      modifies this`lots, this`live, inventory
      ensures Valid()
      ensures spare == if old(lots) == [] && old(live) != [] then old(live)[0] else drawn
      ensures spare == drawn ==> Enabled(old(State()), LotOp.AddLot(id, spare, quantity))
      ensures AddDecided(old(State()), quantity, error)
      ensures Enabled(old(State()), LotOp.AddLot(id, spare, quantity)) ==>
        State() == Next(old(State()), LotOp.AddLot(id, spare, quantity))
      ensures if error.None? then Added(old(State()), State(), id, spare, quantity) else State() == old(State())
      ensures live == if error.None? && spare !in old(live) then old(live) + [spare] else old(live)
    {
      spare := Spare(lots, live, drawn);
      AddingIsDecided(State(), spare, quantity);
      AddingIsWritten(State(), id, spare, quantity);
      if |lots| >= MAX_LOTS {
        return Some(TooManyLots), spare;
      }
      var sum := SumQuantities();
      if capacity.Some? && sum + quantity > capacity.value {
        return Some(OverCapacity), spare;
      }
      var problem := StockTickets(KCount, spare, quantity);
      error := FromStock(problem);
      if error.None? {
        ALotIsListed(lots, live, Lot(id, spare, quantity));
        if spare !in live {
          live := live + [spare];
        }
        lots := lots + [Lot(id, spare, quantity)];
      }
    }

    method Resize(at: nat, quantity: nat) returns (error: Option<LotError>)
      requires Valid() && at < |lots| && quantity != lots[at].quantity
      modifies this`lots, inventory
      ensures Valid() && error == EditError(old(State()), at, quantity)
      ensures State() == EditStep(old(State()), at, quantity)
    {
      var lot := lots[at];
      var delta := quantity - lot.quantity;
      var sum := SumQuantities();
      if capacity.Some? && sum + delta > capacity.value {
        return Some(OverCapacity);
      }
      var problem := StockTickets(KAdjustment, lot.variant, delta);
      error := FromStock(problem);
      if error.None? {
        AnEditIsListed(lots, live, at, quantity);
        lots := lots[at := lot.(quantity := quantity)];
      }
    }

    method UpdateLot(id: nat, quantity: nat) returns (error: Option<LotError>)
      requires Valid()
      modifies this`lots, inventory
      ensures Valid() && State() == Next(old(State()), LotOp.UpdateLot(id, quantity))
      ensures error == Some(NoSuchLot) <==> forall lot | lot in old(lots) :: lot.id != id
      ensures error.Some? ==> State() == old(State())
      ensures error != Some(NoSuchLot) ==>
        exists i: nat :: (StandsAt(old(lots), id, i) && EditDecided(old(State()), i, quantity, error)
                          && (error.None? ==> Edited(old(State()), State(), i, quantity)))
    {
      var at := Find(lots, id);
      FoundAt(lots, id);
      if at.None? {
        return Some(NoSuchLot);
      }
      EditsAreDecided(State(), at.value, quantity);
      EditsAreWritten(State(), at.value, quantity);
      error := None;
      if quantity != lots[at.value].quantity {
        error := Resize(at.value, quantity);
      }
    }

    /** The lot's variant is archived with it, and so never becomes a lot again. */
    method RemoveLot(id: nat, published: bool) returns (error: Option<LotError>)
      requires Valid()
      modifies this`lots, this`live
      ensures Valid() && State() == Next(old(State()), LotOp.RemoveLot(id, published))
      ensures error == Some(NoSuchLot) <==> forall lot | lot in old(lots) :: lot.id != id
      ensures error.Some? ==> State() == old(State()) && live == old(live)
      ensures error != Some(NoSuchLot) ==>
        exists i: nat :: (StandsAt(old(lots), id, i) && RemovalDecided(old(State()), i, published, error)
                          && (error.None? ==> LotGone(old(lots), lots, i) && VariantGone(old(live), live, old(lots)[i].variant)))
    {
      var at := Find(lots, id);
      FoundAt(lots, id);
      RemovalIsDecided(State(), id, published);
      if at.None? {
        return Some(NoSuchLot);
      }
      var lot := lots[at.value];
      if TicketsOnHand(inventory.State(), lot.variant) < lot.quantity {
        return Some(SoldTickets);
      }
      if TicketsReserved(inventory.State(), lot.variant) > 0 {
        return Some(ReservedTickets);
      }
      if published && |lots| == 1 {
        return Some(LastLotOfPublished);
      }
      ALotIsUnlisted(lots, live, at.value);
      live := Without(live, lot.variant);
      lots := lots[..at.value] + lots[at.value + 1..];
      error := None;
    }
  }

  /** A whole number of tickets is never refused before the balances are looked at. */
  lemma WholeTicketsPass(kind: AdjustmentKind, v: nat, tickets: int)
    requires kind.KCount? || kind.KAdjustment?
    requires (kind.KCount? ==> 0 <= tickets) && (kind.KAdjustment? ==> tickets != 0)
    ensures RequestProblem(kind, true, StockLine(v, tickets), map[v := VariantInfo(true, true)]).None?
  {
    var lines := StockLine(v, tickets);
    var found := map[v := VariantInfo(true, true)];
    assert lines[1..] == [];
    assert LineProblem(kind, lines[0], found[v]).None?;
    assert FirstLineProblem(kind, lines, found).None?;
  }
}
