/** The inventory service: its methods update balances, reservations, ledger and events in place, and
    each is proved to take exactly the step of Stock that the run-level theorems are about. */
module InventoryService {
  import opened Common
  import opened Stock
  import opened StockBooks
  import opened StockRuns
  import opened StockSafety
  import opened StockEffects
  import opened AdjustEffects

  datatype AdjustOutcome = Accepted | Refused(error: AdjustError)

  lemma OpenedAtZero(s: Stock, ids: set<nat>, ordered: seq<nat>, balances: map<nat, Balance>)
    requires forall v :: v in ordered <==> v in ids
    requires forall v :: v in balances <==> v in s.balances || v in ordered
    requires forall v | v in balances :: balances[v] == if v in s.balances then s.balances[v] else ZERO_BALANCE
    ensures balances == WithBalances(s, ids).balances
  {
  }

  lemma NothingToMove(s: Stock, order: nat, m: Move)
    ensures MoveLines(s, order, [], m) == s
  {
    assert WithBalances(s, set v | v in []).balances == s.balances;
  }

  lemma LinesReady(s: Stock, order: nat, status: ReservationStatus)
    requires Books(s)
    ensures forall v | v in Lines(s, order, status) :: v in s.balances && LineOk(s.reservations[(order, v)])
  {
    forall v | v in Lines(s, order, status) ensures v in s.balances && LineOk(s.reservations[(order, v)]) {
      assert (order, v) in s.reservations;
      assert (order, v).1 in s.balances;
    }
  }

  lemma AskedReady(s: Stock, order: nat, wanted: map<nat, int>)
    requires Books(s)
    ensures forall v | v in Asked(s, order, wanted) :: v in s.balances && LineOk(s.reservations[(order, v)])
  {
    forall v | v in Asked(s, order, wanted) ensures v in s.balances && LineOk(s.reservations[(order, v)]) {
      assert (order, v) in s.reservations;
      assert (order, v).1 in s.balances;
    }
  }

  /** What a partial return reports: per variant, how much really came back. */
  function BackFrom(s: Stock, order: nat, vs: seq<nat>, wanted: map<nat, int>): map<nat, int>
    requires forall v | v in vs :: (order, v) in s.reservations
  {
    if vs == [] then map[]
    else
      var v := vs[|vs| - 1];
      var back := Back(wanted, v, s.reservations[(order, v)]);
      var before := BackFrom(s, order, vs[..|vs| - 1], wanted);
      if back > 0 then before[v := back] else before
  }

  lemma BackFromSnoc(s: Stock, order: nat, vs: seq<nat>, wanted: map<nat, int>, i: nat)
    requires i < |vs| && forall v | v in vs :: (order, v) in s.reservations
    ensures BackFrom(s, order, vs[..i + 1], wanted) ==
      var back := Back(wanted, vs[i], s.reservations[(order, vs[i])]);
      var before := BackFrom(s, order, vs[..i], wanted);
      if back > 0 then before[vs[i] := back] else before
  {
    assert vs[..i + 1][..i] == vs[..i];
  }

  lemma {:induction false} EachComesBackOnce(s: Stock, order: nat, vs: seq<nat>, wanted: map<nat, int>)
    requires forall v | v in vs :: (order, v) in s.reservations && 0 < Back(wanted, v, s.reservations[(order, v)])
    ensures var back := BackFrom(s, order, vs, wanted);
      && (forall v :: v in back <==> v in vs)
      && forall v | v in back :: back[v] == Back(wanted, v, s.reservations[(order, v)])
  {
    if vs != [] {
      EachComesBackOnce(s, order, vs[..|vs| - 1], wanted);
      assert vs == vs[..|vs| - 1] + [vs[|vs| - 1]];
    }
  }

  lemma WhatCameBack(s: Stock, order: nat, wanted: map<nat, int>)
    requires Books(s)
    ensures BackFrom(s, order, Asked(s, order, wanted), wanted) == BackOf(s, order, wanted)
  {
    AskedReady(s, order, wanted);
    forall v | v in Asked(s, order, wanted) ensures 0 < Back(wanted, v, s.reservations[(order, v)]) {
      BackIsWhatMoves(wanted, v, s.reservations[(order, v)]);
    }
    EachComesBackOnce(s, order, Asked(s, order, wanted), wanted);
  }

  lemma EveryLineIsCounted(s: Stock, order: nat, status: ReservationStatus)
    ensures |Lines(s, order, status)| == |LinesIn(s, order, status)|
  {
    AscendingCount(Lines(s, order, status), LinesIn(s, order, status));
  }

  lemma AdjustAllSnoc(s: Stock, kind: AdjustmentKind, lines: seq<AdjustmentLine>, i: nat)
    requires i < |lines| && Distinct(lines)
    requires forall l | l in lines :: l.variant in s.balances
    ensures AdjustAll(s, kind, lines[..i + 1]) == AdjustOne(AdjustAll(s, kind, lines[..i]), kind, lines[i])
    ensures AdjustAll(s, kind, lines[..i]).balances[lines[i].variant] == s.balances[lines[i].variant]
  {
    assert lines[..i + 1][..i] == lines[..i];
    assert forall l | l in lines[..i] :: l.variant != lines[i].variant;
  }

  lemma PickedLinesSnoc(s: Stock, kind: AdjustmentKind, lines: seq<AdjustmentLine>, bad: (Balance, int) -> bool, i: nat)
    requires i < |lines| && forall l | l in lines :: l.variant in s.balances
    ensures PickedLines(s, kind, lines[..i + 1], bad)
         == PickedLines(s, kind, lines[..i], bad) + if BadLine(s, kind, lines[i], bad) then [lines[i].variant] else []
  {
    assert lines[..i + 1][..i] == lines[..i];
  }

  class Inventory {
    var balances: map<nat, Balance>
    var reservations: map<Line, Reservation>
    var movements: seq<Movement>
    var events: seq<StockEvent>

    function State(): Stock
      reads this
    {
      Stock(balances, reservations, movements, events)
    }

    ghost predicate Valid()
      reads this
    {
      Books(State())
    }

    constructor ()
      ensures Valid() && State() == EMPTY
    {
      balances, reservations, movements, events := map[], map[], [], [];
    }

    /** Creates the missing rows at zero, then holds every row of `ids`, in id order. */
    method LockBalances(ids: set<nat>)
      modifies this`balances
      ensures State() == WithBalances(old(State()), ids)
    {
      var ordered := SortedIds(ids);
      var i := 0;
      while i < |ordered|
        invariant 0 <= i <= |ordered|
        invariant forall v :: v in balances ==> v in old(balances) || v in ordered
        invariant forall v | v in old(balances) :: v in balances
        invariant forall j | 0 <= j < i :: ordered[j] in balances
        invariant forall v | v in balances :: balances[v] == if v in old(balances) then old(balances)[v] else ZERO_BALANCE
      {
        if ordered[i] !in balances {
          balances := balances[ordered[i] := ZERO_BALANCE];
        }
        i := i + 1;
      }
      OpenedAtZero(old(State()), ids, ordered, balances);
    }

    // -------------------------------------------------------------- reserve

    /** Holds `needs` for the order; a line that already exists breaks the unique key and the
        transaction is rolled back. */
    method Reserve(order: nat, needs: map<nat, int>) returns (held: bool)
      requires Valid() && Available(State(), needs)
      modifies this
      ensures Valid() && State() == ReserveStep(old(State()), order, needs)
      ensures held <==> forall v | v in needs :: (order, v) !in old(reservations)
      ensures if held then HeldAs(old(State()), State(), order, needs) else State() == old(State())
    {
      ReserveKeepsBooks(State(), order, needs);
      ReserveEffect(State(), order, needs);
      held := TryHold(order, needs);
    }

    method TryHold(order: nat, needs: map<nat, int>) returns (held: bool)
      requires needs.Keys <= balances.Keys
      modifies this
      ensures State() == ReserveStep(old(State()), order, needs)
      ensures held <==> Holdable(old(State()), order, needs)
    {
      held := !(exists v | v in needs :: (order, v) in reservations);
      if held {
        HoldLines(order, SortedIds(needs.Keys), needs);
      }
    }

    method HoldLines(order: nat, vs: seq<nat>, needs: map<nat, int>)
      requires forall v | v in vs :: v in needs && v in balances
      modifies this
      ensures State() == HoldAll(old(State()), order, vs, needs)
    {
      var i := 0;
      while i < |vs|
        invariant 0 <= i <= |vs|
        invariant State() == HoldAll(old(State()), order, vs[..i], needs)
      {
        HoldAllSnoc(old(State()), order, vs, needs, i);
        HoldLine(order, vs[i], needs[vs[i]]);
        i := i + 1;
      }
      assert vs[..|vs|] == vs;
    }

    // -------------------------------------------------------------- one line at a time

    method HoldLine(order: nat, v: nat, quantity: int)
      requires v in balances
      modifies this
      ensures State() == HoldOne(old(State()), order, v, quantity)
    {
      balances := balances[v := balances[v].(reserved := balances[v].reserved + quantity)];
      reservations := reservations[(order, v) := Reservation(quantity, 0, Active)];
    }

    /** The goods of one line leave the shelf. */
    method SellLine(order: nat, v: nat) returns (isLow: bool, isOut: bool)
      requires (order, v) in reservations && v in balances
      requires LineOk(reservations[(order, v)]) && Applies(Sell, reservations[(order, v)])
      modifies this
      ensures State() == Post(old(State()), order, v, Sell)
      ensures isLow <==> SaleCrossedBelow(balances[v], old(balances)[v].onHand)
      ensures isOut <==> CrossedToZero(old(balances)[v].onHand, balances[v].onHand)
    {
      var reservation := reservations[(order, v)];
      var balance := balances[v];
      var before := balance.onHand;
      balance := balance.(onHand := balance.onHand - reservation.quantity);
      if reservation.status.Active? {
        balance := balance.(reserved := balance.reserved - reservation.quantity);
      }
      movements := movements + [Movement(v, SaleCommit, -reservation.quantity, balance.onHand)];
      reservation := reservation.(status := Committed);
      balances := balances[v := balance];
      reservations := reservations[(order, v) := reservation];
      isLow, isOut := SaleCrossedBelow(balance, before), CrossedToZero(before, balance.onHand);
    }

    method FreeLine(order: nat, v: nat, expired: bool)
      requires (order, v) in reservations && v in balances
      requires reservations[(order, v)].status.Active?
      modifies this
      ensures State() == Post(old(State()), order, v, Free(expired))
    {
      var reservation := reservations[(order, v)];
      balances := balances[v := balances[v].(reserved := balances[v].reserved - reservation.quantity)];
      reservation := reservation.(status := if expired then Expired else Released);
      reservations := reservations[(order, v) := reservation];
    }

    /** Puts `back` units of a sold line on the shelf. */
    method Shelve(order: nat, v: nat, back: int)
      requires (order, v) in reservations && v in balances
      modifies this
      ensures var r := old(reservations)[(order, v)]; var b := old(balances)[v];
        && reservations == old(reservations)[(order, v) := r.(returned := r.returned + back)]
        && balances == old(balances)[v := b.(onHand := b.onHand + back)]
        && movements == old(movements) + [Movement(v, SaleReturn, back, b.onHand + back)]
        && events == old(events)
    {
      var reservation := reservations[(order, v)];
      var balance := balances[v];
      balance := balance.(onHand := balance.onHand + back);
      balances := balances[v := balance];
      movements := movements + [Movement(v, SaleReturn, back, balance.onHand)];
      reservation := reservation.(returned := reservation.returned + back);
      reservations := reservations[(order, v) := reservation];
    }

    method TakeBackLine(order: nat, v: nat)
      requires (order, v) in reservations && v in balances
      requires reservations[(order, v)].status.Committed?
      modifies this
      ensures State() == Post(old(State()), order, v, TakeBack)
    {
      ghost var before := balances;
      var reservation := reservations[(order, v)];
      var back := reservation.quantity - reservation.returned;
      if back > 0 {
        Shelve(order, v, back);
      } else {
        assert balances == before[v := before[v]];
      }
      reservations := reservations[(order, v) := reservations[(order, v)].(status := Returned)];
    }

    method TakeBackPart(order: nat, v: nat, wanted: map<nat, int>) returns (back: int)
      requires (order, v) in reservations && v in balances && v in wanted
      requires reservations[(order, v)].status.Committed?
      modifies this
      ensures State() == Post(old(State()), order, v, TakeBackSome(wanted))
      ensures back == Back(wanted, v, old(reservations)[(order, v)])
    {
      var reservation := reservations[(order, v)];
      var left := reservation.quantity - reservation.returned;
      back := Min(wanted[v], Max(left, 0));
      if back <= 0 {
        assert balances == balances[v := balances[v]];
        assert reservations == reservations[(order, v) := reservation];
        return;
      }
      Shelve(order, v, back);
      if reservations[(order, v)].returned >= reservations[(order, v)].quantity {
        reservations := reservations[(order, v) := reservations[(order, v)].(status := Returned)];
      }
    }

    method AnnounceLow(low: seq<nat>)
      modifies this`events
      ensures events == old(events) + LowEvents(low)
    {
      var i := 0;
      while i < |low|
        invariant 0 <= i <= |low|
        invariant events == old(events) + LowEvents(low[..i])
      {
        assert low[..i + 1][..i] == low[..i];
        events := events + [LowStock(low[i])];
        i := i + 1;
      }
      assert low[..|low|] == low;
    }

    method Announce(low: seq<nat>, soldOut: seq<nat>)
      modifies this`events
      ensures events == old(events) + LowEvents(low) + SoldOutEvents(soldOut)
    {
      AnnounceLow(low);
      ghost var before := events;
      var i := 0;
      while i < |soldOut|
        invariant 0 <= i <= |soldOut|
        invariant events == before + SoldOutEvents(soldOut[..i])
      {
        assert soldOut[..i + 1][..i] == soldOut[..i];
        events := events + [SoldOut(soldOut[i])];
        i := i + 1;
      }
      assert soldOut[..|soldOut|] == soldOut;
    }

    /** The loop that sale and late sale share: every line leaves, and the alarms are noted. */
    method SellLines(order: nat, vs: seq<nat>)
      requires Ascending(vs)
      requires forall v | v in vs :: (order, v) in reservations && v in balances
      requires forall v | v in vs :: LineOk(reservations[(order, v)]) && Applies(Sell, reservations[(order, v)])
      modifies this
      ensures State() == WithSaleAlerts(old(State()), PostAll(old(State()), order, vs, Sell), vs)
    {
      ghost var start := State();
      ghost var final := PostAll(start, order, vs, Sell);
      var low, soldOut := [], [];
      var i := 0;
      while i < |vs|
        invariant 0 <= i <= |vs|
        invariant State() == PostAll(start, order, vs[..i], Sell)
        invariant low == Picked(vs[..i], LowAfter(start, final))
        invariant soldOut == Picked(vs[..i], EmptyAfter(start, final))
      {
        LineUntouchedSoFar(start, order, vs, Sell, i);
        PostAllSnoc(start, order, vs, Sell, i);
        LineSettled(start, order, vs, Sell, i);
        PickedSnoc(vs, LowAfter(start, final), i);
        PickedSnoc(vs, EmptyAfter(start, final), i);
        var isLow, isOut := SellLine(order, vs[i]);
        if isLow {
          low := low + [vs[i]];
        }
        if isOut {
          soldOut := soldOut + [vs[i]];
        }
        i := i + 1;
      }
      assert vs[..|vs|] == vs;
      Announce(low, soldOut);
    }

    // -------------------------------------------------------------- the order's operations

    /** The sale happened: the order's active lines leave the shelf. */
    method Commit(order: nat) returns (lines: nat)
      requires Valid()
      modifies this
      ensures Valid() && State() == CommitStep(old(State()), order)
      ensures SoldAs(old(State()), State(), order)
      ensures lines == |LinesIn(old(State()), order, Active)|
    {
      LinesMoveKeepsBooks(State(), order, Active, Sell);
      CommitEffect(State(), order);
      EveryLineIsCounted(State(), order, Active);
      LinesReady(State(), order, Active);
      var vs := Lines(State(), order, Active);
      if vs == [] {
        NothingToMove(State(), order, Sell);
        return 0;
      }
      LockBalances(set v | v in vs);
      SellLines(order, vs);
      lines := |vs|;
    }

    /** Gives the held stock back: cancelled before payment, or past the deadline. */
    method Release(order: nat, expired: bool) returns (lines: nat)
      requires Valid()
      modifies this
      ensures Valid() && State() == ReleaseStep(old(State()), order, expired)
      ensures FreedAs(old(State()), State(), order, expired)
      ensures lines == |LinesIn(old(State()), order, Active)|
    {
      LinesMoveKeepsBooks(State(), order, Active, Free(expired));
      ReleaseEffect(State(), order, expired);
      EveryLineIsCounted(State(), order, Active);
      LinesReady(State(), order, Active);
      var vs := Lines(State(), order, Active);
      if vs == [] {
        NothingToMove(State(), order, Free(expired));
        return 0;
      }
      LockBalances(set v | v in vs);
      FreeLines(order, vs, expired);
      lines := |vs|;
    }

    method FreeLines(order: nat, vs: seq<nat>, expired: bool)
      requires Ascending(vs)
      requires forall v | v in vs :: (order, v) in reservations && v in balances
      requires forall v | v in vs :: reservations[(order, v)].status.Active?
      modifies this
      ensures State() == PostAll(old(State()), order, vs, Free(expired))
    {
      var i := 0;
      while i < |vs|
        invariant 0 <= i <= |vs|
        invariant State() == PostAll(old(State()), order, vs[..i], Free(expired))
      {
        LineUntouchedSoFar(old(State()), order, vs, Free(expired), i);
        PostAllSnoc(old(State()), order, vs, Free(expired), i);
        FreeLine(order, vs[i], expired);
        i := i + 1;
      }
      assert vs[..|vs|] == vs;
    }

    /** A payment after the deadline: sells the expired lines if every one of them still fits. */
    method Recover(order: nat) returns (recovered: bool)
      requires Valid()
      modifies this
      ensures Valid() && State() == RecoverStep(old(State()), order)
      ensures recovered <==> FitsTogether(old(State()), order)
      ensures if recovered then SoldLateAs(old(State()), State(), order) else State() == old(State())
    {
      RecoverEffect(State(), order);
      RecoverKeepsBooks(State(), order);
      RecoversExactlyWhatFits(State(), order);
      LinesReady(State(), order, Expired);
      var vs := Lines(State(), order, Expired);
      if vs == [] {
        NothingToMove(State(), order, Sell);
        return true;
      }
      LockBalances(set v | v in vs);
      recovered := StillFits(order, vs);
      if !recovered {
        return;
      }
      SellLines(order, vs);
    }

    method StillFits(order: nat, vs: seq<nat>) returns (fits: bool)
      requires forall v | v in vs :: (order, v) in reservations
      ensures fits <==> Fits(State(), order, vs)
    {
      var i := 0;
      while i < |vs|
        invariant 0 <= i <= |vs|
        invariant forall j | 0 <= j < i ::
          vs[j] in balances && reservations[(order, vs[j])].quantity <= balances[vs[j]].onHand - balances[vs[j]].reserved
      {
        if vs[i] !in balances {
          return false;
        }
        var available := balances[vs[i]].onHand - balances[vs[i]].reserved;
        if available < reservations[(order, vs[i])].quantity {
          return false;
        }
        i := i + 1;
      }
      fits := true;
    }

    /** A paid order is cancelled with restock: what has not come back yet comes back. */
    method ReturnStock(order: nat) returns (lines: nat)
      requires Valid()
      modifies this
      ensures Valid() && State() == ReturnStep(old(State()), order)
      ensures ReturnedAs(old(State()), State(), order)
      ensures lines == |LinesIn(old(State()), order, Committed)|
    {
      LinesMoveKeepsBooks(State(), order, Committed, TakeBack);
      ReturnEffect(State(), order);
      EveryLineIsCounted(State(), order, Committed);
      LinesReady(State(), order, Committed);
      var vs := Lines(State(), order, Committed);
      if vs == [] {
        NothingToMove(State(), order, TakeBack);
        return 0;
      }
      LockBalances(set v | v in vs);
      TakeBackLines(order, vs);
      lines := |vs|;
    }

    method TakeBackLines(order: nat, vs: seq<nat>)
      requires Ascending(vs)
      requires forall v | v in vs :: (order, v) in reservations && v in balances
      requires forall v | v in vs :: reservations[(order, v)].status.Committed?
      modifies this
      ensures State() == PostAll(old(State()), order, vs, TakeBack)
    {
      var i := 0;
      while i < |vs|
        invariant 0 <= i <= |vs|
        invariant State() == PostAll(old(State()), order, vs[..i], TakeBack)
      {
        LineUntouchedSoFar(old(State()), order, vs, TakeBack, i);
        PostAllSnoc(old(State()), order, vs, TakeBack, i);
        TakeBackLine(order, vs[i]);
        i := i + 1;
      }
      assert vs[..|vs|] == vs;
    }

    /** Returns only what was asked for, variant by variant, and never more than the line has. */
    method ReturnSome(order: nat, wanted: map<nat, int>) returns (returned: map<nat, int>)
      requires Valid()
      modifies this
      ensures Valid() && State() == ReturnSomeStep(old(State()), order, wanted)
      ensures PartlyReturnedAs(old(State()), State(), order, wanted, returned)
    {
      ReturnSomeKeepsBooks(State(), order, wanted);
      ReturnSomeEffect(State(), order, wanted);
      WhatCameBack(State(), order, wanted);
      AskedReady(State(), order, wanted);
      var vs := Asked(State(), order, wanted);
      LockingOwnLinesChangesNothing(State(), order, vs);
      if vs == [] {
        NothingToMove(State(), order, TakeBackSome(wanted));
        return map[];
      }
      LockBalances(set v | v in vs);
      returned := TakeBackSomeLines(order, vs, wanted);
    }

    method TakeBackSomeLines(order: nat, vs: seq<nat>, wanted: map<nat, int>) returns (returned: map<nat, int>)
      requires Ascending(vs)
      requires forall v | v in vs :: (order, v) in reservations && v in balances && v in wanted
      requires forall v | v in vs :: reservations[(order, v)].status.Committed?
      modifies this
      ensures State() == PostAll(old(State()), order, vs, TakeBackSome(wanted))
      ensures returned == BackFrom(old(State()), order, vs, wanted)
    {
      returned := map[];
      var i := 0;
      while i < |vs|
        invariant 0 <= i <= |vs|
        invariant State() == PostAll(old(State()), order, vs[..i], TakeBackSome(wanted))
        invariant returned == BackFrom(old(State()), order, vs[..i], wanted)
      {
        LineUntouchedSoFar(old(State()), order, vs, TakeBackSome(wanted), i);
        PostAllSnoc(old(State()), order, vs, TakeBackSome(wanted), i);
        BackFromSnoc(old(State()), order, vs, wanted, i);
        var back := TakeBackPart(order, vs[i], wanted);
        if back > 0 {
          returned := returned[vs[i] := back];
        }
        i := i + 1;
      }
      assert vs[..|vs|] == vs;
    }

    // -------------------------------------------------------------- panel operations

    method SetMinLevel(v: nat, level: Option<int>)
      requires Valid()
      modifies this
      ensures Valid() && State() == SetMinLevelStep(old(State()), v, level)
      ensures MinLevelSet(old(State()), State(), v, level)
    {
      SetMinLevelKeepsBooks(State(), v, level);
      RowsTakeEffect(State(), v, level);
      LockBalances({v});
      balances := balances[v := balances[v].(minLevel := level)];
    }

    /** One panel operation over several variants: every line is applied, or none is. */
    method Adjust(kind: AdjustmentKind, hasReason: bool, lines: seq<AdjustmentLine>, found: map<nat, VariantInfo>)
      returns (outcome: AdjustOutcome)
      requires Valid()
      modifies this
      ensures Valid()
      ensures RequestProblem(kind, hasReason, lines, found).None? ==>
        && WellFormed(kind, lines)
        && State() == AdjustStep(old(State()), kind, lines)
        && outcome == match BalanceProblem(Locked(old(State()), lines), kind, lines)
                      case Some(error) => Refused(error)
                      case None => Accepted
      ensures outcome.Accepted? <==> InOrder(kind, hasReason, lines, found) && CanWrite(old(State()), kind, lines)
      ensures outcome.Accepted? ==> AdjustedAs(old(State()), State(), kind, lines)
      ensures outcome.Refused? ==> State() == old(State())
      ensures outcome.Refused? ==>
        if InOrder(kind, hasReason, lines, found) then RefusedFor(State(), kind, lines, outcome.error)
        else RequestFails(kind, hasReason, lines, found, outcome.error)
    {
      ghost var start := State();
      var problem := RequestProblem(kind, hasReason, lines, found);
      RequestsAreCheckedExactly(kind, hasReason, lines, found);
      if problem.Some? {
        return Refused(problem.value);
      }
      AdjustStepKeepsBooks(start, kind, lines);
      AdjustmentsAreAcceptedExactly(start, kind, lines);
      AdjustEffect(start, kind, lines);
      outcome := Apply(kind, lines);
    }

    /** The locked half: the balances decide, and either every line is written or nothing is. */
    method Apply(kind: AdjustmentKind, lines: seq<AdjustmentLine>) returns (outcome: AdjustOutcome)
      requires Distinct(lines)
      modifies this
      ensures State() == AdjustStep(old(State()), kind, lines)
      ensures outcome == match BalanceProblem(Locked(old(State()), lines), kind, lines)
                         case Some(error) => Refused(error)
                         case None => Accepted
    {
      var before := balances;
      LockBalances(set l | l in lines :: l.variant);
      var short, held := CheckLevels(kind, lines);
      if short != [] {
        balances := before;
        return Refused(InsufficientStock(short));
      }
      if (kind.KLoss? || kind.KAdjustment?) && held != [] {
        balances := before;
        return Refused(ReservedStock(held));
      }
      Write(kind, lines, held);
      outcome := Accepted;
    }

    method Write(kind: AdjustmentKind, lines: seq<AdjustmentLine>, oversold: seq<nat>)
      requires Distinct(lines) && forall l | l in lines :: l.variant in balances
      modifies this
      ensures State() == AdjustWritten(old(State()), kind, lines, oversold)
    {
      var low, soldOut := ApplyLines(kind, lines);
      AnnounceOversold(oversold);
      Announce(low, soldOut);
    }

    /** Which lines would leave their balance below zero, and which below what is reserved. */
    method CheckLevels(kind: AdjustmentKind, lines: seq<AdjustmentLine>) returns (short: seq<nat>, held: seq<nat>)
      requires forall l | l in lines :: l.variant in balances
      ensures short == PickedLines(State(), kind, lines, BELOW_ZERO)
      ensures held == PickedLines(State(), kind, lines, BELOW_RESERVED)
    {
      short, held := [], [];
      var i := 0;
      while i < |lines|
        invariant 0 <= i <= |lines|
        invariant short == PickedLines(State(), kind, lines[..i], BELOW_ZERO)
        invariant held == PickedLines(State(), kind, lines[..i], BELOW_RESERVED)
      {
        assert lines[..i + 1][..i] == lines[..i];
        var line := lines[i];
        var balance := balances[line.variant];
        var after := LevelAfter(kind, balance.onHand, line.qty);
        if after < 0 {
          short := short + [line.variant];
        } else if after < balance.reserved {
          held := held + [line.variant];
        }
        i := i + 1;
      }
      assert lines[..|lines|] == lines;
    }

    method ApplyLines(kind: AdjustmentKind, lines: seq<AdjustmentLine>) returns (low: seq<nat>, soldOut: seq<nat>)
      requires Distinct(lines)
      requires forall l | l in lines :: l.variant in balances
      modifies this
      ensures State() == AdjustAll(old(State()), kind, lines)
      ensures low == PickedLines(old(State()), kind, lines, LOW)
      ensures soldOut == PickedLines(old(State()), kind, lines, OUT)
    {
      ghost var start := State();
      low, soldOut := [], [];
      var i := 0;
      while i < |lines|
        invariant 0 <= i <= |lines|
        invariant State() == AdjustAll(start, kind, lines[..i])
        invariant low == PickedLines(start, kind, lines[..i], LOW)
        invariant soldOut == PickedLines(start, kind, lines[..i], OUT)
      {
        AdjustAllSnoc(start, kind, lines, i);
        PickedLinesSnoc(start, kind, lines, LOW, i);
        PickedLinesSnoc(start, kind, lines, OUT, i);
        var isLow, isOut := ApplyLine(kind, lines[i]);
        if isLow {
          low := low + [lines[i].variant];
        }
        if isOut {
          soldOut := soldOut + [lines[i].variant];
        }
        i := i + 1;
      }
      assert lines[..|lines|] == lines;
    }

    method ApplyLine(kind: AdjustmentKind, line: AdjustmentLine) returns (isLow: bool, isOut: bool)
      requires line.variant in balances
      modifies this
      ensures State() == AdjustOne(old(State()), kind, line)
      ensures isLow <==> BadLine(old(State()), kind, line, LOW)
      ensures isOut <==> BadLine(old(State()), kind, line, OUT)
    {
      var balance := balances[line.variant];
      var before := balance.onHand;
      var after := LevelAfter(kind, before, line.qty);
      movements := movements + [Movement(line.variant, MovementFor(kind), after - before, after)];
      balances := balances[line.variant := balance.(onHand := after)];
      isLow, isOut := AdjustCrossedBelow(balance, before, after), CrossedToZero(before, after);
    }

    method AnnounceOversold(vs: seq<nat>)
      modifies this`events
      ensures events == old(events) + OversoldEvents(vs)
    {
      var i := 0;
      while i < |vs|
        invariant 0 <= i <= |vs|
        invariant events == old(events) + OversoldEvents(vs[..i])
      {
        assert vs[..i + 1][..i] == vs[..i];
        events := events + [Oversold(vs[i])];
        i := i + 1;
      }
      assert vs[..|vs|] == vs;
    }
  }
}
