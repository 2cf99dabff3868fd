/** What each operation on the stock writes, told on the rows themselves: lines, balances, movements and
    alerts. */
module StockEffects {
  import opened Common
  import opened Stock
  import opened StockBooks
  import opened StockRuns
  import opened StockSafety

  function LinesIn(s: Stock, order: nat, status: ReservationStatus): set<nat> {
    set k | k in s.reservations && k.0 == order && s.reservations[k].status == status :: k.1
  }

  /** A line reads `line` now, and its balance gained `shelf` on hand and `hold` in reserve. */
  ghost predicate LineBecomes(s: Stock, t: Stock, order: nat, v: nat, line: Reservation, shelf: int, hold: int) {
    && (order, v) in t.reservations && t.reservations[(order, v)] == line
    && v in s.balances && v in t.balances
    && t.balances[v] == Balance(s.balances[v].onHand + shelf, s.balances[v].reserved + hold, s.balances[v].minLevel)
  }

  /** Nothing else changed but the order's lines of these variants, and their balances. */
  ghost predicate OnlyLines(s: Stock, t: Stock, order: nat, picked: set<nat>) {
    && t.reservations.Keys == s.reservations.Keys && t.balances.Keys == s.balances.Keys
    && (forall k | k in s.reservations && (k.0 != order || k.1 !in picked) :: t.reservations[k] == s.reservations[k])
    && (forall v | v in s.balances && v !in picked :: t.balances[v] == s.balances[v])
  }

  /** The ledger grew by one movement for each of the variants, in this order. */
  ghost predicate Booked(s: Stock, t: Stock, vs: seq<nat>, kind: MovementType, qty: map<nat, int>) {
    && s.movements <= t.movements && |t.movements| == |s.movements| + |vs|
    && forall i | 0 <= i < |vs| ::
         vs[i] in qty && vs[i] in t.balances
         && t.movements[|s.movements| + i] == Movement(vs[i], kind, qty[vs[i]], t.balances[vs[i]].onHand)
  }

  function OversoldAlerts(vs: seq<nat>): seq<StockEvent> { seq(|vs|, i requires 0 <= i < |vs| => Oversold(vs[i])) }

  function LowAlerts(vs: seq<nat>): seq<StockEvent> { seq(|vs|, i requires 0 <= i < |vs| => LowStock(vs[i])) }

  function SoldOutAlerts(vs: seq<nat>): seq<StockEvent> { seq(|vs|, i requires 0 <= i < |vs| => SoldOut(vs[i])) }

  /** The goods on the shelf fell below the minimum. */
  predicate FellLow(s: Stock, t: Stock, v: nat) {
    && v in s.balances && v in t.balances && t.balances[v].minLevel.Some?
    && s.balances[v].onHand >= t.balances[v].minLevel.value && t.balances[v].onHand < t.balances[v].minLevel.value
  }

  predicate RanOut(s: Stock, t: Stock, v: nat) {
    v in s.balances && v in t.balances && s.balances[v].onHand > 0 && t.balances[v].onHand <= 0
  }

  // ---------------------------------------------------------------- what each operation is to do

  /** The lines read committed, their goods are off the shelf, and off the hold if they were held. */
  ghost predicate AllSold(s: Stock, t: Stock, order: nat, picked: set<nat>, held: bool) {
    forall v | v in picked :: (order, v) in s.reservations && var r := s.reservations[(order, v)];
      LineBecomes(s, t, order, v, Reservation(r.quantity, r.returned, Committed), -r.quantity, if held then -r.quantity else 0)
  }

  /** Each variant that fell low or ran out is announced, in variant order. */
  ghost predicate SaleAnnounced(s: Stock, t: Stock, picked: set<nat>) {
    t.events == s.events + LowAlerts(SortedIds(set v | v in picked && FellLow(s, t, v)))
                         + SoldOutAlerts(SortedIds(set v | v in picked && RanOut(s, t, v)))
  }

  /** The lines read returned, and what they had left is back on the shelf. */
  ghost predicate AllReturned(s: Stock, t: Stock, order: nat, picked: set<nat>) {
    forall v | v in picked :: (order, v) in s.reservations && var r := s.reservations[(order, v)];
      LineBecomes(s, t, order, v, Reservation(r.quantity, r.quantity, Returned), r.quantity - r.returned, 0)
  }

  /** Of one line `back` comes back: what was asked, or all the line has left if that is less; a line
      with nothing left closes. */
  ghost predicate ComesBack(s: Stock, t: Stock, order: nat, wanted: map<nat, int>, v: nat, back: int) {
    && (order, v) in s.reservations && v in wanted && 0 < back
    && var r := s.reservations[(order, v)]; var left := r.quantity - r.returned;
       && (wanted[v] <= left ==> back == wanted[v]) && (left <= wanted[v] ==> back == left)
       && LineBecomes(s, t, order, v, Reservation(r.quantity, r.returned + back,
                        if r.returned + back == r.quantity then Returned else Committed), back, 0)
  }

  /** The order's needs are held on new lines. */
  ghost predicate HeldAs(s: Stock, t: Stock, order: nat, needs: map<nat, int>) {
    && (forall v | v in needs :: LineBecomes(s, t, order, v, Reservation(needs[v], 0, Active), 0, needs[v]))
    && (forall k :: k in t.reservations <==> k in s.reservations || (k.0 == order && k.1 in needs))
    && (forall k | k in s.reservations && (k.0 != order || k.1 !in needs) :: t.reservations[k] == s.reservations[k])
    && t.balances.Keys == s.balances.Keys && (forall v | v in s.balances && v !in needs :: t.balances[v] == s.balances[v])
    && t.movements == s.movements && t.events == s.events
  }

  /** What the order holds is sold: off the shelf, and not held any more. */
  ghost predicate SoldAs(s: Stock, t: Stock, order: nat) {
    var picked := LinesIn(s, order, Active);
    && OnlyLines(s, t, order, picked)
    && AllSold(s, t, order, picked, true)
    && Booked(s, t, SortedIds(picked), SaleCommit, map v | v in picked :: -s.reservations[(order, v)].quantity)
    && SaleAnnounced(s, t, picked)
  }

  /** What the order holds is free again. */
  ghost predicate FreedAs(s: Stock, t: Stock, order: nat, expired: bool) {
    var picked := LinesIn(s, order, Active);
    && OnlyLines(s, t, order, picked)
    && (forall v | v in picked :: var r := s.reservations[(order, v)];
         LineBecomes(s, t, order, v, Reservation(r.quantity, r.returned, if expired then Expired else Released), 0, -r.quantity))
    && t.movements == s.movements && t.events == s.events
  }

  /** What the order let expire is sold after all; it is not held, so the hold stays. */
  ghost predicate SoldLateAs(s: Stock, t: Stock, order: nat) {
    var picked := LinesIn(s, order, Expired);
    && OnlyLines(s, t, order, picked)
    && AllSold(s, t, order, picked, false)
    && Booked(s, t, SortedIds(picked), SaleCommit, map v | v in picked :: -s.reservations[(order, v)].quantity)
    && SaleAnnounced(s, t, picked)
  }

  /** What has not come back of the order's sold lines comes back, and the lines close. */
  ghost predicate ReturnedAs(s: Stock, t: Stock, order: nat) {
    var picked := LinesIn(s, order, Committed);
    && OnlyLines(s, t, order, picked)
    && AllReturned(s, t, order, picked)
    && Booked(s, t, SortedIds(picked), SaleReturn,
              map v | v in picked :: s.reservations[(order, v)].quantity - s.reservations[(order, v)].returned)
    && t.events == s.events
  }

  /** Each sold line that is asked for gives back what it can. */
  ghost predicate PartlyReturnedAs(s: Stock, t: Stock, order: nat, wanted: map<nat, int>, back: map<nat, int>) {
    && (forall v :: v in back <==> v in LinesIn(s, order, Committed) && v in wanted && 0 < wanted[v])
    && (forall v | v in back :: ComesBack(s, t, order, wanted, v, back[v]))
    && OnlyLines(s, t, order, back.Keys)
    && Booked(s, t, SortedIds(back.Keys), SaleReturn, back)
    && t.events == s.events
  }

  // ---------------------------------------------------------------- one movement per line

  function QtyOf(s: Stock, order: nat, m: Move, v: nat): int
    requires (order, v) in s.reservations
  {
    Sold(s.reservations[(order, v)]) - Sold(Target(m, v, s.reservations[(order, v)]))
  }

  ghost predicate Posted(s: Stock, t: Stock, order: nat, vs: seq<nat>, m: Move)
    requires forall v | v in vs :: (order, v) in s.reservations
  {
    && s.movements <= t.movements && |t.movements| == |s.movements| + |vs|
    && forall i | 0 <= i < |vs| ::
         vs[i] in vs && vs[i] in t.balances
         && var qty := QtyOf(s, order, m, vs[i]);
            t.movements[|s.movements| + i] == Movement(vs[i], if qty < 0 then SaleCommit else SaleReturn, qty, t.balances[vs[i]].onHand)
  }

  lemma OneMoreIsPosted(s: Stock, order: nat, vs: seq<nat>, m: Move)
    requires Ascending(vs) && Postable(s, order, vs) && vs != []
    requires QtyOf(s, order, m, vs[|vs| - 1]) != 0
    requires Posted(s, PostAll(s, order, vs[..|vs| - 1], m), order, vs[..|vs| - 1], m)
    ensures Posted(s, PostAll(s, order, vs, m), order, vs, m)
  {
    var last := |vs| - 1;
    LineUntouchedSoFar(s, order, vs, m, last);
    PostingExtends(s, PostAll(s, order, vs[..last], m), PostAll(s, order, vs, m), order, vs, m);
  }

  lemma PostingExtends(s: Stock, before: Stock, t: Stock, order: nat, vs: seq<nat>, m: Move)
    requires Ascending(vs) && vs != [] && forall v | v in vs :: (order, v) in s.reservations
    requires Posted(s, before, order, vs[..|vs| - 1], m)
    requires var v := vs[|vs| - 1]; var qty := QtyOf(s, order, m, v);
      && v in t.balances && before.balances.Keys <= t.balances.Keys
      && (forall u | u in before.balances && u != v :: t.balances[u] == before.balances[u])
      && t.movements == before.movements + [Movement(v, if qty < 0 then SaleCommit else SaleReturn, qty, t.balances[v].onHand)]
    ensures Posted(s, t, order, vs, m)
  {
    var last := |vs| - 1;
    forall i | 0 <= i < last ensures vs[i] in vs && vs[..last][i] == vs[i] && vs[i] != vs[last] {
    }
  }

  lemma {:induction false} EachLineIsPosted(s: Stock, order: nat, vs: seq<nat>, m: Move)
    requires Ascending(vs) && Postable(s, order, vs) && forall v | v in vs :: QtyOf(s, order, m, v) != 0
    ensures Posted(s, PostAll(s, order, vs, m), order, vs, m)
  {
    if vs != [] {
      EachLineIsPosted(s, order, vs[..|vs| - 1], m);
      OneMoreIsPosted(s, order, vs, m);
    }
  }

  lemma OneMoreMoves(s: Stock, before: Stock, order: nat, picked: set<nat>, v: nat, m: Move)
    requires v in picked && OnlyLines(s, before, order, picked - {v}) && (order, v) in s.reservations && v in s.balances
    ensures OnlyLines(s, Post(before, order, v, m), order, picked)
  {
  }

  lemma {:induction false} OthersUnmoved(s: Stock, order: nat, vs: seq<nat>, m: Move, picked: set<nat>)
    requires Postable(s, order, vs) && Ascending(vs) && forall v :: v in vs <==> v in picked
    ensures OnlyLines(s, PostAll(s, order, vs, m), order, picked)
  {
    if vs != [] {
      var rest, last := vs[..|vs| - 1], vs[|vs| - 1];
      assert Ascending(rest) && last in picked && forall v :: v in rest <==> v in picked - {last} by {
        AllButTheLast(vs);
      }
      OthersUnmoved(s, order, rest, m, picked - {last});
      OneMoreMoves(s, PostAll(s, order, rest, m), order, picked, last, m);
    }
  }

  /** Of the order's lines exactly the picked ones moved, and each is in the ledger if it moved goods. */
  ghost predicate MovedAs(s: Stock, t: Stock, order: nat, m: Move, picked: set<nat>) {
    && (forall v | v in picked :: (order, v) in s.reservations && v in s.balances)
    && (forall v | v in picked :: LineOk(s.reservations[(order, v)]) && Moved(s, t, order, m, v))
    && OnlyLines(s, t, order, picked)
    && ((forall v | v in picked :: QtyOf(s, order, m, v) != 0) ==> Posted(s, t, order, SortedIds(picked), m))
    && (!m.Sell? ==> t.events == s.events)
  }

  ghost predicate IfMovingPosted(s: Stock, t: Stock, order: nat, m: Move, picked: set<nat>) {
    && (forall v | v in picked :: (order, v) in s.reservations)
    && (forall v | v in picked :: LineOk(s.reservations[(order, v)]) && Applies(m, s.reservations[(order, v)]))
    && ((forall v | v in picked :: QtyOf(s, order, m, v) != 0) ==> Posted(s, t, order, SortedIds(picked), m))
  }

  lemma BookedFromPosted(s: Stock, t: Stock, order: nat, vs: seq<nat>, m: Move, kind: MovementType, qty: map<nat, int>)
    requires (forall v | v in vs :: (order, v) in s.reservations) && Posted(s, t, order, vs, m)
    requires forall v | v in vs :: v in qty && QtyOf(s, order, m, v) == qty[v] && kind == if qty[v] < 0 then SaleCommit else SaleReturn
    ensures Booked(s, t, vs, kind, qty)
  {
  }

  /** The whole operation on some of the order's lines, all in one status. */
  lemma MovedLines(s: Stock, order: nat, vs: seq<nat>, m: Move, picked: set<nat>)
    requires Books(s) && Ascending(vs) && forall v | v in vs :: (order, v) in s.reservations
    requires forall v :: v in vs <==> v in picked
    ensures MovedAs(s, MoveLines(s, order, vs, m), order, m, picked)
  {
    AscendingListingsAgree(vs, SortedIds(picked));
    forall v | v in vs ensures v in s.balances && LineOk(s.reservations[(order, v)]) {
      assert (order, v).1 in s.balances;
    }
    LockingOwnLinesChangesNothing(s, order, vs);
    forall v | v in vs ensures Moved(s, MoveLines(s, order, vs, m), order, m, v) {
      MoveLinesEach(s, order, vs, m, v);
    }
    OthersStay(s, order, vs, m, picked);
    if forall v | v in vs :: QtyOf(s, order, m, v) != 0 {
      AllIsPosted(s, order, vs, m);
    }
  }

  lemma SaleOfLines(s: Stock, order: nat, vs: seq<nat>, picked: set<nat>)
    requires Books(s) && Ascending(vs) && forall v | v in vs :: (order, v) in s.reservations
    requires forall v :: v in vs <==> v in picked
    ensures SaleAnnounced(s, MoveLines(s, order, vs, Sell), picked)
  {
    forall v | v in vs ensures v in s.balances {
      assert (order, v).1 in s.balances;
    }
    LockingOwnLinesChangesNothing(s, order, vs);
    SaleIsAnnounced(s, order, vs, picked);
  }

  lemma OthersStay(s: Stock, order: nat, vs: seq<nat>, m: Move, picked: set<nat>)
    requires Postable(s, order, vs) && Ascending(vs) && WithBalances(s, set v | v in vs) == s
    requires forall v :: v in vs <==> v in picked
    ensures OnlyLines(s, MoveLines(s, order, vs, m), order, picked)
  {
    OthersUnmoved(s, order, vs, m, picked);
  }

  lemma AllIsPosted(s: Stock, order: nat, vs: seq<nat>, m: Move)
    requires Ascending(vs) && Postable(s, order, vs) && WithBalances(s, set v | v in vs) == s
    requires forall v | v in vs :: QtyOf(s, order, m, v) != 0
    ensures Posted(s, MoveLines(s, order, vs, m), order, vs, m)
  {
    EachLineIsPosted(s, order, vs, m);
  }

  lemma AllButTheLast(a: seq<nat>)
    requires Ascending(a) && a != []
    ensures forall v :: v in a[..|a| - 1] <==> v in a && v != a[|a| - 1]
    ensures forall v | v in a :: v <= a[|a| - 1]
  {
    assert a == a[..|a| - 1] + [a[|a| - 1]];
  }

  lemma {:induction false} AscendingListingsAgree(a: seq<nat>, b: seq<nat>)
    requires Ascending(a) && Ascending(b) && forall v :: v in a <==> v in b
    ensures a == b
  {
    assert (a != [] ==> a[0] in a) && (b != [] ==> b[0] in b);
    if a != [] && b != [] {
      AllButTheLast(a);
      AllButTheLast(b);
      assert a[|a| - 1] in b && b[|b| - 1] in a;
      assert a[|a| - 1] == b[|b| - 1];
      forall v: nat {:trigger v in a[..|a| - 1]} ensures v in a[..|a| - 1] <==> v in b[..|b| - 1] {
        assert v in b[..|b| - 1] <==> v in b && v != b[|b| - 1];
      }
      AscendingListingsAgree(a[..|a| - 1], b[..|b| - 1]);
    }
  }

  // ---------------------------------------------------------------- one alert per variant

  lemma {:induction false} EachIsOversold(vs: seq<nat>)
    ensures OversoldEvents(vs) == OversoldAlerts(vs)
  {
    if vs != [] {
      var rest, v := vs[..|vs| - 1], vs[|vs| - 1];
      EachIsOversold(rest);
      assert OversoldAlerts(vs) == OversoldAlerts(rest) + [Oversold(v)];
    }
  }

  lemma {:induction false} EachIsLow(vs: seq<nat>)
    ensures LowEvents(vs) == LowAlerts(vs)
  {
    if vs != [] {
      var rest, v := vs[..|vs| - 1], vs[|vs| - 1];
      EachIsLow(rest);
      assert LowAlerts(vs) == LowAlerts(rest) + [LowStock(v)];
    }
  }

  lemma {:induction false} EachIsSoldOut(vs: seq<nat>)
    ensures SoldOutEvents(vs) == SoldOutAlerts(vs)
  {
    if vs != [] {
      var rest, v := vs[..|vs| - 1], vs[|vs| - 1];
      EachIsSoldOut(rest);
      assert SoldOutAlerts(vs) == SoldOutAlerts(rest) + [SoldOut(v)];
    }
  }

  lemma OneAboveAll(ids: seq<nat>, last: nat)
    requires Ascending(ids) && forall id | id in ids :: id < last
    ensures Ascending(ids + [last])
  {
    assert forall i | 0 <= i < |ids| :: ids[i] in ids;
  }

  lemma {:induction false} PickingKeepsOrder(vs: seq<nat>, keep: nat -> bool)
    requires Ascending(vs)
    ensures Ascending(Picked(vs, keep))
  {
    if vs != [] {
      AllButTheLast(vs);
      PickingKeepsOrder(vs[..|vs| - 1], keep);
      var rest, last := vs[..|vs| - 1], vs[|vs| - 1];
      forall v | v in Picked(rest, keep) ensures v < last {
        assert v in rest;
      }
      OneAboveAll(Picked(rest, keep), last);
    }
  }

  lemma ThePickedOnes(vs: seq<nat>, keep: nat -> bool, picked: set<nat>)
    requires Ascending(vs) && forall v :: v in picked <==> v in vs && keep(v)
    ensures Picked(vs, keep) == SortedIds(picked)
  {
    PickingKeepsOrder(vs, keep);
    AscendingListingsAgree(Picked(vs, keep), SortedIds(picked));
  }

  lemma SaleIsAnnounced(s: Stock, order: nat, vs: seq<nat>, picked: set<nat>)
    requires Ascending(vs) && Postable(s, order, vs) && WithBalances(s, set v | v in vs) == s
    requires forall v :: v in vs <==> v in picked
    ensures SaleAnnounced(s, MoveLines(s, order, vs, Sell), picked)
  {
    var moved, t := PostAll(s, order, vs, Sell), MoveLines(s, order, vs, Sell);
    var low, out := (set v | v in picked && FellLow(s, t, v)), (set v | v in picked && RanOut(s, t, v));
    assert t.balances == moved.balances;
    ThePickedOnes(vs, LowAfter(s, moved), low);
    ThePickedOnes(vs, EmptyAfter(s, moved), out);
    EachIsLow(SortedIds(low));
    EachIsSoldOut(SortedIds(out));
  }

  // ---------------------------------------------------------------- the operations

  lemma ReserveEffect(s: Stock, order: nat, needs: map<nat, int>)
    requires Available(s, needs)
    ensures if exists v :: v in needs && (order, v) in s.reservations then ReserveStep(s, order, needs) == s
            else HeldAs(s, ReserveStep(s, order, needs), order, needs)
  {
    if Holdable(s, order, needs) {
      var vs := SortedIds(needs.Keys);
      forall v | v in needs ensures LineBecomes(s, ReserveStep(s, order, needs), order, v, Reservation(needs[v], 0, Active), 0, needs[v]) {
        HoldAllEach(s, order, vs, needs, v);
      }
    }
  }

  lemma CommitEffect(s: Stock, order: nat)
    requires Books(s)
    ensures SoldAs(s, CommitStep(s, order), order)
  {
    MovedLines(s, order, Lines(s, order, Active), Sell, LinesIn(s, order, Active));
    SaleOfLines(s, order, Lines(s, order, Active), LinesIn(s, order, Active));
    SoldFromMoved(s, CommitStep(s, order), order, Active);
  }

  lemma SoldFromMoved(s: Stock, t: Stock, order: nat, status: ReservationStatus)
    requires (status.Active? || status.Expired?) && MovedAs(s, t, order, Sell, LinesIn(s, order, status))
    requires SaleAnnounced(s, t, LinesIn(s, order, status))
    ensures status.Active? ==> SoldAs(s, t, order)
    ensures status.Expired? ==> SoldLateAs(s, t, order)
  {
    var picked := LinesIn(s, order, status);
    SoldIsBooked(s, t, order, picked);
    SoldLinesBecome(s, t, order, picked, status.Active?);
  }

  lemma SoldLinesBecome(s: Stock, t: Stock, order: nat, picked: set<nat>, held: bool)
    requires MovedAs(s, t, order, Sell, picked)
    requires forall v | v in picked :: s.reservations[(order, v)].status == if held then Active else Expired
    ensures AllSold(s, t, order, picked, held)
  {
    forall v | v in picked ensures var r := s.reservations[(order, v)];
      LineBecomes(s, t, order, v, Reservation(r.quantity, r.returned, Committed), -r.quantity, if held then -r.quantity else 0) {
      assert Moved(s, t, order, Sell, v);
    }
  }

  lemma SoldIsBooked(s: Stock, t: Stock, order: nat, picked: set<nat>)
    requires IfMovingPosted(s, t, order, Sell, picked)
    ensures Booked(s, t, SortedIds(picked), SaleCommit, map v | v in picked :: -s.reservations[(order, v)].quantity)
  {
    var qty := map v | v in picked :: -s.reservations[(order, v)].quantity;
    forall v | v in picked ensures QtyOf(s, order, Sell, v) == qty[v] < 0 {
    }
    BookedFromPosted(s, t, order, SortedIds(picked), Sell, SaleCommit, qty);
  }

  lemma ReleaseEffect(s: Stock, order: nat, expired: bool)
    requires Books(s)
    ensures FreedAs(s, ReleaseStep(s, order, expired), order, expired)
  {
    var vs := Lines(s, order, Active);
    MovedLines(s, order, vs, Free(expired), LinesIn(s, order, Active));
    LockingOwnLinesChangesNothing(s, order, vs);
    FreeingIsNotBooked(s, order, vs, expired);
    FreedFromMoved(s, ReleaseStep(s, order, expired), order, expired);
  }

  lemma FreedFromMoved(s: Stock, t: Stock, order: nat, expired: bool)
    requires MovedAs(s, t, order, Free(expired), LinesIn(s, order, Active)) && t.movements == s.movements
    ensures FreedAs(s, t, order, expired)
  {
  }

  lemma {:induction false} FreeingIsNotBooked(s: Stock, order: nat, vs: seq<nat>, expired: bool)
    requires Ascending(vs) && Postable(s, order, vs) && forall v | v in vs :: s.reservations[(order, v)].status.Active?
    ensures PostAll(s, order, vs, Free(expired)).movements == s.movements
  {
    if vs != [] {
      var last := |vs| - 1;
      FreeingIsNotBooked(s, order, vs[..last], expired);
      LineUntouchedSoFar(s, order, vs, Free(expired), last);
    }
  }

  lemma RecoverEffect(s: Stock, order: nat)
    requires Books(s)
    ensures if FitsTogether(s, order) then SoldLateAs(s, RecoverStep(s, order), order) else RecoverStep(s, order) == s
  {
    var vs := Lines(s, order, Expired);
    RecoversExactlyWhatFits(s, order);
    if Recoverable(s, order) {
      MovedLines(s, order, vs, Sell, LinesIn(s, order, Expired));
      SaleOfLines(s, order, vs, LinesIn(s, order, Expired));
      SoldFromMoved(s, RecoverStep(s, order), order, Expired);
    } else {
      LockingOwnLinesChangesNothing(s, order, vs);
    }
  }

  lemma ReturnEffect(s: Stock, order: nat)
    requires Books(s)
    ensures ReturnedAs(s, ReturnStep(s, order), order)
  {
    MovedLines(s, order, Lines(s, order, Committed), TakeBack, LinesIn(s, order, Committed));
    ReturnedFromMoved(s, ReturnStep(s, order), order);
  }

  lemma ReturnedFromMoved(s: Stock, t: Stock, order: nat)
    requires MovedAs(s, t, order, TakeBack, LinesIn(s, order, Committed))
    ensures ReturnedAs(s, t, order)
  {
    var picked := LinesIn(s, order, Committed);
    ReturnedIsBooked(s, t, order, picked);
    ReturnedLinesBecome(s, t, order, picked);
  }

  lemma ReturnedLinesBecome(s: Stock, t: Stock, order: nat, picked: set<nat>)
    requires MovedAs(s, t, order, TakeBack, picked) && forall v | v in picked :: s.reservations[(order, v)].status.Committed?
    ensures AllReturned(s, t, order, picked)
  {
    forall v | v in picked ensures var r := s.reservations[(order, v)];
      LineBecomes(s, t, order, v, Reservation(r.quantity, r.quantity, Returned), r.quantity - r.returned, 0) {
      assert Moved(s, t, order, TakeBack, v);
    }
  }

  lemma ReturnedIsBooked(s: Stock, t: Stock, order: nat, picked: set<nat>)
    requires IfMovingPosted(s, t, order, TakeBack, picked)
    ensures Booked(s, t, SortedIds(picked), SaleReturn,
                   map v | v in picked :: s.reservations[(order, v)].quantity - s.reservations[(order, v)].returned)
  {
    var left := map v | v in picked :: s.reservations[(order, v)].quantity - s.reservations[(order, v)].returned;
    forall v | v in picked ensures QtyOf(s, order, TakeBack, v) == left[v] > 0 {
    }
    BookedFromPosted(s, t, order, SortedIds(picked), TakeBack, SaleReturn, left);
  }

  /** How much of each asked line comes back. */
  function BackOf(s: Stock, order: nat, wanted: map<nat, int>): map<nat, int> {
    map v | v in Asked(s, order, wanted) :: Back(wanted, v, s.reservations[(order, v)])
  }

  lemma ReturnSomeEffect(s: Stock, order: nat, wanted: map<nat, int>)
    requires Books(s)
    ensures PartlyReturnedAs(s, ReturnSomeStep(s, order, wanted), order, wanted, BackOf(s, order, wanted))
  {
    MovedLines(s, order, Asked(s, order, wanted), TakeBackSome(wanted), BackOf(s, order, wanted).Keys);
    PartlyReturnedFromMoved(s, ReturnSomeStep(s, order, wanted), order, wanted);
  }

  lemma PartlyReturnedFromMoved(s: Stock, t: Stock, order: nat, wanted: map<nat, int>)
    requires MovedAs(s, t, order, TakeBackSome(wanted), BackOf(s, order, wanted).Keys)
    ensures PartlyReturnedAs(s, t, order, wanted, BackOf(s, order, wanted))
  {
    LinesComeBack(s, t, order, wanted);
    BackIsBooked(s, t, order, wanted);
  }

  lemma BackIsBooked(s: Stock, t: Stock, order: nat, wanted: map<nat, int>)
    requires MovedAs(s, t, order, TakeBackSome(wanted), BackOf(s, order, wanted).Keys)
    ensures var back := BackOf(s, order, wanted); Booked(s, t, SortedIds(back.Keys), SaleReturn, back)
  {
    var back := BackOf(s, order, wanted);
    forall v | v in back ensures QtyOf(s, order, TakeBackSome(wanted), v) == back[v] > 0 {
      BackIsWhatMoves(wanted, v, s.reservations[(order, v)]);
    }
    BookedFromPosted(s, t, order, SortedIds(back.Keys), TakeBackSome(wanted), SaleReturn, back);
  }

  lemma BackIsWhatMoves(wanted: map<nat, int>, v: nat, r: Reservation)
    requires LineOk(r) && r.status.Committed? && v in wanted && 0 < wanted[v]
    ensures Sold(r) - Sold(Target(TakeBackSome(wanted), v, r)) == Back(wanted, v, r) > 0
  {
  }

  lemma LinesComeBack(s: Stock, t: Stock, order: nat, wanted: map<nat, int>)
    requires MovedAs(s, t, order, TakeBackSome(wanted), BackOf(s, order, wanted).Keys)
    ensures var back := BackOf(s, order, wanted); forall v | v in back :: ComesBack(s, t, order, wanted, v, back[v])
  {
    forall v | v in BackOf(s, order, wanted) ensures ComesBack(s, t, order, wanted, v, BackOf(s, order, wanted)[v]) {
      OneLineComesBack(s, t, order, wanted, v);
    }
  }

  lemma OneLineComesBack(s: Stock, t: Stock, order: nat, wanted: map<nat, int>, v: nat)
    requires v in Asked(s, order, wanted) && v in s.balances && LineOk(s.reservations[(order, v)])
    requires Moved(s, t, order, TakeBackSome(wanted), v)
    ensures ComesBack(s, t, order, wanted, v, Back(wanted, v, s.reservations[(order, v)]))
  {
  }
}
