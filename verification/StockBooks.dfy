/** The books of the stock: what every operation on it keeps, one lemma per kind of step. */
module StockBooks {
  import opened Common
  import opened Stock

  // ---------------------------------------------------------------- the sums behind a balance

  ghost function HeldBy(v: nat): (Line, Reservation) -> int {
    (k: Line, r: Reservation) => if k.1 == v then Held(r) else 0
  }

  ghost function SoldOf(v: nat): (Line, Reservation) -> int {
    (k: Line, r: Reservation) => if k.1 == v then Sold(r) else 0
  }

  /** What all active reservations of the variant hold. */
  ghost function HeldSum(s: Stock, v: nat): int {
    SumMap(s.reservations, HeldBy(v))
  }

  /** What has been sold of the variant and has not come back. */
  ghost function SoldSum(s: Stock, v: nat): int {
    SumMap(s.reservations, SoldOf(v))
  }

  predicate IsSale(kind: MovementType) {
    kind.SaleCommit? || kind.SaleReturn?
  }

  /** The ledger total of a variant. */
  ghost function LedgerSum(ms: seq<Movement>, v: nat): int {
    if ms == [] then 0
    else
      var m := ms[|ms| - 1];
      LedgerSum(ms[..|ms| - 1], v) + if m.variant == v then m.qty else 0
  }

  /** The part of the ledger total that manual adjustments account for. */
  ghost function AdjustedSum(ms: seq<Movement>, v: nat): int {
    if ms == [] then 0
    else
      var m := ms[|ms| - 1];
      AdjustedSum(ms[..|ms| - 1], v) + if m.variant == v && !IsSale(m.kind) then m.qty else 0
  }

  lemma LedgerAppend(ms: seq<Movement>, m: Movement, v: nat)
    ensures LedgerSum(ms + [m], v) == LedgerSum(ms, v) + if m.variant == v then m.qty else 0
    ensures AdjustedSum(ms + [m], v) == AdjustedSum(ms, v) + if m.variant == v && !IsSale(m.kind) then m.qty else 0
  {
    assert (ms + [m])[..|ms|] == ms;
  }

  // ---------------------------------------------------------------- the invariant

  ghost predicate BalanceOk(s: Stock, v: nat)
    requires v in s.balances
  {
    var b := s.balances[v];
    && b.onHand == LedgerSum(s.movements, v)
    && b.reserved == HeldSum(s, v)
    && b.onHand == AdjustedSum(s.movements, v) - SoldSum(s, v)
  }

  ghost predicate MovementOk(s: Stock, i: nat)
    requires i < |s.movements|
  {
    var m := s.movements[i];
    m.variant in s.balances && m.balanceAfter == LedgerSum(s.movements[..i + 1], m.variant)
  }

  /** Every balance is explained by the ledger and by the reservations, every movement carries the
      running total of its variant, and every line is in a coherent state. */
  ghost predicate Books(s: Stock) {
    && (forall k | k in s.reservations :: k.1 in s.balances && LineOk(s.reservations[k]))
    && (forall i: nat | i < |s.movements| :: MovementOk(s, i))
    && (forall v {:trigger BalanceOk(s, v)} | v in s.balances :: BalanceOk(s, v))
  }

  lemma EmptyBooks()
    ensures Books(EMPTY)
  {
  }

  // ---------------------------------------------------------------- adding rows to the books

  lemma AppendKeepsMovements(s: Stock, t: Stock, m: Movement)
    requires Books(s)
    requires s.balances.Keys <= t.balances.Keys && m.variant in t.balances
    requires t.movements == s.movements + [m]
    requires m.balanceAfter == LedgerSum(s.movements, m.variant) + m.qty
    ensures forall i: nat | i < |t.movements| :: MovementOk(t, i)
  {
    forall i: nat | i < |s.movements| ensures MovementOk(t, i) {
      assert MovementOk(s, i);
      SameStart(s.movements, m, i);
    }
    LedgerAppend(s.movements, m, m.variant);
    assert t.movements[..|s.movements| + 1] == s.movements + [m];
  }

  lemma SameStart(ms: seq<Movement>, m: Movement, i: nat)
    requires i < |ms|
    ensures (ms + [m])[i] == ms[i] && (ms + [m])[..i + 1] == ms[..i + 1]
  {
  }

  lemma WithBalancesKeepsBooks(s: Stock, ids: set<nat>)
    requires Books(s)
    ensures Books(WithBalances(s, ids))
  {
    var t := WithBalances(s, ids);
    forall i: nat | i < |t.movements| ensures MovementOk(t, i) {
      assert MovementOk(s, i);
    }
    forall v | v in t.balances ensures BalanceOk(t, v) {
      if v in s.balances {
        assert BalanceOk(s, v);
      } else {
        NoTrace(s, v);
      }
    }
  }

  /** A variant without a balance row appears nowhere, so zero is its true balance. */
  lemma NoTrace(s: Stock, v: nat)
    requires Books(s) && v !in s.balances
    ensures LedgerSum(s.movements, v) == AdjustedSum(s.movements, v) == 0
    ensures HeldSum(s, v) == SoldSum(s, v) == 0
  {
    SumMapZero(s.reservations, HeldBy(v));
    SumMapZero(s.reservations, SoldOf(v));
    forall i: nat | i < |s.movements| ensures s.movements[i].variant != v {
      assert MovementOk(s, i);
    }
    NoMovement(s.movements, v);
  }

  lemma {:induction false} NoMovement(ms: seq<Movement>, v: nat)
    requires forall m | m in ms :: m.variant != v
    ensures LedgerSum(ms, v) == AdjustedSum(ms, v) == 0
  {
    if ms != [] {
      NoMovement(ms[..|ms| - 1], v);
    }
  }

  // ---------------------------------------------------------------- reservation moves

  lemma TargetOk(m: Move, v: nat, r: Reservation)
    requires LineOk(r) && Applies(m, r)
    ensures LineOk(Target(m, v, r))
    ensures Sold(r) != Sold(Target(m, v, r)) || Target(m, v, r) == r || m.Free?
  {
  }

  /** Moving one line keeps the books: the shelf changes by what the line's sale changes. */
  lemma PostKeepsBooks(s: Stock, order: nat, v: nat, m: Move)
    requires Books(s)
    requires (order, v) in s.reservations && v in s.balances
    requires Applies(m, s.reservations[(order, v)])
    ensures Books(Post(s, order, v, m))
  {
    var t := Post(s, order, v, m);
    var r, r' := s.reservations[(order, v)], t.reservations[(order, v)];
    TargetOk(m, v, r);
    assert BalanceOk(s, v);
    forall u | u in t.balances ensures BalanceOk(t, u) {
      assert BalanceOk(s, u);
      SumMapUpdate(s.reservations, HeldBy(u), (order, v), r');
      SumMapUpdate(s.reservations, SoldOf(u), (order, v), r');
      if Sold(r) != Sold(r') {
        LedgerAppend(s.movements, t.movements[|s.movements|], u);
      }
    }
    if Sold(r) != Sold(r') {
      AppendKeepsMovements(s, t, t.movements[|s.movements|]);
    } else {
      forall i: nat | i < |t.movements| ensures MovementOk(t, i) {
        assert MovementOk(s, i);
      }
    }
  }

  /** Lines of other orders, and balances outside the operation, stay as they are. */
  lemma {:induction false} PostAllElsewhere(s: Stock, order: nat, vs: seq<nat>, m: Move, v: nat)
    requires Postable(s, order, vs)
    ensures var t := PostAll(s, order, vs, m);
      && (v in s.balances && v !in vs ==> t.balances[v] == s.balances[v])
      && (forall o | (o, v) in s.reservations && (o != order || v !in vs) :: t.reservations[(o, v)] == s.reservations[(o, v)])
  {
    if vs != [] {
      var last := |vs| - 1;
      assert vs == vs[..last] + [vs[last]];
      PostAllElsewhere(s, order, vs[..last], m, v);
    }
  }

  lemma {:induction false} PostAllKeepsBooks(s: Stock, order: nat, vs: seq<nat>, m: Move)
    requires Books(s) && Ascending(vs) && Postable(s, order, vs)
    requires forall v | v in vs :: Applies(m, s.reservations[(order, v)])
    ensures Books(PostAll(s, order, vs, m))
  {
    if vs != [] {
      var last := |vs| - 1;
      PostAllKeepsBooks(s, order, vs[..last], m);
      assert vs[last] !in vs[..last];
      PostAllElsewhere(s, order, vs[..last], m, vs[last]);
      PostKeepsBooks(PostAll(s, order, vs[..last], m), order, vs[last], m);
    }
  }

  /** What a line and its balance look like after the line moved. */
  ghost predicate Moved(s: Stock, t: Stock, order: nat, m: Move, v: nat)
    requires (order, v) in s.reservations && v in s.balances
  {
    var r := s.reservations[(order, v)];
    var r' := Target(m, v, r);
    var b := s.balances[v];
    && (order, v) in t.reservations && t.reservations[(order, v)] == r'
    && v in t.balances
    && t.balances[v] == b.(onHand := b.onHand + Sold(r) - Sold(r'), reserved := b.reserved + Held(r') - Held(r))
  }

  lemma PostAllLast(s: Stock, order: nat, vs: seq<nat>, m: Move)
    requires Ascending(vs) && Postable(s, order, vs) && vs != []
    ensures Moved(s, PostAll(s, order, vs, m), order, m, vs[|vs| - 1])
  {
    var last := |vs| - 1;
    assert vs[last] !in vs[..last];
    PostAllElsewhere(s, order, vs[..last], m, vs[last]);
    var before := PostAll(s, order, vs[..last], m);
    PostMoves(before, order, vs[last], m);
    MovedFromSame(s, before, Post(before, order, vs[last], m), order, m, vs[last]);
  }

  lemma PostAllNotLast(s: Stock, order: nat, vs: seq<nat>, m: Move, v: nat)
    requires Ascending(vs) && Postable(s, order, vs) && v in vs && v != vs[|vs| - 1]
    requires Moved(s, PostAll(s, order, vs[..|vs| - 1], m), order, m, v)
    ensures Moved(s, PostAll(s, order, vs, m), order, m, v)
  {
    var last := |vs| - 1;
    var before := PostAll(s, order, vs[..last], m);
    PostElsewhere(before, order, vs[last], m, v);
    MovedToSame(s, before, Post(before, order, vs[last], m), order, m, v);
  }

  lemma {:induction false} PostAllEach(s: Stock, order: nat, vs: seq<nat>, m: Move, v: nat)
    requires Ascending(vs) && Postable(s, order, vs) && v in vs
    ensures Moved(s, PostAll(s, order, vs, m), order, m, v)
  {
    var last := |vs| - 1;
    if v == vs[last] {
      PostAllLast(s, order, vs, m);
    } else {
      assert v in vs[..last];
      PostAllEach(s, order, vs[..last], m, v);
      PostAllNotLast(s, order, vs, m, v);
    }
  }

  lemma MovedFromSame(s: Stock, s': Stock, t: Stock, order: nat, m: Move, v: nat)
    requires (order, v) in s.reservations && v in s.balances
    requires (order, v) in s'.reservations && v in s'.balances
    requires s.reservations[(order, v)] == s'.reservations[(order, v)] && s.balances[v] == s'.balances[v]
    requires Moved(s', t, order, m, v)
    ensures Moved(s, t, order, m, v)
  {
  }

  lemma MovedToSame(s: Stock, t: Stock, t': Stock, order: nat, m: Move, v: nat)
    requires (order, v) in s.reservations && v in s.balances
    requires (order, v) in t.reservations && v in t.balances
    requires (order, v) in t'.reservations && v in t'.balances
    requires t.reservations[(order, v)] == t'.reservations[(order, v)] && t.balances[v] == t'.balances[v]
    requires Moved(s, t, order, m, v)
    ensures Moved(s, t', order, m, v)
  {
  }

  lemma PostMoves(s: Stock, order: nat, v: nat, m: Move)
    requires (order, v) in s.reservations && v in s.balances
    ensures Moved(s, Post(s, order, v, m), order, m, v)
  {
  }

  lemma PostElsewhere(s: Stock, order: nat, v: nat, m: Move, u: nat)
    requires (order, v) in s.reservations && v in s.balances && u != v
    requires (order, u) in s.reservations && u in s.balances
    ensures var t := Post(s, order, v, m);
      t.reservations[(order, u)] == s.reservations[(order, u)] && t.balances[u] == s.balances[u]
  {
  }

  /** Moves only append to the ledger. */
  lemma {:induction false} PostAllAppends(s: Stock, order: nat, vs: seq<nat>, m: Move)
    requires Postable(s, order, vs)
    ensures s.movements <= PostAll(s, order, vs, m).movements
  {
    if vs != [] {
      PostAllAppends(s, order, vs[..|vs| - 1], m);
    }
  }

  lemma BooksIgnoreEvents(s: Stock, es: seq<StockEvent>)
    requires Books(s)
    ensures Books(s.(events := es))
  {
    var t := s.(events := es);
    forall i: nat | i < |t.movements| ensures MovementOk(t, i) {
      assert MovementOk(s, i);
    }
    forall v | v in t.balances ensures BalanceOk(t, v) {
      assert BalanceOk(s, v);
    }
  }

  lemma MoveLinesKeepsBooks(s: Stock, order: nat, vs: seq<nat>, m: Move)
    requires Books(s) && Ascending(vs)
    requires forall v | v in vs :: (order, v) in s.reservations && Applies(m, s.reservations[(order, v)])
    ensures Books(MoveLines(s, order, vs, m))
  {
    var ids := set v | v in vs;
    WithBalancesKeepsBooks(s, ids);
    var locked := WithBalances(s, ids);
    PostAllKeepsBooks(locked, order, vs, m);
    BooksIgnoreEvents(PostAll(locked, order, vs, m), MoveLines(s, order, vs, m).events);
  }

  /** The whole operation, seen from one of its lines. */
  lemma MoveLinesEach(s: Stock, order: nat, vs: seq<nat>, m: Move, v: nat)
    requires Ascending(vs) && v in vs
    requires forall u | u in vs :: (order, u) in s.reservations
    requires v in s.balances
    ensures Moved(s, MoveLines(s, order, vs, m), order, m, v)
  {
    var locked := WithBalances(s, set u | u in vs);
    var moved := PostAll(locked, order, vs, m);
    PostAllEach(locked, order, vs, m, v);
    MovedToSame(locked, moved, MoveLines(s, order, vs, m), order, m, v);
    MovedFromSame(s, locked, MoveLines(s, order, vs, m), order, m, v);
  }

  /** Balances and lines outside the operation do not change; missing balances open at zero. */
  lemma MoveLinesElsewhere(s: Stock, order: nat, vs: seq<nat>, m: Move, v: nat)
    requires forall u | u in vs :: (order, u) in s.reservations
    requires v !in vs
    ensures var t := MoveLines(s, order, vs, m);
      && (v in t.balances <==> v in s.balances)
      && (v in s.balances ==> t.balances[v] == s.balances[v])
      && (forall o | (o, v) in s.reservations :: (o, v) in t.reservations && t.reservations[(o, v)] == s.reservations[(o, v)])
  {
    PostAllElsewhere(WithBalances(s, set u | u in vs), order, vs, m, v);
  }

  // ---------------------------------------------------------------- half-way through a loop

  lemma PostAllSnoc(s: Stock, order: nat, vs: seq<nat>, m: Move, i: nat)
    requires Postable(s, order, vs) && i < |vs|
    ensures Postable(s, order, vs[..i]) && Postable(s, order, vs[..i + 1])
    ensures PostAll(s, order, vs[..i + 1], m) == Post(PostAll(s, order, vs[..i], m), order, vs[i], m)
  {
    assert vs[..i + 1][..i] == vs[..i];
  }

  /** The line about to move is as it was when the loop began. */
  lemma LineUntouchedSoFar(s: Stock, order: nat, vs: seq<nat>, m: Move, i: nat)
    requires Ascending(vs) && Postable(s, order, vs) && i < |vs|
    ensures var now := PostAll(s, order, vs[..i], m);
      now.reservations[(order, vs[i])] == s.reservations[(order, vs[i])] && now.balances[vs[i]] == s.balances[vs[i]]
  {
    assert vs[i] !in vs[..i];
    PostAllElsewhere(s, order, vs[..i], m, vs[i]);
  }

  /** Once moved, a line's balance is as it will be when the loop ends. */
  lemma LineSettled(s: Stock, order: nat, vs: seq<nat>, m: Move, i: nat)
    requires Ascending(vs) && Postable(s, order, vs) && i < |vs|
    ensures PostAll(s, order, vs[..i + 1], m).balances[vs[i]] == PostAll(s, order, vs, m).balances[vs[i]]
  {
    PostAllEach(s, order, vs[..i + 1], m, vs[i]);
    PostAllEach(s, order, vs, m, vs[i]);
  }

  lemma HoldAllSnoc(s: Stock, order: nat, vs: seq<nat>, needs: map<nat, int>, i: nat)
    requires i < |vs| && forall v | v in vs :: v in needs && v in s.balances
    ensures HoldAll(s, order, vs[..i + 1], needs) == HoldOne(HoldAll(s, order, vs[..i], needs), order, vs[i], needs[vs[i]])
  {
    assert vs[..i + 1][..i] == vs[..i];
  }

  lemma PickedSnoc(vs: seq<nat>, keep: nat -> bool, i: nat)
    requires i < |vs|
    ensures Picked(vs[..i + 1], keep) == Picked(vs[..i], keep) + if keep(vs[i]) then [vs[i]] else []
  {
    assert vs[..i + 1][..i] == vs[..i];
  }

  // ---------------------------------------------------------------- new holds

  lemma NewLineWeighs(u: nat, k: Line, r: Reservation)
    ensures HeldBy(u)(k, r) == if k.1 == u then Held(r) else 0
    ensures SoldOf(u)(k, r) == if k.1 == u then Sold(r) else 0
  {
  }

  lemma HoldKeepsBooks(s: Stock, order: nat, v: nat, quantity: int)
    requires Books(s) && v in s.balances && (order, v) !in s.reservations && 0 < quantity
    ensures Books(HoldOne(s, order, v, quantity))
  {
    var t := HoldOne(s, order, v, quantity);
    var r := Reservation(quantity, 0, Active);
    assert t.reservations == s.reservations[(order, v) := r];
    forall u | u in t.balances ensures BalanceOk(t, u) {
      assert BalanceOk(s, u);
      SumMapUpdate(s.reservations, HeldBy(u), (order, v), r);
      SumMapUpdate(s.reservations, SoldOf(u), (order, v), r);
      NewLineWeighs(u, (order, v), r);
    }
    forall i: nat | i < |t.movements| ensures MovementOk(t, i) {
      assert MovementOk(s, i);
    }
  }

  lemma {:induction false} HoldAllKeepsBooks(s: Stock, order: nat, vs: seq<nat>, needs: map<nat, int>)
    requires Books(s) && Ascending(vs)
    requires forall v | v in vs :: v in needs && v in s.balances && (order, v) !in s.reservations && 0 < needs[v]
    ensures Books(HoldAll(s, order, vs, needs))
  {
    if vs != [] {
      var last := |vs| - 1;
      HoldAllKeepsBooks(s, order, vs[..last], needs);
      assert vs[last] !in vs[..last];
      HoldKeepsBooks(HoldAll(s, order, vs[..last], needs), order, vs[last], needs[vs[last]]);
    }
  }

  lemma {:induction false} HoldAllEach(s: Stock, order: nat, vs: seq<nat>, needs: map<nat, int>, v: nat)
    requires Ascending(vs) && v in vs
    requires forall u | u in vs :: u in needs && u in s.balances
    ensures HoldAll(s, order, vs, needs).balances[v]
         == s.balances[v].(reserved := s.balances[v].reserved + needs[v])
    ensures HoldAll(s, order, vs, needs).reservations[(order, v)] == Reservation(needs[v], 0, Active)
  {
    var last := |vs| - 1;
    assert vs == vs[..last] + [vs[last]];
    assert vs[last] !in vs[..last];
    if v != vs[last] {
      assert v in vs[..last];
      HoldAllEach(s, order, vs[..last], needs, v);
    }
  }

  // ---------------------------------------------------------------- adjustments

  lemma AdjustKeepsBooks(s: Stock, kind: AdjustmentKind, line: AdjustmentLine)
    requires Books(s) && line.variant in s.balances
    ensures Books(AdjustOne(s, kind, line))
  {
    var t := AdjustOne(s, kind, line);
    var m := t.movements[|s.movements|];
    assert t.movements == s.movements + [m];
    assert BalanceOk(s, line.variant);
    forall u | u in t.balances ensures BalanceOk(t, u) {
      assert BalanceOk(s, u);
      LedgerAppend(s.movements, m, u);
    }
    AppendKeepsMovements(s, t, m);
  }

  lemma {:induction false} AdjustAllKeepsBooks(s: Stock, kind: AdjustmentKind, lines: seq<AdjustmentLine>)
    requires Books(s)
    requires forall l | l in lines :: l.variant in s.balances
    ensures Books(AdjustAll(s, kind, lines))
  {
    if lines != [] {
      var last := |lines| - 1;
      AdjustAllKeepsBooks(s, kind, lines[..last]);
      AdjustKeepsBooks(AdjustAll(s, kind, lines[..last]), kind, lines[last]);
    }
  }

  lemma {:induction false} AdjustAllEach(s: Stock, kind: AdjustmentKind, lines: seq<AdjustmentLine>, i: nat)
    requires Distinct(lines) && i < |lines|
    requires forall l | l in lines :: l.variant in s.balances
    ensures var l := lines[i]; var b := s.balances[l.variant];
      AdjustAll(s, kind, lines).balances[l.variant] == b.(onHand := LevelAfter(kind, b.onHand, l.qty))
  {
    var last := |lines| - 1;
    if i == last {
      assert forall l | l in lines[..last] :: l.variant != lines[last].variant;
    } else {
      AdjustAllEach(s, kind, lines[..last], i);
    }
  }

  lemma {:induction false} AdjustAllAppends(s: Stock, kind: AdjustmentKind, lines: seq<AdjustmentLine>)
    requires forall l | l in lines :: l.variant in s.balances
    ensures s.movements <= AdjustAll(s, kind, lines).movements
  {
    if lines != [] {
      AdjustAllAppends(s, kind, lines[..|lines| - 1]);
    }
  }

  /** The lines an adjustment reports are exactly the bad ones. */
  lemma {:induction false} PickedLinesExactly(s: Stock, kind: AdjustmentKind, lines: seq<AdjustmentLine>, bad: (Balance, int) -> bool, v: nat)
    requires forall l | l in lines :: l.variant in s.balances
    ensures v in PickedLines(s, kind, lines, bad) <==>
      exists i: nat :: i < |lines| && lines[i].variant == v && BadLine(s, kind, lines[i], bad)
  {
    if lines != [] {
      var last := |lines| - 1;
      var rest := lines[..last];
      PickedLinesExactly(s, kind, rest, bad, v);
      if exists i: nat :: i < |lines| && lines[i].variant == v && BadLine(s, kind, lines[i], bad) {
        var i: nat :| i < |lines| && lines[i].variant == v && BadLine(s, kind, lines[i], bad);
        if i < last {
          assert rest[i] == lines[i];
        }
      }
      if v in PickedLines(s, kind, rest, bad) {
        var i: nat :| i < |rest| && rest[i].variant == v && BadLine(s, kind, rest[i], bad);
        assert lines[i] == rest[i];
      }
    }
  }

  predicate BadLine(s: Stock, kind: AdjustmentKind, l: AdjustmentLine, bad: (Balance, int) -> bool)
    requires l.variant in s.balances
  {
    var b := s.balances[l.variant];
    bad(b, LevelAfter(kind, b.onHand, l.qty))
  }

  lemma AnEmptyPickHasNoBadLine(s: Stock, kind: AdjustmentKind, lines: seq<AdjustmentLine>, bad: (Balance, int) -> bool, i: nat)
    requires forall l | l in lines :: l.variant in s.balances
    requires i < |lines| && PickedLines(s, kind, lines, bad) == []
    ensures !BadLine(s, kind, lines[i], bad)
  {
    PickedLinesExactly(s, kind, lines, bad, lines[i].variant);
  }
}
