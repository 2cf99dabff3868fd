/** Stock as values: balances, reservations, the append-only ledger and the events they emit.

    Every reservation operation is described as double entry: the line moves from one state to
    another, and the balance changes by exactly what that move takes out of, or puts back on, the
    shelf. What the operations promise over whole runs is proved in StockRuns. */
module Stock {
  import opened Common

  datatype MovementType = Receipt | Adjustment | Loss | Count | SaleCommit | SaleReturn
  datatype ReservationStatus = Active | Committed | Released | Expired | Returned

  datatype Balance = Balance(onHand: int, reserved: int, minLevel: Option<int>)
  datatype Reservation = Reservation(quantity: int, returned: int, status: ReservationStatus)
  datatype Movement = Movement(variant: nat, kind: MovementType, qty: int, balanceAfter: int)
  datatype StockEvent = SoldOut(variant: nat) | LowStock(variant: nat) | Oversold(variant: nat)

  /** An order's reservations are keyed by (order, variant): the unique line of the table. */
  type Line = (nat, nat)

  datatype Stock = Stock(
    balances: map<nat, Balance>,
    reservations: map<Line, Reservation>,
    movements: seq<Movement>,
    events: seq<StockEvent>)

  const EMPTY: Stock := Stock(map[], map[], [], [])
  const ZERO_BALANCE: Balance := Balance(0, 0, None)

  // ---------------------------------------------------------------- the meaning of a line

  /** What a line holds back from sale while its order waits for payment. */
  function Held(r: Reservation): int {
    if r.status.Active? then r.quantity else 0
  }

  /** What a line has taken off the shelf for good: sold and not (yet) returned. */
  function Sold(r: Reservation): int {
    if r.status.Committed? || r.status.Returned? then r.quantity - r.returned else 0
  }

  predicate LineOk(r: Reservation) {
    && 0 < r.quantity
    && match r.status
       case Active => r.returned == 0
       case Released => r.returned == 0
       case Expired => r.returned == 0
       case Committed => 0 <= r.returned < r.quantity
       case Returned => r.returned == r.quantity
  }

  /** What happens to the lines of one order. */
  datatype Move =
    | Sell
    | Free(expired: bool)
    | TakeBack
    | TakeBackSome(wanted: map<nat, int>)

  /** The line statuses an operation selects. */
  predicate Applies(m: Move, r: Reservation) {
    match m
    case Sell => r.status.Active? || r.status.Expired?
    case Free(_) => r.status.Active?
    case TakeBack => r.status.Committed?
    case TakeBackSome(_) => r.status.Committed?
  }

  function Target(m: Move, v: nat, r: Reservation): Reservation {
    match m
    case Sell => r.(status := Committed)
    case Free(expired) => r.(status := if expired then Expired else Released)
    case TakeBack => r.(status := Returned, returned := Max(r.quantity, r.returned))
    case TakeBackSome(wanted) =>
      var back := Back(wanted, v, r);
      if back <= 0 then r
      else if r.returned + back >= r.quantity then r.(status := Returned, returned := r.returned + back)
      else r.(returned := r.returned + back)
  }

  /** How much of a line comes back when `wanted` asks for some: never more than it still has. */
  function Back(wanted: map<nat, int>, v: nat, r: Reservation): int {
    if v in wanted then Min(wanted[v], Max(r.quantity - r.returned, 0)) else 0
  }

  // ---------------------------------------------------------------- posting moves

  ghost predicate Postable(s: Stock, order: nat, vs: seq<nat>) {
    forall v | v in vs :: (order, v) in s.reservations && v in s.balances
  }

  /** One line moves: the shelf, the hold and the ledger change by the difference it makes. */
  function Post(s: Stock, order: nat, v: nat, m: Move): Stock
    requires (order, v) in s.reservations && v in s.balances
  {
    var r := s.reservations[(order, v)];
    var t := Target(m, v, r);
    var qty := Sold(r) - Sold(t);
    var b := s.balances[v];
    var after := b.(onHand := b.onHand + qty, reserved := b.reserved + Held(t) - Held(r));
    Stock(
      s.balances[v := after],
      s.reservations[(order, v) := t],
      if qty == 0 then s.movements
      else s.movements + [Movement(v, if qty < 0 then SaleCommit else SaleReturn, qty, after.onHand)],
      s.events)
  }

  function PostAll(s: Stock, order: nat, vs: seq<nat>, m: Move): (r: Stock)
    requires Postable(s, order, vs)
    ensures r.balances.Keys == s.balances.Keys
    ensures r.reservations.Keys == s.reservations.Keys
    ensures r.events == s.events
  {
    if vs == [] then s
    else
      var last := |vs| - 1;
      Post(PostAll(s, order, vs[..last], m), order, vs[last], m)
  }

  /** The variants of an order's lines in one status, in variant order. */
  function Lines(s: Stock, order: nat, status: ReservationStatus): (vs: seq<nat>)
    ensures Ascending(vs)
    ensures forall v :: v in vs <==> (order, v) in s.reservations && s.reservations[(order, v)].status == status
  {
    SortedIds(set k | k in s.reservations && k.0 == order && s.reservations[k].status == status :: k.1)
  }

  /** Locking balances creates the missing rows at zero. */
  function WithBalances(s: Stock, ids: set<nat>): Stock {
    s.(balances := map v | v in s.balances.Keys + ids :: if v in s.balances then s.balances[v] else ZERO_BALANCE)
  }

  // ---------------------------------------------------------------- alerts

  predicate CrossedToZero(before: int, after: int) {
    before > 0 >= after
  }

  /** A sale's alarm: the goods on the shelf fell below the minimum. */
  predicate SaleCrossedBelow(b: Balance, before: int) {
    b.minLevel.Some? && before >= b.minLevel.value > b.onHand
  }

  /** An adjustment's alarm: what is left to sell fell below the minimum. */
  predicate AdjustCrossedBelow(b: Balance, before: int, after: int) {
    b.minLevel.Some? && before - b.reserved >= b.minLevel.value > after - b.reserved
  }

  /** The elements of `vs` that satisfy `keep`, in order. */
  function Picked(vs: seq<nat>, keep: nat -> bool): (out: seq<nat>)
    ensures forall v :: v in out <==> v in vs && keep(v)
  {
    if vs == [] then []
    else
      var last := |vs| - 1;
      Picked(vs[..last], keep) + if keep(vs[last]) then [vs[last]] else []
  }

  function LowEvents(vs: seq<nat>): (es: seq<StockEvent>)
    ensures forall v :: LowStock(v) in es <==> v in vs
    ensures forall e | e in es :: e.LowStock?
  {
    if vs == [] then [] else LowEvents(vs[..|vs| - 1]) + [LowStock(vs[|vs| - 1])]
  }

  function SoldOutEvents(vs: seq<nat>): (es: seq<StockEvent>)
    ensures forall v :: SoldOut(v) in es <==> v in vs
    ensures forall e | e in es :: e.SoldOut?
  {
    if vs == [] then [] else SoldOutEvents(vs[..|vs| - 1]) + [SoldOut(vs[|vs| - 1])]
  }

  function OversoldEvents(vs: seq<nat>): (es: seq<StockEvent>)
    ensures forall v :: Oversold(v) in es <==> v in vs
    ensures forall e | e in es :: e.Oversold?
  {
    if vs == [] then [] else OversoldEvents(vs[..|vs| - 1]) + [Oversold(vs[|vs| - 1])]
  }

  /** Lines of a sale after which the balance is below its minimum, or empty. */
  function LowAfter(before: Stock, after: Stock): nat -> bool {
    v => v in before.balances && v in after.balances && SaleCrossedBelow(after.balances[v], before.balances[v].onHand)
  }

  function EmptyAfter(before: Stock, after: Stock): nat -> bool {
    v => v in before.balances && v in after.balances
      && CrossedToZero(before.balances[v].onHand, after.balances[v].onHand)
  }

  function WithSaleAlerts(before: Stock, after: Stock, vs: seq<nat>): Stock {
    after.(events := after.events
                   + LowEvents(Picked(vs, LowAfter(before, after)))
                   + SoldOutEvents(Picked(vs, EmptyAfter(before, after))))
  }

  // ---------------------------------------------------------------- reservation operations

  predicate Holdable(s: Stock, order: nat, needs: map<nat, int>) {
    forall v | v in needs :: (order, v) !in s.reservations
  }

  /** The caller locked the balances and saw, under that lock, that the needs are available. */
  predicate Available(s: Stock, needs: map<nat, int>) {
    forall v | v in needs ::
      v in s.balances && 0 < needs[v] <= s.balances[v].onHand - s.balances[v].reserved
  }

  function HoldOne(s: Stock, order: nat, v: nat, quantity: int): Stock
    requires v in s.balances
  {
    var b := s.balances[v];
    s.(balances := s.balances[v := b.(reserved := b.reserved + quantity)],
       reservations := s.reservations[(order, v) := Reservation(quantity, 0, Active)])
  }

  function HoldAll(s: Stock, order: nat, vs: seq<nat>, needs: map<nat, int>): (r: Stock)
    requires forall v | v in vs :: v in needs && v in s.balances
    ensures r.balances.Keys == s.balances.Keys
    ensures forall v | v in s.balances && v !in vs :: r.balances[v] == s.balances[v]
    ensures forall k :: k in r.reservations <==> k in s.reservations || (k.0 == order && k.1 in vs)
    ensures forall k | k in s.reservations && (k.0 != order || k.1 !in vs) :: r.reservations[k] == s.reservations[k]
    ensures r.movements == s.movements && r.events == s.events
  {
    if vs == [] then s
    else
      var last := |vs| - 1;
      HoldOne(HoldAll(s, order, vs[..last], needs), order, vs[last], needs[vs[last]])
  }

  /** A line that already exists breaks the unique key: the transaction is rolled back. */
  function ReserveStep(s: Stock, order: nat, needs: map<nat, int>): Stock
    requires needs.Keys <= s.balances.Keys
  {
    if Holdable(s, order, needs) then HoldAll(s, order, SortedIds(needs.Keys), needs) else s
  }

  /** Moves the order's lines in `status`, with the alerts of a sale when it is one. */
  function MoveLines(s: Stock, order: nat, vs: seq<nat>, m: Move): Stock
    requires forall v | v in vs :: (order, v) in s.reservations
  {
    var locked := WithBalances(s, set v | v in vs);
    var moved := PostAll(locked, order, vs, m);
    if m.Sell? then WithSaleAlerts(locked, moved, vs) else moved
  }

  function CommitStep(s: Stock, order: nat): Stock {
    MoveLines(s, order, Lines(s, order, Active), Sell)
  }

  function ReleaseStep(s: Stock, order: nat, expired: bool): Stock {
    MoveLines(s, order, Lines(s, order, Active), Free(expired))
  }

  /** All the expired lines of the order fit on the shelf at once. */
  predicate Fits(s: Stock, order: nat, vs: seq<nat>)
    requires forall v | v in vs :: (order, v) in s.reservations
  {
    forall v | v in vs ::
      v in s.balances && s.reservations[(order, v)].quantity <= s.balances[v].onHand - s.balances[v].reserved
  }

  predicate Recoverable(s: Stock, order: nat) {
    var vs := Lines(s, order, Expired);
    Fits(WithBalances(s, set v | v in vs), order, vs)
  }

  function RecoverStep(s: Stock, order: nat): Stock {
    var vs := Lines(s, order, Expired);
    if Recoverable(s, order) then MoveLines(s, order, vs, Sell) else WithBalances(s, set v | v in vs)
  }

  function ReturnStep(s: Stock, order: nat): Stock {
    MoveLines(s, order, Lines(s, order, Committed), TakeBack)
  }

  /** The committed lines of the order that a partial return asks for. */
  function Asked(s: Stock, order: nat, wanted: map<nat, int>): (vs: seq<nat>)
    ensures Ascending(vs)
    ensures forall v :: v in vs <==>
      (order, v) in s.reservations && s.reservations[(order, v)].status.Committed? && v in wanted && 0 < wanted[v]
  {
    SortedIds(set v | v in wanted && 0 < wanted[v] && (order, v) in s.reservations
                      && s.reservations[(order, v)].status.Committed?)
  }

  function ReturnSomeStep(s: Stock, order: nat, wanted: map<nat, int>): Stock {
    MoveLines(s, order, Asked(s, order, wanted), TakeBackSome(wanted))
  }

  // ---------------------------------------------------------------- panel adjustments

  datatype AdjustmentKind = KReceipt | KLoss | KAdjustment | KCount
  datatype AdjustmentLine = AdjustmentLine(variant: nat, qty: int, hasCost: bool)
  datatype VariantInfo = VariantInfo(tracked: bool, byUnit: bool)

  datatype AdjustError =
    | MissingReason | RepeatedVariant | UnknownVariant
    | NotTracked | NotWhole | NotPositive | ZeroQuantity | NegativeCount | CostNotAllowed
    | InsufficientStock(variants: seq<nat>)
    | ReservedStock(variants: seq<nat>)

  const MILLI := 1000

  function LineProblem(kind: AdjustmentKind, line: AdjustmentLine, info: VariantInfo): Option<AdjustError> {
    if !info.tracked then Some(NotTracked)
    else if info.byUnit && line.qty % MILLI != 0 then Some(NotWhole)
    else if (kind.KReceipt? || kind.KLoss?) && line.qty <= 0 then Some(NotPositive)
    else if kind.KAdjustment? && line.qty == 0 then Some(ZeroQuantity)
    else if kind.KCount? && line.qty < 0 then Some(NegativeCount)
    else if line.hasCost && !kind.KReceipt? then Some(CostNotAllowed)
    else None
  }

  function FirstLineProblem(kind: AdjustmentKind, lines: seq<AdjustmentLine>, found: map<nat, VariantInfo>): Option<AdjustError>
    requires forall l | l in lines :: l.variant in found
  {
    if lines == [] then None
    else
      var p := LineProblem(kind, lines[0], found[lines[0].variant]);
      if p.Some? then p else FirstLineProblem(kind, lines[1..], found)
  }

  predicate Distinct(lines: seq<AdjustmentLine>) {
    forall i, j | 0 <= i < j < |lines| :: lines[i].variant != lines[j].variant
  }

  /** What is checked before any balance is locked, in the order it is checked. */
  function RequestProblem(kind: AdjustmentKind, hasReason: bool, lines: seq<AdjustmentLine>, found: map<nat, VariantInfo>): Option<AdjustError> {
    if (kind.KAdjustment? || kind.KLoss?) && !hasReason then Some(MissingReason)
    else if !Distinct(lines) then Some(RepeatedVariant)
    else if exists l | l in lines :: l.variant !in found then Some(UnknownVariant)
    else FirstLineProblem(kind, lines, found)
  }

  /** The level a line leaves its balance at. */
  function LevelAfter(kind: AdjustmentKind, onHand: int, qty: int): int {
    match kind
    case KReceipt => onHand + qty
    case KLoss => onHand - qty
    case KAdjustment => onHand + qty
    case KCount => qty
  }

  function MovementFor(kind: AdjustmentKind): MovementType {
    match kind
    case KReceipt => Receipt
    case KLoss => Loss
    case KAdjustment => Adjustment
    case KCount => Count
  }

  function VariantsOf(lines: seq<AdjustmentLine>): (vs: seq<nat>)
    ensures |vs| == |lines|
    ensures forall i | 0 <= i < |lines| :: vs[i] == lines[i].variant
  {
    seq(|lines|, i requires 0 <= i < |lines| => lines[i].variant)
  }

  /** The variants of `lines` whose line satisfies `bad` against its balance, in line order. */
  function PickedLines(s: Stock, kind: AdjustmentKind, lines: seq<AdjustmentLine>, bad: (Balance, int) -> bool): (vs: seq<nat>)
    requires forall l | l in lines :: l.variant in s.balances
  {
    if lines == [] then []
    else
      var rest, l := lines[..|lines| - 1], lines[|lines| - 1];
      var b := s.balances[l.variant];
      PickedLines(s, kind, rest, bad) + if bad(b, LevelAfter(kind, b.onHand, l.qty)) then [l.variant] else []
  }

  const BELOW_ZERO: (Balance, int) -> bool := (b: Balance, after: int) => after < 0
  const BELOW_RESERVED: (Balance, int) -> bool := (b: Balance, after: int) => 0 <= after < b.reserved
  const LOW: (Balance, int) -> bool := (b: Balance, after: int) => AdjustCrossedBelow(b, b.onHand, after)
  const OUT: (Balance, int) -> bool := (b: Balance, after: int) => CrossedToZero(b.onHand, after)

  /** Why the balances refuse the adjustment as a whole, if they do. */
  function BalanceProblem(s: Stock, kind: AdjustmentKind, lines: seq<AdjustmentLine>): Option<AdjustError>
    requires forall l | l in lines :: l.variant in s.balances
  {
    var short := PickedLines(s, kind, lines, BELOW_ZERO);
    var held := PickedLines(s, kind, lines, BELOW_RESERVED);
    if short != [] then Some(InsufficientStock(short))
    else if (kind.KLoss? || kind.KAdjustment?) && held != [] then Some(ReservedStock(held))
    else None
  }

  function AdjustOne(s: Stock, kind: AdjustmentKind, line: AdjustmentLine): Stock
    requires line.variant in s.balances
  {
    var b := s.balances[line.variant];
    var after := LevelAfter(kind, b.onHand, line.qty);
    s.(balances := s.balances[line.variant := b.(onHand := after)],
       movements := s.movements + [Movement(line.variant, MovementFor(kind), after - b.onHand, after)])
  }

  function AdjustAll(s: Stock, kind: AdjustmentKind, lines: seq<AdjustmentLine>): (r: Stock)
    requires forall l | l in lines :: l.variant in s.balances
    ensures r.balances.Keys == s.balances.Keys
    ensures r.reservations == s.reservations && r.events == s.events
    ensures forall v | v in s.balances && (forall l | l in lines :: l.variant != v) :: r.balances[v] == s.balances[v]
  {
    if lines == [] then s
    else
      var last := |lines| - 1;
      AdjustOne(AdjustAll(s, kind, lines[..last]), kind, lines[last])
  }

  function AdjustWritten(locked: Stock, kind: AdjustmentKind, lines: seq<AdjustmentLine>, oversold: seq<nat>): Stock
    requires forall l | l in lines :: l.variant in locked.balances
  {
    var done := AdjustAll(locked, kind, lines);
    done.(events := done.events
                  + OversoldEvents(oversold)
                  + LowEvents(PickedLines(locked, kind, lines, LOW))
                  + SoldOutEvents(PickedLines(locked, kind, lines, OUT)))
  }

  function AdjustStep(s: Stock, kind: AdjustmentKind, lines: seq<AdjustmentLine>): Stock {
    var locked := WithBalances(s, set l | l in lines :: l.variant);
    if BalanceProblem(locked, kind, lines).Some? then s
    else AdjustWritten(locked, kind, lines, PickedLines(locked, kind, lines, BELOW_RESERVED))
  }

  function SetMinLevelStep(s: Stock, v: nat, level: Option<int>): Stock {
    var locked := WithBalances(s, {v});
    locked.(balances := locked.balances[v := locked.balances[v].(minLevel := level)])
  }
}
