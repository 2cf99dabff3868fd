/** Using coupons: the counter on a coupon against the redemptions in force, and the limits that hang
    on both. */
module Coupons {
  import opened Common
  import opened CouponRules

  datatype Redemption = Redemption(coupon: nat, customer: nat, discount: int, inForce: bool)

  /** Redemptions are kept by order: at most one per order, ever. */
  datatype Books = Books(coupons: map<nat, Coupon>, redemptions: map<nat, Redemption>)

  datatype Reply = Redeemed(discount: int) | Declined(problem: Problem) | AlreadyUsed

  // ---------------------------------------------------------------- counting

  function OneFor(c: nat): (nat, Redemption) -> int {
    (order: nat, r: Redemption) => if r.coupon == c && r.inForce then 1 else 0
  }

  function OneForCustomer(c: nat, customer: nat): (nat, Redemption) -> int {
    (order: nat, r: Redemption) => if r.coupon == c && r.customer == customer && r.inForce then 1 else 0
  }

  ghost function Uses(b: Books, c: nat): int {
    SumMap(b.redemptions, OneFor(c))
  }

  ghost function UsesBy(b: Books, c: nat, customer: nat): int {
    SumMap(b.redemptions, OneForCustomer(c, customer))
  }

  // ---------------------------------------------------------------- transactions

  function CouponOf(b: Books, c: nat): Option<Coupon> {
    if c in b.coupons then Some(b.coupons[c]) else None
  }

  function WithUse(b: Books, c: nat, order: nat, customer: nat, discount: int): Books
    requires c in b.coupons
  {
    b.(coupons := b.coupons[c := b.coupons[c].(redemptions := b.coupons[c].redemptions + 1)],
       redemptions := b.redemptions[order := Redemption(c, customer, discount, true)])
  }

  /** Placing an order with a coupon, under the coupon's lock: its worth is decided on the counts as
      they are, and one use is taken. */
  function PlaceReply(b: Books, c: nat, order: nat, subtotal: int, uses: int, now: int): Reply {
    match Evaluate(CouponOf(b, c), subtotal, uses, now)
    case Unusable(problem) => Declined(problem)
    case Worth(discount) => if order in b.redemptions then AlreadyUsed else Redeemed(discount)
  }

  function PlaceStep(b: Books, c: nat, order: nat, customer: nat, subtotal: int, uses: int, now: int): Books {
    match PlaceReply(b, c, order, subtotal, uses, now)
    case Redeemed(discount) => WithUse(b, c, order, customer, discount)
    case _ => b
  }

  predicate InForce(b: Books, order: nat) {
    order in b.redemptions && b.redemptions[order].inForce
  }

  function ReleaseStep(b: Books, order: nat): Books {
    if !InForce(b, order) then b
    else
      var r := b.redemptions[order];
      var b' := b.(redemptions := b.redemptions[order := r.(inForce := false)]);
      if r.coupon in b.coupons && b.coupons[r.coupon].redemptions > 0
      then b'.(coupons := b.coupons[r.coupon := b.coupons[r.coupon].(redemptions := b.coupons[r.coupon].redemptions - 1)])
      else b'
  }

  // ---------------------------------------------------------------- runs

  /** What a store may change on a coupon is everything but its counter. */
  datatype Step =
    | Create(id: nat, settings: Coupon)
    | Update(id: nat, settings: Coupon)
    | Place(coupon: nat, order: nat, customer: nat, subtotal: int, now: int)
    | Release(order: nat)

  ghost function Next(b: Books, step: Step): Books {
    match step
    case Create(id, settings) => if id in b.coupons then b else b.(coupons := b.coupons[id := settings.(redemptions := 0)])
    case Update(id, settings) =>
      if id !in b.coupons then b
      else b.(coupons := b.coupons[id := settings.(redemptions := b.coupons[id].redemptions)])
    case Place(c, order, customer, subtotal, now) =>
      PlaceStep(b, c, order, customer, subtotal, UsesBy(b, c, customer), now)
    case Release(order) => ReleaseStep(b, order)
  }

  ghost function Exec(b: Books, steps: seq<Step>): Books {
    if steps == [] then b else Next(Exec(b, steps[..|steps| - 1]), steps[|steps| - 1])
  }

  const START: Books := Books(map[], map[])

  // ---------------------------------------------------------------- the counter

  ghost predicate Counts(b: Books) {
    && (forall c | c in b.coupons :: b.coupons[c].redemptions == Uses(b, c))
    && (forall order | order in b.redemptions :: b.redemptions[order].coupon in b.coupons)
  }

  lemma NoRedemptionNoUse(b: Books, c: nat)
    requires forall order | order in b.redemptions :: b.redemptions[order].coupon != c
    ensures Uses(b, c) == 0
  {
    SumMapZero(b.redemptions, OneFor(c));
  }

  lemma PlaceMovesCounts(b: Books, c: nat, order: nat, customer: nat, discount: int, d: nat)
    requires c in b.coupons && order !in b.redemptions
    ensures Uses(WithUse(b, c, order, customer, discount), d) == Uses(b, d) + if d == c then 1 else 0
    ensures forall x :: UsesBy(WithUse(b, c, order, customer, discount), d, x)
                     == UsesBy(b, d, x) + if d == c && x == customer then 1 else 0
  {
    var r := Redemption(c, customer, discount, true);
    SumMapUpdate(b.redemptions, OneFor(d), order, r);
    forall x ensures UsesBy(WithUse(b, c, order, customer, discount), d, x)
                  == UsesBy(b, d, x) + if d == c && x == customer then 1 else 0 {
      SumMapUpdate(b.redemptions, OneForCustomer(d, x), order, r);
    }
  }

  lemma ReleaseMovesCounts(b: Books, order: nat, d: nat)
    requires InForce(b, order)
    ensures Uses(ReleaseStep(b, order), d) == Uses(b, d) - if d == b.redemptions[order].coupon then 1 else 0
    ensures forall x :: UsesBy(ReleaseStep(b, order), d, x) <= UsesBy(b, d, x)
  {
    var r := b.redemptions[order].(inForce := false);
    SumMapUpdate(b.redemptions, OneFor(d), order, r);
    forall x ensures UsesBy(ReleaseStep(b, order), d, x) <= UsesBy(b, d, x) {
      SumMapUpdate(b.redemptions, OneForCustomer(d, x), order, r);
    }
  }

  /** A redemption in force is counted. */
  lemma InForceIsCounted(b: Books, order: nat)
    requires InForce(b, order)
    ensures Uses(b, b.redemptions[order].coupon) >= 1
  {
    var one := OneFor(b.redemptions[order].coupon);
    SumMapTake(b.redemptions, one, order);
    SumMapNonNegative(b.redemptions - {order}, one);
  }

  lemma StepKeepsCounts(b: Books, step: Step)
    requires Counts(b)
    ensures Counts(Next(b, step))
  {
    match step
    case Create(id, _) =>
      if id !in b.coupons {
        NoRedemptionNoUse(b, id);
      }
    case Update(_, _) =>
    case Place(c, order, customer, subtotal, now) =>
      var reply := PlaceReply(b, c, order, subtotal, UsesBy(b, c, customer), now);
      if reply.Redeemed? {
        forall d | d in b.coupons ensures Next(b, step).coupons[d].redemptions == Uses(Next(b, step), d) {
          PlaceMovesCounts(b, c, order, customer, reply.discount, d);
        }
      }
    case Release(order) =>
      if InForce(b, order) {
        InForceIsCounted(b, order);
        forall d | d in b.coupons ensures Next(b, step).coupons[d].redemptions == Uses(Next(b, step), d) {
          ReleaseMovesCounts(b, order, d);
        }
      }
  }

  lemma {:induction false} EveryRunKeepsCounts(steps: seq<Step>)
    ensures Counts(Exec(START, steps))
  {
    if steps != [] {
      EveryRunKeepsCounts(steps[..|steps| - 1]);
      StepKeepsCounts(Exec(START, steps[..|steps| - 1]), steps[|steps| - 1]);
    }
  }

  /** In every reachable state a coupon's counter is the number of its redemptions in force; so when
      one of them is released the counter is above zero and always comes down by exactly one. */
  lemma TheCounterIsTheUses(steps: seq<Step>, c: nat, order: nat)
    requires c in Exec(START, steps).coupons
    ensures Exec(START, steps).coupons[c].redemptions == Uses(Exec(START, steps), c)
    ensures InForce(Exec(START, steps), order) && Exec(START, steps).redemptions[order].coupon == c ==>
      Exec(START, steps).coupons[c].redemptions > 0
      && ReleaseStep(Exec(START, steps), order).coupons[c].redemptions == Exec(START, steps).coupons[c].redemptions - 1
  {
    EveryRunKeepsCounts(steps);
    if InForce(Exec(START, steps), order) {
      InForceIsCounted(Exec(START, steps), order);
    }
  }

  // ---------------------------------------------------------------- the limits

  ghost predicate Within(b: Books, c: nat, total: Option<int>, each: Option<int>) {
    && c in b.coupons && b.coupons[c].maxRedemptions == total && b.coupons[c].perCustomerLimit == each
    && (total.Some? ==> Uses(b, c) <= total.value)
    && (each.Some? ==> forall x :: UsesBy(b, c, x) <= each.value)
  }

  ghost predicate LeavesLimits(step: Step, c: nat, total: Option<int>, each: Option<int>) {
    step.Update? && step.id == c ==> step.settings.maxRedemptions == total && step.settings.perCustomerLimit == each
  }

  lemma SettingsCountNothing(b: Books, b': Books, c: nat)
    requires b'.redemptions == b.redemptions
    ensures Uses(b', c) == Uses(b, c) && forall x :: UsesBy(b', c, x) == UsesBy(b, c, x)
  {
  }

  lemma StepKeepsWithin(b: Books, step: Step, c: nat, total: Option<int>, each: Option<int>)
    requires Counts(b) && Within(b, c, total, each) && LeavesLimits(step, c, total, each)
    ensures Within(Next(b, step), c, total, each)
  {
    match step
    case Create(_, _) => SettingsCountNothing(b, Next(b, step), c);
    case Update(_, _) => SettingsCountNothing(b, Next(b, step), c);
    case Place(d, order, customer, subtotal, now) =>
      var reply := PlaceReply(b, d, order, subtotal, UsesBy(b, d, customer), now);
      if reply.Redeemed? {
        PlaceMovesCounts(b, d, order, customer, reply.discount, c);
      }
    case Release(order) =>
      if InForce(b, order) {
        ReleaseMovesCounts(b, order, c);
      }
  }

  /** As long as its limits are left as they are, a coupon is never used more often than they allow,
      in all or by anyone. */
  lemma {:induction false} LimitsAreNeverExceeded(steps: seq<Step>, more: seq<Step>, c: nat, total: Option<int>, each: Option<int>)
    requires Within(Exec(START, steps), c, total, each)
    requires forall step | step in more :: LeavesLimits(step, c, total, each)
    ensures Within(Exec(START, steps + more), c, total, each)
  {
    if more == [] {
      assert steps + more == steps;
    } else {
      var last := |more| - 1;
      assert (steps + more)[..|steps + more| - 1] == steps + more[..last];
      assert more[last] in more;
      LimitsAreNeverExceeded(steps, more[..last], c, total, each);
      EveryRunKeepsCounts(steps + more[..last]);
      StepKeepsWithin(Exec(START, steps + more[..last]), more[last], c, total, each);
    }
  }

  /** A coupon starts out within any limits it may be given. */
  lemma ANewCouponIsWithin(steps: seq<Step>, id: nat, settings: Coupon)
    requires id !in Exec(START, steps).coupons
    requires settings.maxRedemptions.Some? ==> 0 <= settings.maxRedemptions.value
    requires settings.perCustomerLimit.Some? ==> 0 <= settings.perCustomerLimit.value
    ensures Within(Exec(START, steps + [Create(id, settings)]), id, settings.maxRedemptions, settings.perCustomerLimit)
  {
    var b := Exec(START, steps);
    EveryRunKeepsCounts(steps);
    assert (steps + [Create(id, settings)])[..|steps|] == steps;
    var b' := Exec(START, steps + [Create(id, settings)]);
    assert b' == Next(b, Create(id, settings));
    NoRedemptionNoUse(b', id);
    forall x ensures UsesBy(b', id, x) == 0 {
      SumMapZero(b'.redemptions, OneForCustomer(id, x));
    }
  }

  /** One redemption per order: what an order once redeemed is never replaced, only released. */
  lemma OneRedemptionPerOrder(b: Books, step: Step, order: nat)
    requires order in b.redemptions
    ensures order in Next(b, step).redemptions
    ensures var r, r' := b.redemptions[order], Next(b, step).redemptions[order];
      r' == r || (step == Release(order) && r.inForce && r' == r.(inForce := false))
  {
  }

  // ---------------------------------------------------------------- as it runs

  function OrdersOf(redemptions: map<nat, Redemption>, c: nat, customer: nat): set<nat> {
    set order | order in redemptions && OneForCustomer(c, customer)(order, redemptions[order]) == 1
  }

  /** Counting the rows of the query is the sum the limits speak of. */
  lemma {:induction false} UsesAreCounted(redemptions: map<nat, Redemption>, c: nat, customer: nat)
    ensures |OrdersOf(redemptions, c, customer)| == SumMap(redemptions, OneForCustomer(c, customer))
    decreases redemptions.Keys
  {
    var orders := OrdersOf(redemptions, c, customer);
    if redemptions == map[] {
      assert orders == {};
    } else {
      var order :| order in redemptions;
      var rest := redemptions - {order};
      UsesAreCounted(rest, c, customer);
      SumMapTake(redemptions, OneForCustomer(c, customer), order);
      assert OrdersOf(rest, c, customer) == orders - {order};
    }
  }

  /** The customer's redemptions of the coupon that are in force. */
  function InForceFor(b: Books, c: nat, customer: nat): set<nat> {
    set order | order in b.redemptions
      && b.redemptions[order].coupon == c && b.redemptions[order].customer == customer && b.redemptions[order].inForce
  }

  /** What the coupon's conditions say, with the counts as they are. */
  ghost predicate DecidedOn(b: Books, c: nat, customer: nat, subtotal: int, now: int, outcome: Outcome) {
    Decides(if c in b.coupons then Some(b.coupons[c]) else None, subtotal, |InForceFor(b, c, customer)|, now, outcome)
  }

  /** A use is taken: one more on the counter, and one redemption in force with that discount. */
  predicate UsedAs(b: Books, b': Books, c: nat, order: nat, customer: nat, discount: int) {
    && c in b.coupons && order !in b.redemptions
    && b'.redemptions == b.redemptions[order := Redemption(c, customer, discount, true)]
    && b'.coupons == b.coupons[c := b.coupons[c].(redemptions := b.coupons[c].redemptions + 1)]
  }

  /** The redemption is not in force any more, and its place is given back if the counter has one. */
  predicate FreedAs(b: Books, b': Books, order: nat) {
    && order in b.redemptions && b.redemptions[order].inForce
    && var c := b.redemptions[order].coupon;
       && b'.redemptions == b.redemptions[order := Redemption(c, b.redemptions[order].customer, b.redemptions[order].discount, false)]
       && (c in b.coupons && 0 < b.coupons[c].redemptions ==>
             b'.coupons == b.coupons[c := b.coupons[c].(redemptions := b.coupons[c].redemptions - 1)])
       && (c in b.coupons && b.coupons[c].redemptions <= 0 ==> b'.coupons == b.coupons)
       && (c !in b.coupons ==> b'.coupons == b.coupons)
  }

  class CouponTables {
    var coupons: map<nat, Coupon>
    var redemptions: map<nat, Redemption>

    constructor ()
      ensures State() == START
    {
      coupons, redemptions := map[], map[];
    }

    function State(): Books
      reads this
    {
      Books(coupons, redemptions)
    }

    /** How many redemptions the customer has in force. */
    method CustomerUses(c: nat, customer: nat) returns (uses: nat)
      ensures uses == UsesBy(State(), c, customer) == |InForceFor(State(), c, customer)|
    {
      var used := set order | order in redemptions
        && redemptions[order].coupon == c && redemptions[order].customer == customer && redemptions[order].inForce;
      uses := |used|;
      UsesAreCounted(redemptions, c, customer);
      assert used == OrdersOf(redemptions, c, customer) == InForceFor(State(), c, customer);
    }

    method Check(c: nat, subtotal: int, customer: nat, now: int) returns (outcome: Outcome)
      ensures outcome == Evaluate(CouponOf(State(), c), subtotal, UsesBy(State(), c, customer), now)
      ensures DecidedOn(State(), c, customer, subtotal, now, outcome)
    {
      var uses := CustomerUses(c, customer);
      var coupon := if c in coupons then Some(coupons[c]) else None;
      outcome := Evaluate(coupon, subtotal, uses, now);
      CouponsAreDecidedExactly(coupon, subtotal, uses, now, outcome);
    }

    method Redeem(c: nat, order: nat, customer: nat, discount: int)
      requires c in coupons && order !in redemptions
      modifies this`coupons, this`redemptions
      ensures State() == WithUse(old(State()), c, order, customer, discount)
    {
      coupons := coupons[c := coupons[c].(redemptions := coupons[c].redemptions + 1)];
      redemptions := redemptions[order := Redemption(c, customer, discount, true)];
    }

    /** The part of placing an order that concerns its coupon, under the coupon's lock. */
    method PlaceOrder(c: nat, order: nat, customer: nat, subtotal: int, now: int) returns (reply: Reply)
      modifies this`coupons, this`redemptions
      ensures State() == Next(old(State()), Place(c, order, customer, subtotal, now))
      ensures match reply
        case Declined(problem) =>
          DecidedOn(old(State()), c, customer, subtotal, now, Unusable(problem)) && State() == old(State())
        case AlreadyUsed =>
          && order in old(redemptions) && State() == old(State())
          && exists discount :: DecidedOn(old(State()), c, customer, subtotal, now, Worth(discount))
        case Redeemed(discount) =>
          && DecidedOn(old(State()), c, customer, subtotal, now, Worth(discount))
          && UsedAs(old(State()), State(), c, order, customer, discount)
    {
      var outcome := Check(c, subtotal, customer, now);
      if outcome.Unusable? {
        return Declined(outcome.problem);
      }
      if order in redemptions {
        assert DecidedOn(State(), c, customer, subtotal, now, Worth(outcome.discount));
        return AlreadyUsed;
      }
      Redeem(c, order, customer, outcome.discount);
      reply := Redeemed(outcome.discount);
    }

    method ReleaseOrder(order: nat) returns (freed: bool)
      modifies this`coupons, this`redemptions
      ensures State() == Next(old(State()), Release(order))
      ensures freed <==> order in old(redemptions) && old(redemptions)[order].inForce
      ensures if freed then FreedAs(old(State()), State(), order) else State() == old(State())
    {
      if order !in redemptions || !redemptions[order].inForce {
        return false;
      }
      var r := redemptions[order];
      redemptions := redemptions[order := r.(inForce := false)];
      if r.coupon in coupons && coupons[r.coupon].redemptions > 0 {
        coupons := coupons[r.coupon := coupons[r.coupon].(redemptions := coupons[r.coupon].redemptions - 1)];
      }
      freed := true;
    }
  }
}
