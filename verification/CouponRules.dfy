/** What a coupon is worth, and why it may not be used. Amounts are in cents, percentages in hundredths
    of a percent. */
module CouponRules {
  import opened Common

  datatype Kind = Percent | Fixed
  datatype Status = Active | Paused | Archived

  datatype Coupon = Coupon(
    status: Status,
    kind: Kind,
    percentBps: Option<int>,
    amount: Option<int>,
    minSubtotal: int,
    maxDiscount: Option<int>,
    startsAt: Option<int>,
    endsAt: Option<int>,
    maxRedemptions: Option<int>,
    perCustomerLimit: Option<int>,
    redemptions: int)

  datatype Problem =
    | NotFound
    | NotActive
    | NotStarted
    | Expired
    | BelowMinimum(minSubtotal: int)
    | Exhausted
    | CustomerLimit(limit: int)

  datatype Outcome = Worth(discount: int) | Unusable(problem: Problem)

  /** Half up. */
  function PercentOf(subtotal: int, bps: int): int {
    (subtotal * bps + 5000) / 10000
  }

  function OrZero(a: Option<int>): int {
    if a.Some? then a.value else 0
  }

  function Discount(c: Coupon, subtotal: int): int {
    var plain :=
      match c.kind
      case Percent =>
        var p := PercentOf(subtotal, OrZero(c.percentBps));
        if c.maxDiscount.Some? then Min(p, c.maxDiscount.value) else p
      case Fixed => OrZero(c.amount);
    Max(0, Min(plain, subtotal))
  }

  function Evaluate(coupon: Option<Coupon>, subtotal: int, customerUses: int, now: int): Outcome {
    if coupon.None? then Unusable(NotFound)
    else
      var c := coupon.value;
      if !c.status.Active? then Unusable(NotActive)
      else if c.startsAt.Some? && now < c.startsAt.value then Unusable(NotStarted)
      else if c.endsAt.Some? && now >= c.endsAt.value then Unusable(Expired)
      else if subtotal < c.minSubtotal then Unusable(BelowMinimum(c.minSubtotal))
      else if c.maxRedemptions.Some? && c.redemptions >= c.maxRedemptions.value then Unusable(Exhausted)
      else if c.perCustomerLimit.Some? && customerUses >= c.perCustomerLimit.value
      then Unusable(CustomerLimit(c.perCustomerLimit.value))
      else
        var discount := Discount(c, subtotal);
        if discount == 0 then Unusable(NotActive) else Worth(discount)
  }

  // ---------------------------------------------------------------- when it may be used, and for how much

  predicate InTime(c: Coupon, now: int) {
    (c.startsAt.None? || c.startsAt.value <= now) && (c.endsAt.None? || now < c.endsAt.value)
  }

  predicate HasPlaces(c: Coupon) {
    c.maxRedemptions.None? || c.redemptions < c.maxRedemptions.value
  }

  predicate MayUse(c: Coupon, customerUses: int) {
    c.perCustomerLimit.None? || customerUses < c.perCustomerLimit.value
  }

  /** Every condition on the coupon is met. */
  predicate Meets(c: Coupon, subtotal: int, customerUses: int, now: int) {
    c.status.Active? && InTime(c, now) && c.minSubtotal <= subtotal && HasPlaces(c) && MayUse(c, customerUses)
  }

  /** `x` in ten-thousandths, rounded half up. */
  predicate Rounds(x: int, rounded: int) {
    -5000 < 10000 * rounded - x <= 5000
  }

  /** What the coupon grants: its amount, or its percentage to the nearest cent up to its cap. */
  predicate Grants(c: Coupon, subtotal: int, granted: int) {
    var exact := subtotal * (if c.percentBps.Some? then c.percentBps.value else 0);
    && (c.kind.Fixed? ==> granted == if c.amount.Some? then c.amount.value else 0)
    && (c.kind.Percent? && c.maxDiscount.None? ==> Rounds(exact, granted))
    && (c.kind.Percent? && c.maxDiscount.Some? ==>
          || (granted <= c.maxDiscount.value && Rounds(exact, granted))
          || (granted == c.maxDiscount.value && 10000 * granted <= exact - 5000))
  }

  /** What it takes off is what it grants, within nothing and the goods. */
  ghost predicate TakesOff(c: Coupon, subtotal: int, discount: int) {
    exists granted :: Grants(c, subtotal, granted)
      && (granted <= 0 || subtotal <= 0 ==> discount == 0)
      && (0 < granted <= subtotal ==> discount == granted)
      && (0 < subtotal <= granted ==> discount == subtotal)
  }

  /** The answer, from the coupon's fields. A refusal names the first condition that is not met; a coupon
      that would take nothing off counts as inactive. */
  ghost predicate Decides(coupon: Option<Coupon>, subtotal: int, customerUses: int, now: int, outcome: Outcome) {
    if coupon.None? then outcome == Unusable(NotFound)
    else
      var c := coupon.value;
      match outcome
      case Worth(discount) => Meets(c, subtotal, customerUses, now) && 0 < discount && TakesOff(c, subtotal, discount)
      case Unusable(NotFound) => false
      case Unusable(NotActive) => !c.status.Active? || (Meets(c, subtotal, customerUses, now) && TakesOff(c, subtotal, 0))
      case Unusable(NotStarted) => c.status.Active? && c.startsAt.Some? && now < c.startsAt.value
      case Unusable(Expired) =>
        c.status.Active? && c.endsAt.Some? && c.endsAt.value <= now && (c.startsAt.None? || c.startsAt.value <= now)
      case Unusable(BelowMinimum(least)) => c.status.Active? && InTime(c, now) && subtotal < least == c.minSubtotal
      case Unusable(Exhausted) => c.status.Active? && InTime(c, now) && c.minSubtotal <= subtotal && !HasPlaces(c)
      case Unusable(CustomerLimit(limit)) =>
        && c.status.Active? && InTime(c, now) && c.minSubtotal <= subtotal && HasPlaces(c)
        && c.perCustomerLimit == Some(limit) && limit <= customerUses
  }

  lemma TheDiscountIsTakenOff(c: Coupon, subtotal: int)
    ensures TakesOff(c, subtotal, Discount(c, subtotal))
  {
    var exact := subtotal * OrZero(c.percentBps);
    var granted := match c.kind
      case Percent =>
        var p := (exact + 5000) / 10000;
        if c.maxDiscount.Some? then Min(p, c.maxDiscount.value) else p
      case Fixed => OrZero(c.amount);
    assert Grants(c, subtotal, granted);
  }

  /** What a coupon grants, and so what it takes off, is one amount. */
  lemma OneDiscount(c: Coupon, subtotal: int, a: int, b: int)
    requires TakesOff(c, subtotal, a) && TakesOff(c, subtotal, b)
    ensures a == b
  {
    var x :| Grants(c, subtotal, x)
      && (x <= 0 || subtotal <= 0 ==> a == 0) && (0 < x <= subtotal ==> a == x) && (0 < subtotal <= x ==> a == subtotal);
    var y :| Grants(c, subtotal, y)
      && (y <= 0 || subtotal <= 0 ==> b == 0) && (0 < y <= subtotal ==> b == y) && (0 < subtotal <= y ==> b == subtotal);
    assert x == y;
  }

  /** A coupon is worth something exactly when it meets every condition and takes something off; otherwise
      it is refused for the first condition it does not meet. No other answer fits. */
  lemma CouponsAreDecidedExactly(coupon: Option<Coupon>, subtotal: int, customerUses: int, now: int, outcome: Outcome)
    ensures Decides(coupon, subtotal, customerUses, now, outcome) <==> outcome == Evaluate(coupon, subtotal, customerUses, now)
  {
    if coupon.Some? {
      TheDiscountIsTakenOff(coupon.value, subtotal);
      if outcome.Worth? && TakesOff(coupon.value, subtotal, outcome.discount) {
        OneDiscount(coupon.value, subtotal, outcome.discount, Discount(coupon.value, subtotal));
      }
      if TakesOff(coupon.value, subtotal, 0) {
        OneDiscount(coupon.value, subtotal, 0, Discount(coupon.value, subtotal));
      }
    }
  }

  // ---------------------------------------------------------------- what it does to the price

  /** A percentage is rounded to the nearest cent, half a cent up. */
  lemma PercentIsNearest(subtotal: int, bps: int)
    ensures -5000 <= 10000 * PercentOf(subtotal, bps) - subtotal * bps <= 5000
    ensures 10000 * PercentOf(subtotal, bps) - subtotal * bps != -5000
  {
  }

  /** A usable coupon takes something off, never more than the goods, and never more than its cap; an
      uncapped percentage within the goods is within half a cent of exact. */
  lemma DiscountIsWithinTheGoods(c: Coupon, subtotal: int, uses: int, now: int)
    requires Evaluate(Some(c), subtotal, uses, now).Worth?
    ensures 0 < Evaluate(Some(c), subtotal, uses, now).discount <= subtotal
    ensures c.kind.Percent? && c.maxDiscount.Some? ==> Evaluate(Some(c), subtotal, uses, now).discount <= c.maxDiscount.value
    ensures c.kind.Fixed? ==> Evaluate(Some(c), subtotal, uses, now).discount == Min(OrZero(c.amount), subtotal)
    ensures c.kind.Percent? && c.maxDiscount.None? && Evaluate(Some(c), subtotal, uses, now).discount < subtotal ==>
      -5000 < 10000 * Evaluate(Some(c), subtotal, uses, now).discount - subtotal * OrZero(c.percentBps) <= 5000
  {
    PercentIsNearest(subtotal, OrZero(c.percentBps));
  }

  lemma MoreIsMore(a: int, b: int, bps: int)
    requires a <= b && 0 <= bps
    ensures a * bps <= b * bps
  {
    assert (b - a) * bps >= 0;
    assert b * bps == a * bps + (b - a) * bps;
  }

  lemma PercentGrows(a: int, b: int, bps: int)
    requires a <= b && 0 <= bps
    ensures PercentOf(a, bps) <= PercentOf(b, bps)
  {
    MoreIsMore(a, b, bps);
  }

  /** Up to a whole, a percentage never grows faster than the amount. */
  lemma PercentGrowsSlowly(a: int, b: int, bps: int)
    requires a <= b && 0 <= bps <= 10000
    ensures PercentOf(b, bps) - PercentOf(a, bps) <= b - a
  {
    MoreIsMore(a, b, 10000 - bps);
    assert b * (10000 - bps) == 10000 * b - b * bps && a * (10000 - bps) == 10000 * a - a * bps;
  }

  /** From a whole on, it takes the amount up entirely. */
  lemma PercentCovers(a: int, bps: int)
    requires 0 <= a && 10000 <= bps
    ensures a <= PercentOf(a, bps)
  {
    assert a * bps == 10000 * a + a * (bps - 10000) && a * (bps - 10000) >= 0;
  }

  lemma NoPercentNoDiscount(a: int, bps: int)
    requires 0 < a && 0 < PercentOf(a, bps)
    ensures 0 < bps
  {
    assert bps <= 0 ==> a * bps <= 0;
  }

  lemma DiscountMoves(c: Coupon, a: int, b: int)
    requires a <= b && 0 < Discount(c, a) && 0 < Discount(c, b)
    ensures Discount(c, a) <= Discount(c, b) && a - Discount(c, a) <= b - Discount(c, b)
  {
    if c.kind.Percent? {
      var bps := OrZero(c.percentBps);
      NoPercentNoDiscount(a, bps);
      PercentGrows(a, b, bps);
      if bps <= 10000 {
        PercentGrowsSlowly(a, b, bps);
      } else {
        PercentCovers(a, bps);
        PercentCovers(b, bps);
      }
    }
  }

  /** Buying more never lowers the discount, and never lowers what is left to pay. */
  lemma BuyingMoreNeverCostsLess(c: Coupon, a: int, b: int, usesA: int, usesB: int, nowA: int, nowB: int)
    requires a <= b
    requires Evaluate(Some(c), a, usesA, nowA).Worth? && Evaluate(Some(c), b, usesB, nowB).Worth?
    ensures var x := Evaluate(Some(c), a, usesA, nowA).discount; var y := Evaluate(Some(c), b, usesB, nowB).discount;
      x <= y && a - x <= b - y
  {
    DiscountIsWithinTheGoods(c, a, usesA, nowA);
    DiscountMoves(c, a, b);
  }
}
