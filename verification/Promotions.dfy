/** A promotion that ends when its stock runs out: the product row, and the decision of the consumer of
    a sold-out event. How the consumers interleave with sales is in PromotionRuns. */
module Promotions {
  import opened Common
  import opened Stock

  datatype StockPolicy = Tracked | Untracked
  datatype VariantStatus = VariantActive | VariantPaused | VariantInactive

  datatype Variant = Variant(
    price: Option<int>,
    archived: bool,
    status: VariantStatus,
    policy: Option<StockPolicy>)

  datatype Product = Product(
    endsOnSellout: bool,
    archived: bool,
    basePrice: int,
    promoPrice: Option<int>,
    startsAt: Option<int>,
    endsAt: Option<int>,
    policy: StockPolicy)

  /** The variants whose stock decides: they inherit the price, count stock and can still sell. */
  function PromoVariants(p: Product, variants: map<nat, Variant>): set<nat> {
    set v | v in variants
      && variants[v].price.None?
      && !variants[v].archived
      && !variants[v].status.VariantInactive?
      && (if variants[v].policy.Some? then variants[v].policy.value else p.policy).Tracked?
  }

  predicate PromoIsActive(p: Product, now: int) {
    && p.promoPrice.Some? && 0 < p.promoPrice.value < p.basePrice
    && (p.startsAt.Some? ==> p.startsAt.value <= now)
    && (p.endsAt.Some? ==> now < p.endsAt.value)
  }

  /** No balance row means stock never came in: that is zero. */
  predicate NothingOnShelf(balances: map<nat, Balance>, v: nat) {
    v in balances ==> balances[v].onHand <= 0
  }

  predicate AllSoldOut(balances: map<nat, Balance>, counted: set<nat>) {
    counted != {} && forall v | v in counted :: NothingOnShelf(balances, v)
  }

  /** Whether the consumer of a sold-out event of `v` stamps the product. */
  predicate Ends(p: Product, stamped: bool, variants: map<nat, Variant>, balances: map<nat, Balance>, v: nat, now: int) {
    && v in variants && variants[v].price.None?
    && p.endsOnSellout && !stamped && !p.archived
    && PromoIsActive(p, now)
    && AllSoldOut(balances, PromoVariants(p, variants))
  }

  /** An edit that makes it another promotion, or the same under another rule. */
  predicate ChangesPromotion(p: Product, q: Product) {
    || p.promoPrice != q.promoPrice || p.startsAt != q.startsAt || p.endsAt != q.endsAt
    || p.endsOnSellout != q.endsOnSellout
  }

  /** The price is a promotion's at this moment: below the base price, above nothing, within its dates. */
  predicate Runs(p: Product, now: int) {
    && p.promoPrice.Some? && p.promoPrice.value < p.basePrice && p.promoPrice.value > 0
    && !(p.startsAt.Some? && now < p.startsAt.value) && !(p.endsAt.Some? && p.endsAt.value <= now)
  }

  /** The variant is sold at the promotion's price out of its own stock, now or when its pause ends. */
  predicate Counts(p: Product, variants: map<nat, Variant>, u: nat) {
    && u in variants && variants[u].price.None? && !variants[u].archived
    && (variants[u].status.VariantActive? || variants[u].status.VariantPaused?)
    && (variants[u].policy == Some(Tracked) || (variants[u].policy.None? && p.policy.Tracked?))
  }

  /** Price, dates and the sell-out rule are all as they were. */
  predicate SamePromotion(p: Product, q: Product) {
    (q.promoPrice, q.startsAt, q.endsAt, q.endsOnSellout) == (p.promoPrice, p.startsAt, p.endsAt, p.endsOnSellout)
  }

  /** The product row the consumer locks and stamps. */
  class ProductRow {
    var product: Product
    var soldOutAt: Option<int>

    constructor (p: Product)
      ensures product == p && soldOutAt.None?
    {
      product, soldOutAt := p, None;
    }

    method EndPromotionOnSellout(v: nat, variants: map<nat, Variant>, balances: map<nat, Balance>, now: int)
      returns (announced: bool)
      modifies this`soldOutAt
      ensures announced <==> Ends(product, old(soldOutAt).Some?, variants, balances, v, now)
      ensures announced <==>
        && v in variants && variants[v].price.None? && product.endsOnSellout && old(soldOutAt).None? && !product.archived
        && Runs(product, now)
        && (exists u :: Counts(product, variants, u))
        && (forall u | Counts(product, variants, u) && u in balances :: balances[u].onHand <= 0)
      ensures soldOutAt == if announced then Some(now) else old(soldOutAt)
    {
      announced := false;
      if v !in variants || variants[v].price.Some? {
        return;
      }
      if !product.endsOnSellout || soldOutAt.Some? || product.archived {
        return;
      }
      if !PromoIsActive(product, now) {
        return;
      }
      var counted := PromoVariants(product, variants);
      assert forall u :: u in counted <==> Counts(product, variants, u);
      if counted == {} || exists u | u in counted :: u in balances && balances[u].onHand > 0 {
        return;
      }
      soldOutAt := Some(now);
      announced := true;
    }

    /** Saving a product whose promotion changed arms the promotion again. */
    method Update(p: Product)
      modifies this
      ensures product == p
      ensures soldOutAt == if ChangesPromotion(old(product), p) then None else old(soldOutAt)
      ensures SamePromotion(old(product), p) ==> soldOutAt == old(soldOutAt)
      ensures !SamePromotion(old(product), p) ==> soldOutAt.None?
    {
      if ChangesPromotion(product, p) && soldOutAt.Some? {
        soldOutAt := None;
      }
      product := p;
    }
  }
}
