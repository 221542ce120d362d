/** The amounts of a checkout: promotion discount, delivery fee, order total and payment amount. */
module CheckoutPricing {
  import opened Base

  datatype DiscountKind = FreeDelivery | FixedAmount | Percentage

  datatype Promotion = Promotion(kind: DiscountKind, value: real, maximum: Option<real>)

  /** What the amounts depend on. The address of the context is null for a pickup. */
  datatype Quote = Quote(subtotal: real, promotion: Option<Promotion>, hasAddress: bool, pickup: bool)

  const DELIVERY_FEE := 1500.0

  function MinAmount(a: real, b: real): real {
    if a <= b then a else b
  }

  function PromotionDiscount(p: Promotion, subtotal: real): real {
    match p.kind
    case FreeDelivery => 0.0
    case _ =>
      var uncapped := if p.kind.FixedAmount? then p.value else subtotal * p.value / 100.0;
      var capped := if p.maximum.None? then uncapped else MinAmount(uncapped, p.maximum.value);
      MinAmount(capped, subtotal)
  }

  function Discount(q: Quote): real {
    if q.promotion.None? then 0.0 else PromotionDiscount(q.promotion.value, q.subtotal)
  }

  predicate FeeWaived(q: Quote) {
    q.promotion.Some? && q.promotion.value.kind.FreeDelivery?
  }

  /** The breakdown's fee goes by the context's address... */
  function BreakdownFee(q: Quote): real {
    if !q.hasAddress || FeeWaived(q) then 0.0 else DELIVERY_FEE
  }

  function BreakdownTotal(q: Quote): real {
    q.subtotal - Discount(q) + BreakdownFee(q)
  }

  /** ...the order's by the requested delivery type. */
  function OrderFee(q: Quote): real {
    if q.pickup then 0.0 else BreakdownFee(q)
  }

  function OrderTotal(q: Quote): real {
    if q.pickup then q.subtotal - Discount(q) else BreakdownTotal(q)
  }

  function PaymentAmount(q: Quote): real {
    BreakdownTotal(q)
  }

  /** The context service resolves an address exactly when the order is to be delivered. */
  predicate FromContext(q: Quote) {
    q.hasAddress <==> !q.pickup
  }

  predicate SoundPromotion(p: Promotion) {
    p.value >= 0.0 && (p.maximum.Some? ==> p.maximum.value >= 0.0)
  }

  lemma DiscountIsBounded(q: Quote)
    requires q.subtotal >= 0.0 && (q.promotion.Some? ==> SoundPromotion(q.promotion.value))
    ensures 0.0 <= Discount(q) <= q.subtotal
    ensures q.promotion.Some? && q.promotion.value.maximum.Some? ==> Discount(q) <= q.promotion.value.maximum.value
    ensures FeeWaived(q) ==> Discount(q) == 0.0 && OrderFee(q) == 0.0
  {
    if q.promotion.Some? {
      assert q.subtotal * q.promotion.value.value >= 0.0;
    }
  }

  /** `d` is the least of an amount, the promotion's maximum if it has one, and the subtotal. */
  predicate IsLeast(d: real, amount: real, maximum: Option<real>, subtotal: real) {
    && d <= amount && d <= subtotal && (maximum.Some? ==> d <= maximum.value)
    && (d == amount || d == subtotal || (maximum.Some? && d == maximum.value))
  }

  /** What each kind of promotion takes off: nothing, its value, or that many hundredths of the subtotal, capped. */
  lemma DiscountByKind(q: Quote, share: real)
    requires q.promotion.Some? && share * 100.0 == q.subtotal * q.promotion.value.value
    ensures var p, d := q.promotion.value, Discount(q);
      && (p.kind == FreeDelivery ==> d == 0.0)
      && (p.kind == FixedAmount ==> IsLeast(d, p.value, p.maximum, q.subtotal))
      && (p.kind == Percentage ==> IsLeast(d, share, p.maximum, q.subtotal))
  {
    assert share == q.subtotal * q.promotion.value.value / 100.0;
  }

  /** The fee is 1500 for a delivery whose promotion does not waive it, and nothing otherwise. */
  lemma FeeByDelivery(q: Quote)
    requires FromContext(q)
    ensures var waived := q.promotion.Some? && q.promotion.value.kind == FreeDelivery;
      && OrderFee(q) == (if !q.pickup && !waived then 1500.0 else 0.0)
      && OrderTotal(q) == PaymentAmount(q) == q.subtotal - Discount(q) + OrderFee(q)
    ensures q.promotion.None? ==> Discount(q) == 0.0
  {
  }

  /**
   * The recorded amounts always add up; the payment asks for the same total except for a pickup
   * priced with an address, which the context service never produces.
   */
  lemma AmountsAgreeExactly(q: Quote)
    ensures OrderTotal(q) == q.subtotal - Discount(q) + OrderFee(q)
    ensures PaymentAmount(q) == OrderTotal(q) <==> !(q.pickup && q.hasAddress && !FeeWaived(q))
    ensures FromContext(q) ==> PaymentAmount(q) == OrderTotal(q)
  {
  }
}
