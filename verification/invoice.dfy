/** The arithmetic of the invoice generated for an order: per-row original
    and discounted figures, the original total, the total savings, and the
    choice between the savings summary and the plain total. HTML layout and
    number formatting are not modelled. */
module Invoice {
  import opened Wrappers
  import opened Domain
  import opened Pricing
  import Cart

  /** Figures of one invoice row. */
  datatype RowFigures = RowFigures(originalPrice: real, discountedPrice: real, discountAmount: real, quantity: int)

  /** The row for one item; None when its variation does not resolve, which
      renders as an empty row. */
  function Row(item: CartItem): (r: Option<RowFigures>)
    ensures r.Some? <==> FindVariation(item.product, item.variationId).Some?
    ensures r.Some? ==> r.value.discountedPrice + r.value.discountAmount == r.value.originalPrice
    ensures r.Some? ==> r.value.quantity == item.quantity
    ensures r.Some? ==> Cart.UnitPrice(item) == Some(r.value.discountedPrice)
    ensures r.Some? ==> r.value.originalPrice == FindVariation(item.product, item.variationId).value.price
    ensures r.Some? ==> r.value.discountAmount == DiscountAmount(r.value.originalPrice, item.product.discount)
  {
    match FindVariation(item.product, item.variationId)
    case None => None
    case Some(v) =>
      var d := item.product.discount;
      DiscountIdentity(v.price, d);
      Some(RowFigures(v.price, DiscountedPrice(v.price, d), DiscountAmount(v.price, d), item.quantity))
  }

  /** What one row adds to the original total. */
  function RowOriginal(item: CartItem): real {
    match Row(item)
    case None => 0.0
    case Some(f) => f.originalPrice * f.quantity as real
  }

  /** What one row adds to the savings. */
  function RowSavings(item: CartItem): real {
    match Row(item)
    case None => 0.0
    case Some(f) => f.discountAmount * f.quantity as real
  }

  /** `originalTotal`: undiscounted price times quantity over resolved rows. */
  function OriginalTotal(items: seq<CartItem>): real
  {
    if |items| == 0 then 0.0 else RowOriginal(items[0]) + OriginalTotal(items[1..])
  }

  /** `totalSavings`: discount amount times quantity over resolved rows. */
  function TotalSavings(items: seq<CartItem>): real
  {
    if |items| == 0 then 0.0 else RowSavings(items[0]) + TotalSavings(items[1..])
  }

  lemma MulSub(a: real, b: real, q: real)
    ensures a * q - b * q == (a - b) * q
  {
  }

  /** One row's original figure minus its savings is its cart amount. */
  lemma RowSplit(item: CartItem)
    ensures RowOriginal(item) - RowSavings(item) == Cart.LineAmount(item)
  {
    match Row(item) {
      case None =>
      case Some(f) =>
        MulSub(f.originalPrice, f.discountAmount, f.quantity as real);
    }
  }

  /** Original total minus savings is exactly what the cart charges for the
      same items. */
  lemma {:induction false} OriginalMinusSavingsIsTotal(items: seq<CartItem>)
    ensures OriginalTotal(items) - TotalSavings(items) == Cart.TotalAmount(items)
  {
    if |items| > 0 {
      OriginalMinusSavingsIsTotal(items[1..]);
      RowSplit(items[0]);
    }
  }

  /** Without an effective discount anywhere the invoice saves nothing and
      its original total is the cart total. */
  lemma {:induction false} UndiscountedInvoice(items: seq<CartItem>)
    requires forall i :: 0 <= i < |items| ==> !Effective(items[i].product.discount)
    ensures TotalSavings(items) == 0.0
    ensures OriginalTotal(items) == Cart.TotalAmount(items)
  {
    if |items| > 0 {
      UndiscountedInvoice(items[1..]);
      RowSplit(items[0]);
    }
  }

  lemma MulNonNegative(a: real, q: real)
    requires a >= 0.0 && q >= 0.0
    ensures a * q >= 0.0
  {
  }

  /** Savings are never negative when every price is non-negative, every
      quantity positive and every percentage at most 100. */
  lemma {:induction false} SavingsNonNegative(items: seq<CartItem>)
    requires forall i :: 0 <= i < |items| ==> items[i].quantity >= 1
    requires forall i, j :: 0 <= i < |items| && 0 <= j < |items[i].product.variations| ==> items[i].product.variations[j].price >= 0.0
    requires forall i :: 0 <= i < |items| && items[i].product.discount.Some? && items[i].product.discount.value.kind == Percentage
               ==> items[i].product.discount.value.value <= 100.0
    ensures TotalSavings(items) >= 0.0
  {
    if |items| > 0 {
      SavingsNonNegative(items[1..]);
      RowSavingsNonNegative(items[0]);
    }
  }

  /** One row with a positive quantity, non-negative prices and a percentage
      of at most 100 saves a non-negative amount. */
  lemma RowSavingsNonNegative(it: CartItem)
    requires it.quantity >= 1
    requires forall j :: 0 <= j < |it.product.variations| ==> it.product.variations[j].price >= 0.0
    requires it.product.discount.Some? && it.product.discount.value.kind == Percentage ==> it.product.discount.value.value <= 100.0
    ensures RowSavings(it) >= 0.0
  {
    match FindVariation(it.product, it.variationId) {
      case None =>
      case Some(v) =>
        DiscountBounds(v.price, it.product.discount);
        MulNonNegative(DiscountAmount(v.price, it.product.discount), it.quantity as real);
    }
  }

  /** The closing block of the invoice: the savings summary (original total,
      savings, final total) or just the total. */
  datatype Summary = SavingsSummary(originalTotal: real, savings: real, finalTotal: real) | PlainTotal(finalTotal: real)

  /** The summary is shown iff the savings are positive; the final total is
      always the order's stored total, never recomputed. */
  function SummaryOf(order: Order): (s: Summary)
    ensures s.SavingsSummary? <==> TotalSavings(order.items) > 0.0
    ensures s.finalTotal == order.totalAmount
    ensures s.SavingsSummary? ==> s.originalTotal == OriginalTotal(order.items) && s.savings == TotalSavings(order.items)
  {
    var savings := TotalSavings(order.items);
    if savings > 0.0 then SavingsSummary(OriginalTotal(order.items), savings, order.totalAmount)
    else PlainTotal(order.totalAmount)
  }

  /** For an order just placed from a cart, the summary adds up: original
      total minus savings is the stored final total. */
  lemma PlacedOrderSummaryAddsUp(order: Order)
    requires order.totalAmount == Cart.TotalAmount(order.items)
    ensures SummaryOf(order).SavingsSummary? ==>
              SummaryOf(order).originalTotal - SummaryOf(order).savings == SummaryOf(order).finalTotal
  {
    OriginalMinusSavingsIsTotal(order.items);
  }

  const Rupee: string := "\U{20B9}"

  /** The discount label under a row: "<v>% OFF" or "₹<v> OFF", with `show`
      standing for JavaScript's number-to-text conversion. The label appears
      whenever a discount object is present, even one of value 0. */
  function DiscountLabel(discount: Option<Discount>, show: real -> string): (r: Option<string>)
    ensures r.Some? <==> discount.Some?
    ensures r.Some? && discount.value.kind == Percentage ==> r.value == show(discount.value.value) + "% OFF"
    ensures r.Some? && discount.value.kind == Flat ==> r.value == Rupee + show(discount.value.value) + " OFF"
  {
    match discount
    case None => None
    case Some(d) =>
      if d.kind == Percentage then Some(show(d.value) + "% OFF") else Some(Rupee + show(d.value) + " OFF")
  }
}
