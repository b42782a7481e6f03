/** The decisions a product card makes: whether to show a discount, the
    prices it shows, the badge text and the trending marker. */
module ProductCard {
  import opened Wrappers
  import opened Domain
  import Pricing
  import Invoice
  import TrendingStore

  /** `hasDiscount`: a discount is present and its value is positive. */
  predicate HasDiscount(p: Product) {
    p.discount.Some? && p.discount.value.value > 0.0
  }

  /** The price the card shows as the selling price, worked out from the
      product's base price (never a variation's). */
  function ShownPrice(p: Product): (r: real)
    ensures r == Pricing.DiscountedPrice(p.price, p.discount)
    ensures !HasDiscount(p) ==> r == p.price
    ensures HasDiscount(p) ==> r == p.price - Pricing.DiscountAmount(p.price, p.discount)
  {
    Pricing.DiscountIdentity(p.price, p.discount);
    if HasDiscount(p) then Pricing.DiscountedPrice(p.price, p.discount) else p.price
  }

  /** The struck-through original price, shown only with a discount. */
  function StruckPrice(p: Product): (r: Option<real>)
    ensures r.Some? <==> HasDiscount(p)
    ensures r.Some? ==> r.value == p.price
  {
    if HasDiscount(p) then Some(p.price) else None
  }

  /** The badge: "v%" for a percentage, "₹v" for a flat amount (the card
      adds "OFF" beneath); none without a positive discount. `show` is the
      number-to-text conversion. */
  function Badge(p: Product, show: real -> string): (r: Option<string>)
    ensures r.Some? <==> HasDiscount(p)
    ensures r.Some? && p.discount.value.kind == Percentage ==> r.value == show(p.discount.value.value) + "%"
    ensures r.Some? && p.discount.value.kind == Flat ==> r.value == Invoice.Rupee + show(p.discount.value.value)
  {
    if !HasDiscount(p) then None
    else if p.discount.value.kind == Percentage then Some(show(p.discount.value.value) + "%")
    else Some(Invoice.Rupee + show(p.discount.value.value))
  }

  /** Wherever the card shows a badge, the invoice's label for the same
      discount is that badge followed by " OFF". */
  lemma BadgeMatchesInvoiceLabel(p: Product, show: real -> string)
    requires HasDiscount(p)
    ensures Invoice.DiscountLabel(p.discount, show) == Some(Badge(p, show).value + " OFF")
  {
    var v := show(p.discount.value.value);
    assert v + "% OFF" == (v + "%") + " OFF";
    assert Invoice.Rupee + v + " OFF" == (Invoice.Rupee + v) + " OFF";
  }

  /** `isProductTrending`: the remote list decides when it came back (even
      empty) without an error; otherwise the local trending list does. */
  function IsProductTrending(id: string, remote: Option<seq<string>>, remoteFailed: bool, local: seq<string>): (r: bool)
    ensures remote.Some? && !remoteFailed ==> (r <==> id in remote.value)
    ensures remote.None? || remoteFailed ==> (r <==> id in local)
  {
    if remote.Some? && !remoteFailed then id in remote.value else TrendingStore.IsTrending(local, id)
  }

  /** An empty remote answer hides the marker even on a product the local
      list holds. */
  lemma EmptyRemoteOverridesLocal(id: string, local: seq<string>)
    ensures !IsProductTrending(id, Some([]), false, local)
  {
  }
}
