/** One line of the cart screen: its price display and the quantity
    controls, which hand requests to the cart store. */
module CartItemView {
  import opened Wrappers
  import opened Domain
  import Pricing
  import Cart
  import NumberParse

  /** What a control asks the cart store to do with the line's key. */
  datatype Request =
    | SetQuantity(productId: string, variationId: string, quantity: int)
    | RemoveLine(productId: string, variationId: string)

  /** The cart after the store carries out a request. */
  function Apply(items: seq<CartItem>, request: Request): seq<CartItem> {
    match request
    case SetQuantity(p, v, q) => Cart.UpdateQuantity(items, p, v, q)
    case RemoveLine(p, v) => Cart.RemoveFromCart(items, p, v)
  }

  // The screen passes `product.id` as the key; a cart line's `productId` is
  // that same id, so the model uses the line's key directly.

  /** `handleIncrement`: one more of the line. */
  function Increment(item: CartItem): (r: Request)
    ensures r.SetQuantity? && r.quantity == item.quantity + 1
    ensures r.productId == item.productId && r.variationId == item.variationId
  {
    SetQuantity(item.productId, item.variationId, item.quantity + 1)
  }

  /** `handleDecrement`: one less while more than one is held, otherwise
      the line goes. */
  function Decrement(item: CartItem): (r: Request)
    ensures r.SetQuantity? <==> item.quantity > 1
    ensures r.SetQuantity? ==> r.quantity == item.quantity - 1 && r.quantity >= 1
    ensures r.productId == item.productId && r.variationId == item.variationId
  {
    if item.quantity > 1 then SetQuantity(item.productId, item.variationId, item.quantity - 1)
    else RemoveLine(item.productId, item.variationId)
  }

  /** `parseInt(text) || 1` and then `Math.max(1, ...)`: NaN and zero
      become 1, and so does anything below 1. */
  function SubmittedQuantity(text: string): (q: int)
    ensures q >= 1
    ensures var p := NumberParse.ParseInt(text); p.Some? && p.value >= 1 ==> q == p.value
    ensures var p := NumberParse.ParseInt(text); p.None? || p.value < 1 ==> q == 1
  {
    match NumberParse.ParseInt(text)
    case None => 1
    case Some(n) => if n == 0 then 1 else if n < 1 then 1 else n
  }

  /** `handleQuantitySubmit`: sets the line to the submitted quantity. */
  function Submit(item: CartItem, text: string): (r: Request)
    ensures r == SetQuantity(item.productId, item.variationId, SubmittedQuantity(text))
    ensures r.quantity >= 1
  {
    SetQuantity(item.productId, item.variationId, SubmittedQuantity(text))
  }

  /** Submitting the box as it was opened (`quantity.toString()`) keeps a
      positive quantity and repairs any other to 1. */
  lemma SubmitUnedited(item: CartItem)
    ensures Submit(item, NumberParse.ShowInt(item.quantity)).quantity == if item.quantity >= 1 then item.quantity else 1
  {
    NumberParse.ParseShown(item.quantity);
  }

  /** Decrementing a line held once removes its key from the cart. */
  lemma DecrementLastRemoves(items: seq<CartItem>, item: CartItem)
    requires item.quantity <= 1
    ensures forall i :: 0 <= i < |Apply(items, Decrement(item))| ==>
              !Cart.HasKey(Apply(items, Decrement(item))[i], item.productId, item.variationId)
  {
  }

  /** Incrementing and then decrementing the same line restores the cart,
      as long as it was held at least once. */
  lemma IncrementThenDecrement(items: seq<CartItem>, item: CartItem)
    requires item.quantity >= 1
    requires forall i :: 0 <= i < |items| && Cart.HasKey(items[i], item.productId, item.variationId) ==>
               items[i].quantity == item.quantity
    ensures Apply(Apply(items, Increment(item)), Decrement(item.(quantity := item.quantity + 1))) == items
  {
    var p, v := item.productId, item.variationId;
    var once := Cart.UpdateQuantity(items, p, v, item.quantity + 1);
    var twice := Cart.UpdateQuantity(once, p, v, item.quantity);
    assert Apply(items, Increment(item)) == once;
    assert Apply(once, Decrement(item.(quantity := item.quantity + 1))) == twice;
    forall i | 0 <= i < |items| ensures twice[i] == items[i] {
      if Cart.HasKey(items[i], p, v) {
        assert once[i] == items[i].(quantity := item.quantity + 1);
        assert Cart.HasKey(once[i], p, v);
        assert twice[i] == once[i].(quantity := item.quantity);
      } else {
        assert once[i] == items[i];
        assert twice[i] == once[i];
      }
    }
    assert twice == items;
  }

  /** The undiscounted unit price shown: the line's variation price, or the
      product's base price when the variation is gone. */
  function OriginalUnit(item: CartItem): (r: real)
    ensures FindVariation(item.product, item.variationId).Some? ==>
              r == FindVariation(item.product, item.variationId).value.price
    ensures FindVariation(item.product, item.variationId).None? ==> r == item.product.price
  {
    match FindVariation(item.product, item.variationId)
    case Some(v) => v.price
    case None => item.product.price
  }

  /** `itemPrice`: the discount applied when one is present. */
  function ItemPrice(item: CartItem): (r: real)
    ensures r == Pricing.DiscountedPrice(OriginalUnit(item), item.product.discount)
    ensures r == OriginalUnit(item) - Pricing.DiscountAmount(OriginalUnit(item), item.product.discount)
  {
    Pricing.DiscountIdentity(OriginalUnit(item), item.product.discount);
    if item.product.discount.Some? then Pricing.DiscountedPrice(OriginalUnit(item), item.product.discount)
    else OriginalUnit(item)
  }

  /** `totalPrice`: what the line shows is its undiscounted amount less
      the saving on every unit. */
  function LineTotal(item: CartItem): (r: real)
    ensures r == OriginalUnit(item) * item.quantity as real
                 - Pricing.DiscountAmount(OriginalUnit(item), item.product.discount) * item.quantity as real
  {
    ItemPrice(item) * item.quantity as real
  }

  /** Where the variation still exists the line shows what the cart total
      counts for it; where it is gone the line shows a price the total
      leaves out. */
  lemma LineTotalMatchesCart(item: CartItem)
    ensures FindVariation(item.product, item.variationId).Some? ==> LineTotal(item) == Cart.LineAmount(item)
    ensures FindVariation(item.product, item.variationId).None? ==> Cart.LineAmount(item) == 0.0
  {
  }

  /** `hasDiscount`: a discount is present and lowers the price. */
  predicate ShowStrike(item: CartItem) {
    item.product.discount.Some? && ItemPrice(item) < OriginalUnit(item)
  }

  /** The struck-through price appears exactly when the discount saves
      something on this unit. */
  lemma StrikeIffSaving(item: CartItem)
    ensures ShowStrike(item) <==> Pricing.DiscountAmount(OriginalUnit(item), item.product.discount) > 0.0
  {
  }
}
