/** The client-side cart: an ordered list of lines keyed by the pair
    (product id, variation id). Variation ids repeat across products, so the
    key is the pair, never the variation id alone. */
module Cart {
  import opened Wrappers
  import opened Domain
  import opened Pricing
  import Seqs

  predicate HasKey(item: CartItem, productId: string, variationId: string) {
    item.productId == productId && item.variationId == variationId
  }

  /** No two lines share a key. */
  predicate KeysDistinct(items: seq<CartItem>) {
    forall i, j :: 0 <= i < j < |items| ==> !HasKey(items[j], items[i].productId, items[i].variationId)
  }

  /** `items.findIndex(...)` on the key: the first line with that key. */
  function KeyIndex(items: seq<CartItem>, productId: string, variationId: string): (r: Option<nat>)
    ensures r.Some? ==> r.value < |items| && HasKey(items[r.value], productId, variationId)
    ensures r.Some? ==> forall j :: 0 <= j < r.value ==> !HasKey(items[j], productId, variationId)
    ensures r.None? <==> forall j :: 0 <= j < |items| ==> !HasKey(items[j], productId, variationId)
  {
    if |items| == 0 then None
    else if HasKey(items[0], productId, variationId) then Some(0)
    else
      match KeyIndex(items[1..], productId, variationId)
      case None => None
      case Some(k) => Some(k + 1)
  }

  /** `addToCart`: an existing line with the key gets `quantity` more and
      keeps the product it was first added with; otherwise one new line is
      appended at the end. */
  function AddToCart(items: seq<CartItem>, product: Product, variationId: string, quantity: int): (r: seq<CartItem>)
    ensures KeyIndex(items, product.id, variationId).Some? ==>
      var k := KeyIndex(items, product.id, variationId).value;
      && |r| == |items|
      && r[k] == items[k].(quantity := items[k].quantity + quantity)
      && r[k].product == items[k].product
      && forall j :: 0 <= j < |items| && j != k ==> r[j] == items[j]
    ensures KeyIndex(items, product.id, variationId).None? ==>
      && |r| == |items| + 1
      && r[..|items|] == items
      && r[|items|] == CartItem(product.id, product, variationId, quantity)
  {
    match KeyIndex(items, product.id, variationId)
    case Some(k) => items[k := items[k].(quantity := items[k].quantity + quantity)]
    case None => items + [CartItem(product.id, product, variationId, quantity)]
  }

  /** `removeFromCart`: drops every line with the key, keeps the rest (in
      order, see `RemoveFromCartInOrder`); a key that is not in the cart
      changes nothing. */
  function RemoveFromCart(items: seq<CartItem>, productId: string, variationId: string): (r: seq<CartItem>)
    ensures forall i :: 0 <= i < |r| ==> !HasKey(r[i], productId, variationId) && r[i] in items
    ensures forall i :: 0 <= i < |items| && !HasKey(items[i], productId, variationId) ==> items[i] in r
    ensures (forall i :: 0 <= i < |items| ==> !HasKey(items[i], productId, variationId)) ==> r == items
  {
    Seqs.Filter(items, (it: CartItem) => !HasKey(it, productId, variationId))
  }

  /** Removal works line by line and keeps order: removing from a
      concatenation removes from each part, and a single line survives
      exactly when it does not carry the key. */
  lemma RemoveFromCartInOrder(a: seq<CartItem>, b: seq<CartItem>, x: CartItem, productId: string, variationId: string)
    ensures RemoveFromCart(a + b, productId, variationId)
            == RemoveFromCart(a, productId, variationId) + RemoveFromCart(b, productId, variationId)
    ensures RemoveFromCart([x], productId, variationId) == if HasKey(x, productId, variationId) then [] else [x]
  {
    Seqs.FilterAppend(a, b, (it: CartItem) => !HasKey(it, productId, variationId));
  }

  /** `updateQuantity`: every line with the key gets exactly `quantity` (no
      clamping, 0 and negatives included); other lines and the order stay. */
  function UpdateQuantity(items: seq<CartItem>, productId: string, variationId: string, quantity: int): (r: seq<CartItem>)
    ensures |r| == |items|
    ensures forall i :: 0 <= i < |items| && HasKey(items[i], productId, variationId) ==> r[i] == items[i].(quantity := quantity)
    ensures forall i :: 0 <= i < |items| && !HasKey(items[i], productId, variationId) ==> r[i] == items[i]
  {
    if |items| == 0 then []
    else
      var head := if HasKey(items[0], productId, variationId) then items[0].(quantity := quantity) else items[0];
      [head] + UpdateQuantity(items[1..], productId, variationId, quantity)
  }

  /** The unit price a line is charged at: the product-level discount applied
      to its variation's price; `None` when the variation id is stale. */
  function UnitPrice(item: CartItem): (r: Option<real>)
    ensures r.Some? <==> FindVariation(item.product, item.variationId).Some?
  {
    match FindVariation(item.product, item.variationId)
    case None => None
    case Some(v) => Some(DiscountedPrice(v.price, item.product.discount))
  }

  /** What one line adds to the total: 0 for a stale variation or an empty
      line; otherwise linear in the quantity (`LineAmountSplit`). */
  function LineAmount(item: CartItem): (r: real)
    ensures item.quantity == 0 ==> r == 0.0
    ensures FindVariation(item.product, item.variationId).None? ==> r == 0.0
  {
    match UnitPrice(item)
    case None => 0.0
    case Some(u) => u * item.quantity as real
  }

  /** Every line's variation is gone. */
  predicate AllStale(items: seq<CartItem>) {
    forall i :: 0 <= i < |items| ==> UnitPrice(items[i]).None?
  }

  /** Every line adds a non-negative amount. */
  predicate AllLinesNonNegative(items: seq<CartItem>) {
    forall i :: 0 <= i < |items| ==> LineAmount(items[i]) >= 0.0
  }

  /** Every line holds at least `n` units. */
  predicate AllHeldAtLeast(items: seq<CartItem>, n: int) {
    forall i :: 0 <= i < |items| ==> items[i].quantity >= n
  }

  /** `getTotalAmount`: lines whose variation is gone add nothing, and a
      cart whose every line adds something non-negative totals at least 0. */
  function TotalAmount(items: seq<CartItem>): (r: real)
  {
    if |items| == 0 then 0.0 else LineAmount(items[0]) + TotalAmount(items[1..])
  }

  /** `getItemCount`: the sum of quantities, not the number of lines, so it
      is at least the number of lines when each holds at least one unit. */
  function ItemCount(items: seq<CartItem>): (r: int)
  {
    if |items| == 0 then 0 else items[0].quantity + ItemCount(items[1..])
  }

  /** A line is charged its variation's price less the saving. */
  lemma UnitPriceIsPriceLessSaving(item: CartItem)
    requires FindVariation(item.product, item.variationId).Some?
    ensures var v := FindVariation(item.product, item.variationId).value;
            UnitPrice(item) == Some(v.price - DiscountAmount(v.price, item.product.discount))
  {
    var v := FindVariation(item.product, item.variationId).value;
    DiscountIdentity(v.price, item.product.discount);
  }

  /** Lines whose variation is gone add nothing to `getTotalAmount`. */
  lemma {:induction false} StaleCartTotalsZero(items: seq<CartItem>)
    requires AllStale(items)
    ensures TotalAmount(items) == 0.0
  {
    if |items| > 0 {
      StaleCartTotalsZero(items[1..]);
    }
  }

  /** A cart whose every line adds something non-negative totals at least 0. */
  lemma {:induction false} TotalNonNegative(items: seq<CartItem>)
    requires AllLinesNonNegative(items)
    ensures TotalAmount(items) >= 0.0
  {
    if |items| > 0 {
      TotalNonNegative(items[1..]);
    }
  }

  /** `getItemCount` counts units, not lines: it is at least the number of
      lines when each holds a unit, and never negative when none is below 0. */
  lemma {:induction false} ItemCountCountsUnits(items: seq<CartItem>)
    ensures AllHeldAtLeast(items, 0) ==> ItemCount(items) >= 0
    ensures AllHeldAtLeast(items, 1) ==> ItemCount(items) >= |items|
  {
    if |items| > 0 {
      ItemCountCountsUnits(items[1..]);
      assert AllHeldAtLeast(items, 0) ==> AllHeldAtLeast(items[1..], 0);
      assert AllHeldAtLeast(items, 1) ==> AllHeldAtLeast(items[1..], 1);
    }
  }

  lemma {:induction false} SumsAppend(a: seq<CartItem>, b: seq<CartItem>)
    ensures TotalAmount(a + b) == TotalAmount(a) + TotalAmount(b)
    ensures ItemCount(a + b) == ItemCount(a) + ItemCount(b)
  {
    if |a| > 0 {
      assert (a + b)[1..] == a[1..] + b;
      SumsAppend(a[1..], b);
    } else {
      assert a + b == b;
    }
  }

  /** Replacing one line changes each sum by that line's difference. */
  lemma {:induction false} SumsUpdateAt(items: seq<CartItem>, k: nat, x: CartItem)
    requires k < |items|
    ensures TotalAmount(items[k := x]) == TotalAmount(items) - LineAmount(items[k]) + LineAmount(x)
    ensures ItemCount(items[k := x]) == ItemCount(items) - items[k].quantity + x.quantity
  {
    if k > 0 {
      assert items[k := x][1..] == items[1..][k - 1 := x];
      SumsUpdateAt(items[1..], k - 1, x);
    } else {
      assert items[k := x][1..] == items[1..];
    }
  }

  /** Every add raises the item count by exactly the quantity added. */
  lemma AddToCartItemCount(items: seq<CartItem>, product: Product, variationId: string, quantity: int)
    ensures ItemCount(AddToCart(items, product, variationId, quantity)) == ItemCount(items) + quantity
  {
    match KeyIndex(items, product.id, variationId)
    case Some(k) =>
      var merged := items[k].(quantity := items[k].quantity + quantity);
      assert AddToCart(items, product, variationId, quantity) == items[k := merged];
      SumsUpdateAt(items, k, merged);
    case None =>
      var line := CartItem(product.id, product, variationId, quantity);
      assert AddToCart(items, product, variationId, quantity) == items + [line];
      SumsAppend(items, [line]);
  }

  /** Every add raises the total by `quantity` units priced from the product
      held by the line: the stored product when merging, the given one when
      appending. */
  lemma AddToCartTotal(items: seq<CartItem>, product: Product, variationId: string, quantity: int)
    ensures var held := match KeyIndex(items, product.id, variationId)
                        case Some(k) => items[k].product
                        case None => product;
            TotalAmount(AddToCart(items, product, variationId, quantity))
            == TotalAmount(items) + LineAmount(CartItem(product.id, held, variationId, quantity))
  {
    match KeyIndex(items, product.id, variationId)
    case Some(k) =>
      AddToCartMerges(items, product, variationId, quantity, k);
      MergedLineTotal(items, k, product.id, variationId, quantity);
    case None => AddToCartAppendedTotal(items, product, variationId, quantity);
  }

  /** The merged line's added units, written as the line `addToCart` was asked for. */
  lemma MergedLineTotal(items: seq<CartItem>, k: nat, productId: string, variationId: string, quantity: int)
    requires k < |items| && HasKey(items[k], productId, variationId)
    ensures TotalAmount(items[k := items[k].(quantity := items[k].quantity + quantity)])
            == TotalAmount(items) + LineAmount(CartItem(productId, items[k].product, variationId, quantity))
  {
    MergeTotal(items, k, quantity);
    assert CartItem(productId, items[k].product, variationId, quantity) == items[k].(quantity := quantity);
  }

  /** Merging replaces line `k` by the same line with the quantity raised. */
  lemma AddToCartMerges(items: seq<CartItem>, product: Product, variationId: string, quantity: int, k: nat)
    requires k < |items| && KeyIndex(items, product.id, variationId) == Some(k)
    ensures AddToCart(items, product, variationId, quantity) == items[k := items[k].(quantity := items[k].quantity + quantity)]
  {
  }

  /** Appending adds the new line's amount. */
  lemma AddToCartAppendedTotal(items: seq<CartItem>, product: Product, variationId: string, quantity: int)
    requires KeyIndex(items, product.id, variationId).None?
    ensures TotalAmount(AddToCart(items, product, variationId, quantity))
            == TotalAmount(items) + LineAmount(CartItem(product.id, product, variationId, quantity))
  {
    var line := CartItem(product.id, product, variationId, quantity);
    assert AddToCart(items, product, variationId, quantity) == items + [line];
    SumsAppend(items, [line]);
  }

  /** Merging `quantity` more into line `k` adds that many of its units. */
  lemma MergeTotal(items: seq<CartItem>, k: nat, quantity: int)
    requires k < |items|
    ensures TotalAmount(items[k := items[k].(quantity := items[k].quantity + quantity)])
            == TotalAmount(items) + LineAmount(items[k].(quantity := quantity))
  {
    var line := items[k];
    var merged := line.(quantity := line.quantity + quantity);
    SumsUpdateAt(items, k, merged);
    LineAmountSplit(line, quantity);
    assert LineAmount(merged) - LineAmount(line) == LineAmount(line.(quantity := quantity));
  }

  /** A line's amount is linear in its quantity. */
  lemma LineAmountSplit(item: CartItem, extra: int)
    ensures LineAmount(item.(quantity := item.quantity + extra))
            == LineAmount(item) + LineAmount(item.(quantity := extra))
  {
    match UnitPrice(item) {
      case None =>
      case Some(u) =>
        assert u * (item.quantity + extra) as real == u * item.quantity as real + u * extra as real;
    }
  }

  /** Removing a key splits both sums between the lines kept and the lines
      dropped. */
  lemma {:induction false} RemoveFromCartSums(items: seq<CartItem>, productId: string, variationId: string)
    ensures var dropped := Seqs.Filter(items, (it: CartItem) => HasKey(it, productId, variationId));
            && TotalAmount(items) == TotalAmount(RemoveFromCart(items, productId, variationId)) + TotalAmount(dropped)
            && ItemCount(items) == ItemCount(RemoveFromCart(items, productId, variationId)) + ItemCount(dropped)
  {
    if |items| > 0 {
      RemoveFromCartSums(items[1..], productId, variationId);
    }
  }

  /** Setting the quantity of the only line with a key moves both sums by
      that line's difference. */
  lemma UpdateQuantitySums(items: seq<CartItem>, k: nat, quantity: int)
    requires KeysDistinct(items) && k < |items|
    ensures var r := UpdateQuantity(items, items[k].productId, items[k].variationId, quantity);
            && ItemCount(r) == ItemCount(items) - items[k].quantity + quantity
            && TotalAmount(r) == TotalAmount(items) - LineAmount(items[k]) + LineAmount(items[k].(quantity := quantity))
  {
    var r := UpdateQuantity(items, items[k].productId, items[k].variationId, quantity);
    assert r == items[k := items[k].(quantity := quantity)];
    SumsUpdateAt(items, k, items[k].(quantity := quantity));
  }

  /** The cart stays keyed by the pair: add, remove and update never create
      two lines with the same key. */
  lemma OperationsKeepKeysDistinct(items: seq<CartItem>, product: Product, productId: string, variationId: string, quantity: int)
    requires KeysDistinct(items)
    ensures KeysDistinct(AddToCart(items, product, variationId, quantity))
    ensures KeysDistinct(RemoveFromCart(items, productId, variationId))
    ensures KeysDistinct(UpdateQuantity(items, productId, variationId, quantity))
  {
    var r := RemoveFromCart(items, productId, variationId);
    RemoveKeepsKeysDistinct(items, (it: CartItem) => !HasKey(it, productId, variationId));
  }

  lemma {:induction false} RemoveKeepsKeysDistinct(items: seq<CartItem>, keep: CartItem -> bool)
    requires KeysDistinct(items)
    ensures KeysDistinct(Seqs.Filter(items, keep))
  {
    if |items| > 0 {
      RemoveKeepsKeysDistinct(items[1..], keep);
      var rest := Seqs.Filter(items[1..], keep);
      forall j | 0 <= j < |rest| ensures !HasKey(rest[j], items[0].productId, items[0].variationId) {
        assert rest[j] in items[1..];
      }
    }
  }
}
