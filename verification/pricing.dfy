/** The product-level discount arithmetic every price in the app is derived
    from: the discounted unit price and the amount saved. */
module Pricing {
  import opened Wrappers
  import opened Domain

  /** A discount takes effect only when present with a positive value. */
  predicate Effective(d: Option<Discount>) {
    d.Some? && d.value.value > 0.0
  }

  function Max(a: real, b: real): real { if a >= b then a else b }

  function Min(a: real, b: real): real { if a <= b then a else b }

  lemma MulBetween(p: real, f: real)
    requires p >= 0.0 && 0.0 <= f <= 1.0
    ensures 0.0 <= p * f <= p
  {
    assert p * 1.0 - p * f == p * (1.0 - f);
  }

  /** `price * (percent / 100)`. */
  function PercentOf(price: real, percent: real): real {
    price * (percent / 100.0)
  }

  lemma PercentOfBetween(price: real, percent: real)
    ensures price >= 0.0 && 0.0 <= percent <= 100.0 ==> 0.0 <= PercentOf(price, percent) <= price
  {
    if price >= 0.0 && 0.0 <= percent <= 100.0 {
      MulBetween(price, percent / 100.0);
    }
  }

  lemma MulPosNeg(p: real, f: real)
    requires p > 0.0 && f < 0.0
    ensures p * f < 0.0
  {
  }

  /** `calculateDiscountedPrice`: the unit price after the discount. No
      discount leaves the price alone; a percentage up to 100 stays between 0
      and the price, one above 100 is not clamped and goes negative; a flat
      amount never takes the price below 0. */
  function DiscountedPrice(price: real, d: Option<Discount>): (r: real)
    ensures !Effective(d) ==> r == price
    ensures Effective(d) && d.value.kind == Percentage ==> r == price * (1.0 - d.value.value / 100.0)
    ensures Effective(d) && d.value.kind == Percentage && price >= 0.0 && d.value.value <= 100.0 ==> 0.0 <= r <= price
    ensures Effective(d) && d.value.kind == Percentage && price > 0.0 && d.value.value > 100.0 ==> r < 0.0
    ensures Effective(d) && d.value.kind == Flat ==> r >= 0.0
    ensures Effective(d) && d.value.kind == Flat && d.value.value <= price ==> r == price - d.value.value
    ensures Effective(d) && d.value.kind == Flat && price <= d.value.value ==> r == 0.0
  {
    if d.None? || d.value.value <= 0.0 then price
    else if d.value.kind == Percentage then
      var f := 1.0 - d.value.value / 100.0;
      if price >= 0.0 && d.value.value <= 100.0 then MulBetween(price, f); price * f
      else if price > 0.0 && d.value.value > 100.0 then MulPosNeg(price, f); price * f
      else price * f
    else Max(0.0, price - d.value.value)
  }

  /** `getDiscountAmount`: how much the discount takes off one unit. No
      discount saves nothing; a percentage up to 100 saves between 0 and the
      price; a flat amount saves the smaller of the amount and the price. */
  function DiscountAmount(price: real, d: Option<Discount>): (r: real)
    ensures !Effective(d) ==> r == 0.0
    ensures Effective(d) && d.value.kind == Percentage ==> r == price * (d.value.value / 100.0)
    ensures Effective(d) && d.value.kind == Percentage && price >= 0.0 && d.value.value <= 100.0 ==> 0.0 <= r <= price
    ensures Effective(d) && d.value.kind == Flat ==> r <= price && r <= d.value.value
    ensures Effective(d) && d.value.kind == Flat ==> r == price || r == d.value.value
  {
    if d.None? || d.value.value <= 0.0 then 0.0
    else if d.value.kind == Percentage then
      PercentOfBetween(price, d.value.value);
      PercentOf(price, d.value.value)
    else Min(price, d.value.value)
  }

  /** The discounted price and the discount amount always add up to the
      original price, for every price and every discount. */
  lemma DiscountIdentity(price: real, d: Option<Discount>)
    ensures DiscountedPrice(price, d) + DiscountAmount(price, d) == price
  {
  }

  /** A discount a caller would call valid (any flat amount, or a
      percentage between 0 and 100) keeps both results between 0 and the
      non-negative original price. */
  lemma DiscountBounds(price: real, d: Option<Discount>)
    requires price >= 0.0
    requires d.Some? && d.value.kind == Percentage ==> d.value.value <= 100.0
    ensures 0.0 <= DiscountedPrice(price, d) <= price
    ensures 0.0 <= DiscountAmount(price, d) <= price
  {
  }
}
