/** The entities of the catalogue-and-ordering app: users, locations,
    discounts, products with their size/variety variations, cart items and
    orders. Identifiers are strings; money is an exact `real` (the app uses
    JavaScript numbers); quantities are integers. */
module Domain {
  import opened Wrappers

  /** The two fulfilment sites. */
  datatype Location = Udaipur | Mungana

  datatype Role = Admin | Customer

  datatype User = User(
    id: string,
    email: string,
    name: string,
    role: Role,
    location: Option<Location>,
    phone: Option<string>,
    address: Option<string>)

  datatype DiscountKind = Percentage | Flat

  /** A product-level discount: a percentage (0-100 by convention, not
      enforced) or a flat amount of money. */
  datatype Discount = Discount(kind: DiscountKind, value: real)

  /** One purchasable size/variety combination of a product. */
  datatype Variation = Variation(
    id: string,
    size: string,
    variety: string,
    price: real,
    description: Option<string>,
    imageUrl: Option<string>,
    availableLocations: seq<Location>)

  datatype Product = Product(
    id: string,
    name: string,
    description: string,
    price: real,
    imageUrl: string,
    company: string,
    companyImageUrl: Option<string>,
    category: string,
    variations: seq<Variation>,
    locations: seq<Location>,
    discount: Option<Discount>)

  /** A cart line: the product as it was when added (a copy, not a
      snapshot), the chosen variation id and a quantity the store never
      clamps. */
  datatype CartItem = CartItem(productId: string, product: Product, variationId: string, quantity: int)

  datatype OrderStatus = Pending | Completed | Cancelled

  datatype Order = Order(
    id: string,
    userId: string,
    userName: Option<string>,
    userEmail: Option<string>,
    userPhone: Option<string>,
    items: seq<CartItem>,
    totalAmount: real,
    location: Location,
    date: string,
    status: OrderStatus,
    message: Option<string>)

  /** `variations.findIndex(v => v.id === id)`, with -1 as `None`. */
  function VariationIndex(vs: seq<Variation>, id: string): (r: Option<nat>)
    ensures r.Some? ==> r.value < |vs| && vs[r.value].id == id
    ensures r.Some? ==> forall j :: 0 <= j < r.value ==> vs[j].id != id
    ensures r.None? <==> forall j :: 0 <= j < |vs| ==> vs[j].id != id
  {
    if |vs| == 0 then None
    else if vs[0].id == id then Some(0)
    else
      match VariationIndex(vs[1..], id)
      case None => None
      case Some(k) => Some(k + 1)
  }

  /** `product.variations.find(v => v.id === id)`: the first variation with
      that id, if any. */
  function FindVariation(p: Product, id: string): (r: Option<Variation>)
    ensures r.Some? ==> r.value in p.variations && r.value.id == id
    ensures r.Some? ==> exists k :: 0 <= k < |p.variations| && p.variations[k] == r.value
                                   && forall j :: 0 <= j < k ==> p.variations[j].id != id
    ensures r.None? <==> forall j :: 0 <= j < |p.variations| ==> p.variations[j].id != id
  {
    match VariationIndex(p.variations, id)
    case None => None
    case Some(k) => Some(p.variations[k])
  }
}
