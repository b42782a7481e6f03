/** Orders in the cart store: placing an order (header first, then line
    items with frozen prices and product/variation snapshots, then clearing
    the cart), rebuilding orders from stored line items, and the local
    status update. Storage is an oracle: each step's answer is a parameter. */
module Orders {
  import opened Wrappers
  import opened Domain
  import opened Pricing
  import Cart

  /** The part of the cart store these operations read and write. */
  datatype CartState = CartState(items: seq<CartItem>, orders: seq<Order>)

  /** The product fields frozen into a line item at purchase time. */
  datatype ProductSnapshot = ProductSnapshot(
    id: string,
    name: string,
    description: string,
    imageUrl: string,
    company: string,
    category: string,
    discount: Option<Discount>)

  /** The variation fields frozen into a line item at purchase time. */
  datatype VariationSnapshot = VariationSnapshot(
    id: string,
    size: string,
    variety: string,
    price: real,
    description: Option<string>,
    imageUrl: Option<string>,
    availableLocations: seq<Location>)

  /** The order header row as inserted. */
  datatype HeaderRecord = HeaderRecord(
    userId: string,
    totalAmount: real,
    location: Location,
    status: OrderStatus,
    message: Option<string>)

  /** A line-item row as inserted. */
  datatype LineRecord = LineRecord(
    orderId: string,
    productId: string,
    variationId: string,
    quantity: int,
    price: real,
    originalPrice: real,
    discountApplied: Option<Discount>,
    productSnapshot: ProductSnapshot,
    variationSnapshot: VariationSnapshot)

  /** Name, e-mail and phone of a user row. */
  datatype Contact = Contact(name: string, email: string, phone: Option<string>)

  /** Storage's answers during one checkout: the generated id and timestamp
      of the header (None: the insert failed), whether the line-item insert
      succeeded, and the placing user's contact (None: lookup failed, which
      is only logged). */
  datatype PlaceOracle = PlaceOracle(header: Option<(string, string)>, itemsInsertOk: bool, user: Option<Contact>)

  datatype PlaceError = HeaderInsertFailed | VariationNotFound | ItemsInsertFailed

  /** The state after `placeOrder`, what it wrote to storage, and either the
      new order or the rethrown error. */
  datatype PlaceOutcome = PlaceOutcome(
    state: CartState,
    headerWritten: Option<HeaderRecord>,
    linesWritten: seq<LineRecord>,
    result: Result<Order, PlaceError>)

  /** JavaScript's `s || null` on an optional string: an empty string is absent. */
  function NonEmpty(s: Option<string>): (r: Option<string>)
    ensures r.Some? <==> s.Some? && s.value != ""
    ensures r.Some? ==> r == s
  {
    if s.Some? && s.value != "" then s else None
  }

  function SnapshotProduct(p: Product): ProductSnapshot {
    ProductSnapshot(p.id, p.name, p.description, p.imageUrl, p.company, p.category, p.discount)
  }

  function SnapshotVariation(v: Variation): VariationSnapshot {
    VariationSnapshot(v.id, v.size, v.variety, v.price, v.description, v.imageUrl, v.availableLocations)
  }

  /** The order-item row for one cart line, or None when the line's
      variation id does not resolve (`placeOrder` throws 'Variation not
      found'). The charged price is the discounted original price under
      exactly the discount recorded on the row. */
  function BuildLine(orderId: string, item: CartItem): (r: Option<LineRecord>)
    ensures r.Some? <==> FindVariation(item.product, item.variationId).Some?
    ensures r.Some? ==>
      var v := FindVariation(item.product, item.variationId).value;
      && r.value.orderId == orderId
      && r.value.productId == item.productId
      && r.value.variationId == item.variationId
      && r.value.quantity == item.quantity
      && r.value.originalPrice == v.price
      && r.value.discountApplied == item.product.discount
      && r.value.price == DiscountedPrice(r.value.originalPrice, r.value.discountApplied)
      && r.value.productSnapshot == SnapshotProduct(item.product)
      && r.value.variationSnapshot == SnapshotVariation(v)
  {
    match FindVariation(item.product, item.variationId)
    case None => None
    case Some(v) =>
      var discount := item.product.discount;
      Some(LineRecord(orderId, item.productId, item.variationId, item.quantity,
                      DiscountedPrice(v.price, discount), v.price, discount,
                      SnapshotProduct(item.product), SnapshotVariation(v)))
  }

  /** `items.map(...)` building every row; None as soon as one line throws. */
  function BuildLines(orderId: string, items: seq<CartItem>): (r: Option<seq<LineRecord>>)
    ensures r.Some? <==> forall i :: 0 <= i < |items| ==> BuildLine(orderId, items[i]).Some?
    ensures r.Some? ==> |r.value| == |items|
    ensures r.Some? ==> forall i :: 0 <= i < |items| ==> r.value[i] == BuildLine(orderId, items[i]).value
  {
    if |items| == 0 then Some([])
    else
      match BuildLine(orderId, items[0])
      case None => None
      case Some(line) =>
        match BuildLines(orderId, items[1..])
        case None => None
        case Some(rest) => Some([line] + rest)
  }

  /** Sum of price times quantity over written rows. */
  function LinesAmount(lines: seq<LineRecord>): real {
    if |lines| == 0 then 0.0 else lines[0].price * lines[0].quantity as real + LinesAmount(lines[1..])
  }

  /** The rows charge, in total, exactly the cart total computed before the
      header was written. */
  lemma {:induction false} LinesAmountIsCartTotal(orderId: string, items: seq<CartItem>)
    requires BuildLines(orderId, items).Some?
    ensures LinesAmount(BuildLines(orderId, items).value) == Cart.TotalAmount(items)
  {
    if |items| > 0 {
      BuildLinesSplit(orderId, items);
      LinesAmountIsCartTotal(orderId, items[1..]);
      RowChargesLineAmount(orderId, items[0]);
      LinesAmountCons(BuildLines(orderId, items).value);
    }
  }

  /** The first row's charge plus the rest's. */
  lemma LinesAmountCons(lines: seq<LineRecord>)
    requires |lines| > 0
    ensures LinesAmount(lines) == lines[0].price * lines[0].quantity as real + LinesAmount(lines[1..])
  {
  }

  /** The rows of a non-empty cart are the first line's row followed by the
      rows of the rest. */
  lemma BuildLinesSplit(orderId: string, items: seq<CartItem>)
    requires |items| > 0 && BuildLines(orderId, items).Some?
    ensures BuildLines(orderId, items[1..]).Some?
    ensures var lines := BuildLines(orderId, items).value;
            && lines[0] == BuildLine(orderId, items[0]).value
            && lines[1..] == BuildLines(orderId, items[1..]).value
  {
  }

  /** One row charges what the cart counts for its line. */
  lemma RowChargesLineAmount(orderId: string, item: CartItem)
    requires BuildLine(orderId, item).Some?
    ensures BuildLine(orderId, item).value.price * item.quantity as real == Cart.LineAmount(item)
  {
    var v := FindVariation(item.product, item.variationId).value;
    assert Cart.UnitPrice(item) == Some(DiscountedPrice(v.price, item.product.discount));
  }

  /** `placeOrder`. The total is computed from the cart before anything is
      written; the header goes first; rows are built (a stale variation
      throws after the header exists) and inserted; only when every storage
      step succeeded is the cart emptied and the order prepended. Any error
      leaves the state as it was. */
  function PlaceOrder(state: CartState, location: Location, userId: string, message: Option<string>, oracle: PlaceOracle): (o: PlaceOutcome)
    ensures o.result.Failure? ==> o.state == state
    ensures o.result.Success? <==>
      && oracle.header.Some?
      && (forall i :: 0 <= i < |state.items| ==> FindVariation(state.items[i].product, state.items[i].variationId).Some?)
      && oracle.itemsInsertOk
    ensures o.headerWritten.Some? <==> oracle.header.Some?
    ensures o.headerWritten.Some? ==>
      o.headerWritten.value == HeaderRecord(userId, Cart.TotalAmount(state.items), location, Pending, NonEmpty(message))
    ensures oracle.header.None? ==> o.result == Failure(HeaderInsertFailed)
    ensures oracle.header.Some? && BuildLines(oracle.header.value.0, state.items).None? ==>
      o.result == Failure(VariationNotFound)
    ensures oracle.header.Some? && BuildLines(oracle.header.value.0, state.items).Some? && !oracle.itemsInsertOk ==>
      o.result == Failure(ItemsInsertFailed)
    ensures o.result.Success? ==> o.linesWritten == BuildLines(oracle.header.value.0, state.items).value
    ensures o.result.Success? ==>
      var order := o.result.value;
      && o.state == CartState([], [order] + state.orders)
      && order.id == oracle.header.value.0
      && order.userId == userId
      && order.location == location
      && order.date == oracle.header.value.1
      && (oracle.user.Some? ==> order.userName == Some(oracle.user.value.name)
                                && order.userEmail == Some(oracle.user.value.email)
                                && order.userPhone == oracle.user.value.phone)
      && (oracle.user.None? ==> order.userName.None? && order.userEmail.None? && order.userPhone.None?)
      && order.items == state.items
      && order.totalAmount == Cart.TotalAmount(state.items)
      && order.totalAmount == LinesAmount(o.linesWritten)
      && order.status == Pending
      && order.message == NonEmpty(message)
      && |o.linesWritten| == |state.items|
    ensures o.result.Failure? ==> o.linesWritten == []
  {
    var total := Cart.TotalAmount(state.items);
    var msg := NonEmpty(message);
    var header := HeaderRecord(userId, total, location, Pending, msg);
    match oracle.header
    case None => PlaceOutcome(state, None, [], Failure(HeaderInsertFailed))
    case Some((orderId, createdAt)) =>
      match BuildLines(orderId, state.items)
      case None => PlaceOutcome(state, Some(header), [], Failure(VariationNotFound))
      case Some(lines) =>
        if !oracle.itemsInsertOk then PlaceOutcome(state, Some(header), [], Failure(ItemsInsertFailed))
        else
          LinesAmountIsCartTotal(orderId, state.items);
          var contact := oracle.user;
          var order := Order(orderId, userId,
                             if contact.Some? then Some(contact.value.name) else None,
                             if contact.Some? then Some(contact.value.email) else None,
                             if contact.Some? then contact.value.phone else None,
                             state.items, total, location, createdAt, Pending, msg);
          PlaceOutcome(CartState([], [order] + state.orders), Some(header), lines, Success(order))
  }

  /** An order-item row as read back, joined with the product it refers to
      now (None once that product is deleted). Rows written before snapshots
      existed have none. */
  datatype StoredLine = StoredLine(
    productId: string,
    variationId: string,
    quantity: int,
    productSnapshot: Option<ProductSnapshot>,
    variationSnapshot: Option<VariationSnapshot>,
    current: Option<Product>)

  function VariationFromSnapshot(s: VariationSnapshot): Variation {
    Variation(s.id, s.size, s.variety, s.price, s.description, s.imageUrl, s.availableLocations)
  }

  /** The cart line an order shows for one stored row. Product fields come
      from the snapshot when there is one, except price, variations and
      locations, which always come from the current product; the purchased
      variation is overwritten by its snapshot only when its id is still
      among the current variations. Reading the current product when it is
      gone throws: `None`. */
  function ReconstructItem(row: StoredLine): (r: Option<CartItem>)
    ensures r.Some? <==> row.current.Some?
    ensures r.Some? ==>
      var cur := row.current.value;
      var p := r.value.product;
      && r.value.variationId == row.variationId
      && r.value.quantity == row.quantity
      && r.value.productId == p.id
      && p.price == cur.price && p.locations == cur.locations
      && p.companyImageUrl.None?
      && |p.variations| == |cur.variations|
    ensures r.Some? && row.productSnapshot.Some? ==> SnapshotProduct(r.value.product) == row.productSnapshot.value
    ensures r.Some? && row.productSnapshot.None? ==>
      SnapshotProduct(r.value.product) == SnapshotProduct(row.current.value)
    ensures r.Some? ==>
      var cur := row.current.value;
      forall j :: 0 <= j < |cur.variations| ==>
        r.value.product.variations[j] ==
          if row.variationSnapshot.Some? && VariationIndex(cur.variations, row.variationId) == Some(j)
          then VariationFromSnapshot(row.variationSnapshot.value)
          else cur.variations[j]
  {
    match row.current
    case None => None
    case Some(cur) =>
      var base :=
        match row.productSnapshot
        case Some(s) => Product(s.id, s.name, s.description, cur.price, s.imageUrl, s.company, None,
                                s.category, cur.variations, cur.locations, s.discount)
        case None => Product(cur.id, cur.name, cur.description, cur.price, cur.imageUrl, cur.company, None,
                             cur.category, cur.variations, cur.locations, cur.discount);
      var product :=
        match (row.variationSnapshot, VariationIndex(base.variations, row.variationId))
        case (Some(vs), Some(k)) => base.(variations := base.variations[k := VariationFromSnapshot(vs)])
        case _ => base;
      Some(CartItem(product.id, product, row.variationId, row.quantity))
  }

  /** The stored form of a freshly written row, read back against a current
      product. */
  function Stored(line: LineRecord, current: Option<Product>): StoredLine {
    StoredLine(line.productId, line.variationId, line.quantity,
               Some(line.productSnapshot), Some(line.variationSnapshot), current)
  }

  /** Round trip: a row written at checkout, read back while the product is
      unchanged, gives back the cart line that was bought, except that the
      company image is not carried. */
  lemma WriteThenReconstruct(orderId: string, item: CartItem)
    requires item.productId == item.product.id
    requires BuildLine(orderId, item).Some?
    ensures ReconstructItem(Stored(BuildLine(orderId, item).value, Some(item.product)))
            == Some(item.(product := item.product.(companyImageUrl := None)))
  {
    var p := item.product;
    var k := VariationIndex(p.variations, item.variationId).value;
    assert VariationFromSnapshot(SnapshotVariation(p.variations[k])) == p.variations[k];
    assert p.variations[k := p.variations[k]] == p.variations;
  }

  /** Snapshot precedence: whatever the product looks like now, a row with
      snapshots shows the snapshot's name, description, image, company,
      category and discount, and the purchased variation resolves to its
      snapshot exactly when its id is still among the current variations. */
  lemma SnapshotsWinOverCurrent(line: LineRecord, current: Product)
    requires line.variationSnapshot.id == line.variationId
    ensures var r := ReconstructItem(Stored(line, Some(current)));
            && r.Some?
            && SnapshotProduct(r.value.product) == line.productSnapshot
            && ((exists j :: 0 <= j < |current.variations| && current.variations[j].id == line.variationId)
                ==> FindVariation(r.value.product, line.variationId) == Some(VariationFromSnapshot(line.variationSnapshot)))
            && ((forall j :: 0 <= j < |current.variations| ==> current.variations[j].id != line.variationId)
                ==> FindVariation(r.value.product, line.variationId).None?)
  {
    var r := ReconstructItem(Stored(line, Some(current)));
    var vs := current.variations;
    match VariationIndex(vs, line.variationId) {
      case None =>
      case Some(k) =>
        var vs' := vs[k := VariationFromSnapshot(line.variationSnapshot)];
        assert r.value.product.variations == vs';
        assert VariationIndex(vs', line.variationId) == Some(k) by {
          var k' := VariationIndex(vs', line.variationId);
          assert vs'[k].id == line.variationId;
          assert k'.Some?;
        }
    }
  }

  /** A user row as read for the manual join. */
  datatype UserRow = UserRow(id: string, contact: Contact)

  /** An order row with its stored lines (already ordered newest first by
      the query). */
  datatype OrderRow = OrderRow(
    id: string,
    userId: string,
    totalAmount: real,
    location: Location,
    createdAt: string,
    status: OrderStatus,
    message: Option<string>,
    lines: seq<StoredLine>)

  /** `usersData?.find(user => user.id === order.user_id)`. */
  function FindUser(users: Option<seq<UserRow>>, id: string): (r: Option<Contact>)
    ensures r.Some? ==>
      && users.Some?
      && exists j :: && 0 <= j < |users.value| && users.value[j].id == id && users.value[j].contact == r.value
                     && forall k :: 0 <= k < j ==> users.value[k].id != id
    ensures r.None? <==> users.None? || forall j :: 0 <= j < |users.value| ==> users.value[j].id != id
    decreases if users.Some? then |users.value| else 0
  {
    match users
    case None => None
    case Some(us) =>
      if |us| == 0 then None
      else if us[0].id == id then Some(us[0].contact)
      else
        var r := FindUser(Some(us[1..]), id);
        assert r.Some? ==> exists j :: && 0 <= j < |us| && us[j].id == id && us[j].contact == r.value
                                      && forall k :: 0 <= k < j ==> us[k].id != id by {
          if r.Some? {
            var j :| && 0 <= j < |us[1..]| && us[1..][j].id == id && us[1..][j].contact == r.value
                     && forall k :: 0 <= k < j ==> us[1..][k].id != id;
            assert us[j + 1] == us[1..][j];
            assert forall k :: 1 <= k < j + 1 ==> us[k] == us[1..][k - 1];
          }
        }
        r
  }

  function ReconstructLines(rows: seq<StoredLine>): (r: Option<seq<CartItem>>)
    ensures r.Some? <==> forall i :: 0 <= i < |rows| ==> rows[i].current.Some?
    ensures r.Some? ==> |r.value| == |rows| && forall i :: 0 <= i < |rows| ==> r.value[i] == ReconstructItem(rows[i]).value
  {
    if |rows| == 0 then Some([])
    else
      match (ReconstructItem(rows[0]), ReconstructLines(rows[1..]))
      case (Some(x), Some(rest)) => Some([x] + rest)
      case _ => None
  }

  /** One order as `fetchOrders` rebuilds it: the header fields straight
      from the row (the total is never recomputed), the contact from the
      user row when one matches, and the lines rebuilt one by one. */
  function ReconstructOrder(row: OrderRow, users: Option<seq<UserRow>>): (r: Option<Order>)
    ensures r.Some? <==> ReconstructLines(row.lines).Some?
    ensures r.Some? ==>
      && r.value.id == row.id && r.value.userId == row.userId
      && r.value.totalAmount == row.totalAmount && r.value.location == row.location
      && r.value.date == row.createdAt && r.value.status == row.status
      && r.value.message == NonEmpty(row.message)
      && r.value.items == ReconstructLines(row.lines).value
    ensures r.Some? && FindUser(users, row.userId).None? ==>
      r.value.userName.None? && r.value.userEmail.None? && r.value.userPhone.None?
    ensures r.Some? && FindUser(users, row.userId).Some? ==>
      && r.value.userName == Some(FindUser(users, row.userId).value.name)
      && r.value.userEmail == Some(FindUser(users, row.userId).value.email)
      && r.value.userPhone == FindUser(users, row.userId).value.phone
  {
    match ReconstructLines(row.lines)
    case None => None
    case Some(items) =>
      var c := FindUser(users, row.userId);
      Some(Order(row.id, row.userId,
                 if c.Some? then Some(c.value.name) else None,
                 if c.Some? then Some(c.value.email) else None,
                 if c.Some? then c.value.phone else None,
                 items, row.totalAmount, row.location, row.createdAt, row.status, NonEmpty(row.message)))
  }

  function ReconstructOrders(rows: seq<OrderRow>, users: Option<seq<UserRow>>): (r: Option<seq<Order>>)
    ensures r.Some? ==> |r.value| == |rows|
  {
    if |rows| == 0 then Some([])
    else
      match (ReconstructOrder(rows[0], users), ReconstructOrders(rows[1..], users))
      case (Some(o), Some(rest)) => Some([o] + rest)
      case _ => None
  }

  /** Every line of the order still has its product. */
  predicate LinesPresent(row: OrderRow) {
    forall j :: 0 <= j < |row.lines| ==> row.lines[j].current.Some?
  }

  /** Every line of every order still has its product. */
  predicate AllProductsPresent(rows: seq<OrderRow>) {
    forall i :: 0 <= i < |rows| ==> LinesPresent(rows[i])
  }

  lemma OrderPresentIff(row: OrderRow, users: Option<seq<UserRow>>)
    ensures ReconstructOrder(row, users).Some? <==> LinesPresent(row)
  {
  }

  /** `fetchOrders`: the new `orders`. A failed or empty orders query, or any
      row whose product is gone, leaves no orders at all; otherwise one order
      per row, in row order, whose header fields are the row's (never
      recomputed) and whose lines are rebuilt one by one. A failed users
      query only leaves the contact fields empty. */
  function FetchOrders(rows: Option<seq<OrderRow>>, users: Option<seq<UserRow>>): (r: seq<Order>)
    ensures rows.None? ==> r == []
    ensures rows.Some? && !AllProductsPresent(rows.value) ==> r == []
    ensures rows.Some? && AllProductsPresent(rows.value) ==>
      && |r| == |rows.value|
      && forall i :: 0 <= i < |r| ==>
           && r[i].id == rows.value[i].id
           && r[i].totalAmount == rows.value[i].totalAmount
           && r[i].status == rows.value[i].status
           && r[i].location == rows.value[i].location
           && |r[i].items| == |rows.value[i].lines|
           && (forall j :: 0 <= j < |r[i].items| ==> Some(r[i].items[j]) == ReconstructItem(rows.value[i].lines[j]))
           && (users.None? ==> r[i].userName.None? && r[i].userEmail.None?)
    ensures rows.Some? && AllProductsPresent(rows.value) ==>
      forall i :: 0 <= i < |r| ==> Some(r[i]) == ReconstructOrder(rows.value[i], users)
  {
    match rows
    case None => []
    case Some(rs) =>
      ReconstructOrdersSpec(rs, users);
      match ReconstructOrders(rs, users)
      case None => []
      case Some(os) => os
  }

  lemma ReconstructOrdersSpec(rows: seq<OrderRow>, users: Option<seq<UserRow>>)
    ensures ReconstructOrders(rows, users).Some? <==> AllProductsPresent(rows)
    ensures ReconstructOrders(rows, users).Some? ==>
      var os := ReconstructOrders(rows, users).value;
      && |os| == |rows|
      && forall i :: 0 <= i < |rows| ==> Some(os[i]) == ReconstructOrder(rows[i], users)
  {
    ReconstructOrdersPresent(rows, users);
    ReconstructOrdersAt(rows, users);
  }

  /** The list rebuilds exactly when every line of every order has its
      product. */
  lemma {:induction false} ReconstructOrdersPresent(rows: seq<OrderRow>, users: Option<seq<UserRow>>)
    ensures ReconstructOrders(rows, users).Some? <==> AllProductsPresent(rows)
  {
    if |rows| > 0 {
      var tail := rows[1..];
      ReconstructOrdersPresent(tail, users);
      OrderPresentIff(rows[0], users);
      assert forall i :: 1 <= i < |rows| ==> rows[i] == tail[i - 1];
    }
  }

  /** A rebuilt list holds, at each position, the order rebuilt from that
      row. */
  lemma {:induction false} ReconstructOrdersAt(rows: seq<OrderRow>, users: Option<seq<UserRow>>)
    ensures ReconstructOrders(rows, users).Some? ==>
      forall i :: 0 <= i < |rows| ==> Some(ReconstructOrders(rows, users).value[i]) == ReconstructOrder(rows[i], users)
  {
    var r := ReconstructOrders(rows, users);
    if |rows| > 0 && r.Some? {
      var tail := rows[1..];
      ReconstructOrdersAt(tail, users);
      var rest := ReconstructOrders(tail, users).value;
      assert r.value == [ReconstructOrder(rows[0], users).value] + rest;
      forall i | 1 <= i < |rows|
        ensures Some(r.value[i]) == ReconstructOrder(rows[i], users)
      {
        assert r.value[i] == rest[i - 1] && rows[i] == tail[i - 1];
      }
    }
  }

  datatype StatusError = StatusUpdateFailed

  /** `updateOrderStatus`: once storage accepts the write, the order with
      that id gets the new status and nothing else changes; any status may
      follow any other. A storage error is rethrown and the list is kept. */
  function UpdateOrderStatus(orders: seq<Order>, orderId: string, status: OrderStatus, storageOk: bool): (r: Result<seq<Order>, StatusError>)
    ensures r.Success? <==> storageOk
    ensures r.Success? ==> |r.value| == |orders|
    ensures r.Success? ==> forall i :: 0 <= i < |orders| ==>
      && r.value[i].status == (if orders[i].id == orderId then status else orders[i].status)
      && r.value[i].(status := orders[i].status) == orders[i]
  {
    if !storageOk then Failure(StatusUpdateFailed)
    else Success(seq(|orders|, i requires 0 <= i < |orders| =>
                   if orders[i].id == orderId then orders[i].(status := status) else orders[i]))
  }

  /** No transition guard: every status can be set from every status. */
  lemma AnyStatusTransition(o: Order, status: OrderStatus)
    ensures UpdateOrderStatus([o], o.id, status, true) == Success([o.(status := status)])
  {
    var r := UpdateOrderStatus([o], o.id, status, true);
    assert |r.value| == 1;
    var x := r.value[0];
    assert x.status == status && x.(status := o.status) == o;
    assert x == o.(status := status);
    assert r.value == [x];
  }
}
