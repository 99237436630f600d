/** The order projections of Services/OrderService.cs, over the orders the data service loads
    with their `Customer` and `OrderItems` navigations. */
module OrderService {
  import opened Wrappers
  import opened Text
  import opened Models
  import opened Data
  import opened SqlDataService
  import opened Seqs

  const Unknown := "Unknown"
  const NamesShown := 3

  /** A row of the order list. */
  datatype OrderView = OrderView(
    id: string,
    customerId: string,
    orderDate: Time,
    customerName: string,
    username: string,
    email: string,
    totalAmount: Money,
    status: string,
    shippingAddress: string,
    itemsCount: int,
    totalQuantity: int,
    productNames: string)

  datatype OrderItemView = OrderItemView(productName: string, quantity: int, unitPrice: Money, totalPrice: Money)

  /** The order detail page. */
  datatype OrderDetailView = OrderDetailView(
    id: string,
    orderDate: Time,
    customerId: string,
    customerName: string,
    username: string,
    email: string,
    totalAmount: Money,
    status: string,
    shippingAddress: string,
    customerNotes: Option<string>,
    processedDate: Option<Time>,
    processedBy: Option<string>,
    items: seq<OrderItemView>)

  /** `$"{order.Customer?.Name} {order.Customer?.Surname}"`: a missing customer interpolates as
      two empty strings. */
  function CustomerName(c: Option<Customer>): (r: string)
    ensures c.None? ==> r == " "
    ensures c.Some? ==> r == FullName(c.value)
  {
    match c
    case None => " "
    case Some(x) => x.name + " " + x.surname
  }

  function UsernameOrUnknown(c: Option<Customer>): (r: string)
    ensures r == if c.Some? then c.value.username else Unknown
  {
    match c
    case None => Unknown
    case Some(x) => x.username
  }

  function EmailOrUnknown(c: Option<Customer>): (r: string)
    ensures r == if c.Some? then c.value.email else Unknown
  {
    match c
    case None => Unknown
    case Some(x) => x.email
  }

  function ItemQuantity(item: OrderItem): int {
    item.quantity
  }

  /** `OrderItems.Sum(oi => oi.Quantity)`. */
  function TotalQuantity(items: seq<OrderItem>): (r: int)
    ensures items == [] ==> r == 0
  {
    Sum(items, ItemQuantity)
  }

  /** `OrderItems.Select(oi => oi.ProductName)`. */
  function ProductNamesOf(items: seq<OrderItem>): (r: seq<string>)
    ensures |r| == |items| && forall i :: 0 <= i < |items| ==> r[i] == items[i].productName
  {
    seq(|items|, i requires 0 <= i < |items| => items[i].productName)
  }

  /** The names of the first three items, joined with ", ". */
  function ProductNames(items: seq<OrderItem>): string {
    var names := ProductNamesOf(items);
    Join(", ", if |names| <= NamesShown then names else names[..NamesShown])
  }

  /** The list row of one loaded order. */
  function ToView(g: OrderGraph): (v: OrderView)
    ensures v.id == g.order.id && v.customerId == g.order.customerId && v.orderDate == g.order.orderDate
    ensures v.totalAmount == g.order.totalAmount && v.status == g.order.status
    ensures v.shippingAddress == g.order.shippingAddress
    ensures v.customerName == CustomerName(g.customer)
    ensures v.username == UsernameOrUnknown(g.customer) && v.email == EmailOrUnknown(g.customer)
    ensures v.itemsCount == |g.items| && v.totalQuantity == TotalQuantity(g.items)
    ensures v.productNames == ProductNames(g.items)
  {
    OrderView(g.order.id, g.order.customerId, g.order.orderDate, CustomerName(g.customer),
              UsernameOrUnknown(g.customer), EmailOrUnknown(g.customer), g.order.totalAmount,
              g.order.status, g.order.shippingAddress, |g.items|, TotalQuantity(g.items), ProductNames(g.items))
  }

  /** `orders.Select(order => new OrderViewModel { ... })`: one row per order, in order. */
  function ToViews(orders: seq<OrderGraph>): (r: seq<OrderView>)
    ensures |r| == |orders|
    ensures forall i :: 0 <= i < |orders| ==> r[i] == ToView(orders[i])
  {
    if orders == [] then [] else [ToView(orders[0])] + ToViews(orders[1..])
  }

  /** `v` shows the stored order `v.id` with its customer id, status, total and number of items. */
  ghost predicate RowOf(db: AppDbContext, v: OrderView)
    reads db
  {
    v.id in db.orders && v.customerId == db.orders[v.id].customerId
    && v.status == db.orders[v.id].status && v.totalAmount == db.orders[v.id].totalAmount
    && v.itemsCount == |ItemIdsOf(db.orderItems, v.id)|
  }

  /** `v` is the list projection of a stored order loaded with its stored customer and items. */
  ghost predicate ViewOfStored(db: AppDbContext, v: OrderView)
    reads db
  {
    exists g :: Loaded(db, g) && v == ToView(g)
  }

  /** A stored row shows its stored order's date and address, and the email and username of the
      order's stored customer, or "Unknown" when that customer is missing: the email the customer
      dashboard filters on is the stored customer's. */
  lemma StoredRowFields(db: AppDbContext, v: OrderView)
    requires ViewOfStored(db, v)
    ensures v.id in db.orders
    ensures v.orderDate == db.orders[v.id].orderDate && v.shippingAddress == db.orders[v.id].shippingAddress
    ensures var cid := db.orders[v.id].customerId;
      && v.email == (if cid in db.customers then db.customers[cid].email else Unknown)
      && v.username == (if cid in db.customers then db.customers[cid].username else Unknown)
  {
    var g :| Loaded(db, g) && v == ToView(g);
  }

  lemma LoadedRow(db: AppDbContext, g: OrderGraph)
    requires Loaded(db, g)
    ensures RowOf(db, ToView(g)) && ViewOfStored(db, ToView(g))
  {
  }

  /** The rows of loaded orders are rows of the stored orders. */
  lemma {:induction false} LoadedRows(db: AppDbContext, orders: seq<OrderGraph>)
    requires forall i :: 0 <= i < |orders| ==> Loaded(db, orders[i])
    ensures forall i :: 0 <= i < |orders| ==> RowOf(db, ToViews(orders)[i]) && ViewOfStored(db, ToViews(orders)[i])
  {
    forall i | 0 <= i < |orders| ensures RowOf(db, ToViews(orders)[i]) && ViewOfStored(db, ToViews(orders)[i]) {
      LoadedRow(db, orders[i]);
    }
  }

  /** `GetOrderViewModelsAsync`: a row for every stored order, once each, each row the list
      projection of that order loaded with its stored customer and items. */
  method GetOrderViewModels(db: AppDbContext) returns (r: seq<OrderView>)
    requires db.Valid()
    ensures |r| == |db.orders.Keys|
    ensures forall i, j :: 0 <= i < j < |r| ==> r[i].id != r[j].id
    ensures forall k :: k in db.orders ==> exists i :: 0 <= i < |r| && r[i].id == k
    ensures forall i :: 0 <= i < |r| ==> RowOf(db, r[i])
    ensures forall i :: 0 <= i < |r| ==> ViewOfStored(db, r[i])
  {
    var orders := GetAllOrders(db);
    r := ToViews(orders);
    LoadedRows(db, orders);
    forall k | k in db.orders ensures exists i :: 0 <= i < |r| && r[i].id == k {
      var i :| 0 <= i < |orders| && orders[i].order.id == k;
      assert r[i].id == k;
    }
  }

  /** One item row of the detail page. */
  function ToItemView(item: OrderItem): OrderItemView {
    OrderItemView(item.productName, item.quantity, item.unitPrice, item.totalPrice)
  }

  function ToItemViews(items: seq<OrderItem>): (r: seq<OrderItemView>)
    ensures |r| == |items|
    ensures forall i :: 0 <= i < |items| ==>
      && r[i].productName == items[i].productName && r[i].quantity == items[i].quantity
      && r[i].unitPrice == items[i].unitPrice && r[i].totalPrice == items[i].totalPrice
  {
    seq(|items|, i requires 0 <= i < |items| => ToItemView(items[i]))
  }

  /** The detail page of one loaded order. */
  function ToDetail(g: OrderGraph): (v: OrderDetailView)
    ensures v.id == g.order.id && v.customerId == g.order.customerId && v.orderDate == g.order.orderDate
    ensures v.totalAmount == g.order.totalAmount && v.status == g.order.status
    ensures v.shippingAddress == g.order.shippingAddress && v.customerNotes == g.order.customerNotes
    ensures v.processedDate == g.order.processedDate && v.processedBy == g.order.processedBy
    ensures v.customerName == CustomerName(g.customer)
    ensures v.username == UsernameOrUnknown(g.customer) && v.email == EmailOrUnknown(g.customer)
    ensures v.items == ToItemViews(g.items)
  {
    OrderDetailView(g.order.id, g.order.orderDate, g.order.customerId, CustomerName(g.customer),
                    UsernameOrUnknown(g.customer), EmailOrUnknown(g.customer), g.order.totalAmount,
                    g.order.status, g.order.shippingAddress, g.order.customerNotes, g.order.processedDate,
                    g.order.processedBy, ToItemViews(g.items))
  }

  /** `GetOrderDetailViewModelAsync`: none for an unknown id; otherwise the detail projection of
      the stored order loaded with its stored customer and items, so one item row per stored item. */
  method GetOrderDetailViewModel(db: AppDbContext, id: string) returns (r: Option<OrderDetailView>)
    requires db.Valid()
    ensures r.None? <==> id !in db.orders
    ensures r.Some? ==> r.value.id == id && r.value.status == db.orders[id].status
                        && r.value.totalAmount == db.orders[id].totalAmount
                        && |r.value.items| == |ItemIdsOf(db.orderItems, id)|
    ensures r.Some? ==> exists g :: Loaded(db, g) && g.order == db.orders[id] && r.value == ToDetail(g)
  {
    var g := GetOrder(db, id);
    match g
    case None => r := None;
    case Some(x) => r := Some(ToDetail(x));
  }

  /** TotalQuantity is additive, and each item contributes its own quantity. */
  lemma TotalQuantityAppend(a: seq<OrderItem>, b: seq<OrderItem>)
    ensures TotalQuantity(a + b) == TotalQuantity(a) + TotalQuantity(b)
  {
    SumAppend(a, b, ItemQuantity);
  }

  /** With quantities of at least one, TotalQuantity is at least ItemsCount. */
  lemma {:induction false} TotalQuantityAtLeastCount(items: seq<OrderItem>)
    requires forall i :: 0 <= i < |items| ==> items[i].quantity >= 1
    ensures TotalQuantity(items) >= |items|
  {
    if items != [] {
      TotalQuantityAtLeastCount(items[1..]);
    }
  }

  /** ProductNames shows at most the first three names: none for no items, and exactly the
      first three, separated by ", ", for three or more. */
  lemma ProductNamesShape(items: seq<OrderItem>)
    ensures items == [] ==> ProductNames(items) == ""
    ensures |items| == 1 ==> ProductNames(items) == items[0].productName
    ensures |items| >= 3 ==>
      ProductNames(items) == items[0].productName + ", " + items[1].productName + ", " + items[2].productName
  {
    if |items| >= 3 {
      var all := ProductNamesOf(items);
      var names := all[..NamesShown];
      assert ProductNames(items) == Join(", ", names) by {
        if |all| == NamesShown { assert all == names; }
      }
      assert names[0] == items[0].productName && names[1] == items[1].productName && names[2] == items[2].productName;
      assert names[1..][1..] == [names[2]];
      assert Join(", ", names[1..]) == names[1] + ", " + names[2];
      assert Join(", ", names) == names[0] + ", " + (names[1] + ", " + names[2]);
    }
  }
}
