/** Controllers/OrderController.cs. The signed-in user's role, name and email claims are inputs;
    so is the customer the email lookup finds (`GetCustomerByEmailAsync`), where an action only
    passes it on. Fresh GUIDs and the clock are inputs. */
module OrderController {
  import opened Wrappers
  import opened Text
  import opened Models
  import opened Data
  import opened Seqs
  import opened Web
  import opened SqlDataService
  import opened OrderService
  import opened Checkout

  // ------------------------------------------------------------ Create (POST)

  /** The validation loop: the message for the first line whose product is not found or has too
      little stock, or none. Nothing is written. */
  method ValidateCart(db: AppDbContext, lines: seq<CartLine>) returns (problem: Option<string>)
    ensures problem == FirstProblem(db.products, lines)
  {
    var i := 0;
    while i < |lines|
      invariant 0 <= i <= |lines|
      invariant FirstProblem(db.products, lines) == FirstProblem(db.products, lines[i..])
    {
      assert lines[i..][1..] == lines[i + 1..];
      var line := lines[i];
      var product := GetProduct(db.products, line.id);
      if product.None? {
        return Some(ProductNotFound(line.name));
      }
      if product.value.stockAvailable < line.quantity {
        return Some(InsufficientStock(line.name, product.value.stockAvailable));
      }
      i := i + 1;
    }
    problem := None;
  }

  lemma DecrementStep(products: map<string, Product>, lines: seq<CartLine>, i: int, now: Time)
    requires 0 <= i < |lines|
    ensures ApplyDecrements(products, lines[..i + 1], now) == Decrement(ApplyDecrements(products, lines[..i], now), lines[i], now)
  {
    assert lines[..i + 1][..i] == lines[..i];
  }

  /** A line that fitted before the loop still finds its product after the lines before it. */
  lemma StillListed(products: map<string, Product>, lines: seq<CartLine>, i: int, now: Time)
    requires 0 <= i < |lines| && LineFits(products, lines[i])
    ensures GetProduct(ApplyDecrements(products, lines[..i], now), lines[i].id).Some?
  {
    DecrementsKeepCatalogue(products, lines[..i], now);
  }

  lemma ItemsSnoc(lines: seq<CartLine>, ids: seq<string>, i: int)
    requires 0 <= i < |lines| && |ids| == |lines|
    ensures OrderItemsFor(lines[..i + 1], ids[..i + 1]) == OrderItemsFor(lines[..i], ids[..i]) + [NewOrderItem(lines[i], ids[i])]
  {
  }

  /** Writing back the product with its stock lowered is the decrement of the line. */
  lemma UpdateIsDecrement(products: map<string, Product>, line: CartLine, now: Time)
    requires GetProduct(products, line.id).Some? && products[line.id].id == line.id
    ensures var p := products[line.id];
      products[p.id := UpdatedProduct(p, p.(stockAvailable := p.stockAvailable - line.quantity), now)]
      == Decrement(products, line, now)
  {
  }

  /** The commit loop: an order item per line, and the line's quantity taken off its product's
      stock through `UpdateProductAsync`. */
  method CommitLines(db: AppDbContext, lines: seq<CartLine>, ids: seq<string>, now: Time) returns (items: seq<OrderItem>)
    requires db.Valid() && |ids| == |lines|
    requires forall i :: 0 <= i < |lines| ==> LineFits(db.products, lines[i])
    modifies db
    ensures db.Valid()
    ensures items == OrderItemsFor(lines, ids)
    ensures db.products == ApplyDecrements(old(db.products), lines, now)
    ensures unchanged(db`customers, db`carts, db`cartItems, db`orders, db`orderItems)
  {
    items := [];
    var i := 0;
    while i < |lines|
      invariant 0 <= i <= |lines| && db.Valid()
      invariant items == OrderItemsFor(lines[..i], ids[..i])
      invariant db.products == ApplyDecrements(old(db.products), lines[..i], now)
      invariant unchanged(db`customers, db`carts, db`cartItems, db`orders, db`orderItems)
    {
      var line := lines[i];
      StillListed(old(db.products), lines, i, now);
      DecrementStep(old(db.products), lines, i, now);
      ItemsSnoc(lines, ids, i);
      items := items + [NewOrderItem(line, ids[i])];
      var product := GetProduct(db.products, line.id).value;
      UpdateIsDecrement(db.products, line, now);
      var edited := product.(stockAvailable := product.stockAvailable - line.quantity);
      var _ := UpdateProduct(db, product.id, edited, now);
      i := i + 1;
    }
    assert lines[..i] == lines && ids[..i] == ids;
  }

  function OrderSubmitted(id: string): string {
    "Order #" + id + " submitted successfully!"
  }

  function CreateFailed(message: string): string {
    "Error creating order: " + message
  }

  /** No customer's email matches the claim, ignoring case. */
  ghost predicate NoCustomerFor(customers: map<string, Customer>, email: string) {
    forall k :: k in customers ==> !MatchesEmailIgnoreCase(customers[k], email)
  }

  /** `Create` (POST): the form's annotation errors; then the customer lookup; then the first
      line whose product is missing or short of stock. Any of these returns the form with its
      message and writes nothing. Otherwise every line's quantity comes off its product's stock,
      and then the order (with the form's customer id and total) is saved with its items; when
      that save fails, the stock stays decremented and the form comes back with the error
      (`failure` is the exception's message). */
  method Create(db: AppDbContext, form: OrderCreateForm, userEmail: string, newOrderId: string,
                newItemIds: seq<string>, failure: string, now: Time) returns (r: ActionResult<OrderCreateForm>)
    requires db.Valid()
    requires newOrderId !in db.orders && |newItemIds| == |form.cartItems|
    requires forall i :: 0 <= i < |newItemIds| ==> newItemIds[i] !in db.orderItems
    requires forall i, j :: 0 <= i < j < |newItemIds| ==> newItemIds[i] != newItemIds[j]
    modifies db
    ensures db.Valid()
    ensures FormErrors(form) != [] ==> r == View(form, FormErrors(form)) && unchanged(db)
    ensures FormErrors(form) == [] && NoCustomerFor(old(db.customers), userEmail) ==>
      r == View(form, [CustomerNotFound]) && unchanged(db)
    ensures && FormErrors(form) == [] && !NoCustomerFor(old(db.customers), userEmail)
            && FirstProblem(old(db.products), form.cartItems).Some? ==>
      r == View(form, [FirstProblem(old(db.products), form.cartItems).value]) && unchanged(db)
    ensures && FormErrors(form) == [] && !NoCustomerFor(old(db.customers), userEmail)
            && FirstProblem(old(db.products), form.cartItems).None? ==>
      && db.products == ApplyDecrements(old(db.products), form.cartItems, now)
      && (r.Redirect? <==> form.customerId in old(db.customers))
      && (r.Redirect? ==>
            && r == Redirect("Index", "Order", Success(OrderSubmitted(newOrderId)))
            && db.orders == old(db.orders)[newOrderId := PlacedOrder(form, newOrderId, now)]
            && db.orderItems == WithItemsAdded(old(db.orderItems), OrderItemsFor(form.cartItems, newItemIds), newOrderId))
      && (!r.Redirect? ==>
            && r == View(form, [CreateFailed(failure)])
            && db.orders == old(db.orders) && db.orderItems == old(db.orderItems))
    ensures unchanged(db`customers, db`carts, db`cartItems)
  {
    var errors := FormErrors(form);
    if errors != [] {
      return View(form, errors);
    }
    var customer := GetCustomerByEmail(db, userEmail);
    if customer.None? {
      return View(form, [CustomerNotFound]);
    }
    var problem := ValidateCart(db, form.cartItems);
    if problem.Some? {
      return View(form, [problem.value]);
    }
    FirstProblemIsFirst(db.products, form.cartItems);
    var items := CommitLines(db, form.cartItems, newItemIds, now);
    DecrementsKeepCatalogue(old(db.products), form.cartItems, now);
    assert forall i :: 0 <= i < |items| ==> items[i].productId in db.products;
    var created := CreateOrder(db, PlacedOrder(form, newOrderId, now), items, now);
    if created.None? {
      return View(form, [CreateFailed(failure)]);
    }
    r := Redirect("Index", "Order", Success(OrderSubmitted(created.value.id)));
  }

  // ------------------------------------------------------------ the customer's orders

  /** The signed-in customer placed order `id`. */
  predicate Owns(orders: map<string, Order>, signedIn: Option<Customer>, id: string) {
    signedIn.Some? && id in orders && orders[id].customerId == signedIn.value.id
  }

  function IsRowOf(customerId: string): OrderView -> bool {
    (v: OrderView) => v.customerId == customerId
  }

  /** Filtering the rows keeps each kept row the projection of a stored order. */
  lemma FilterKeepsViews(db: AppDbContext, all: seq<OrderView>, p: OrderView -> bool)
    requires forall i :: 0 <= i < |all| ==> ViewOfStored(db, all[i])
    ensures forall i :: 0 <= i < |Filter(all, p)| ==> ViewOfStored(db, Filter(all, p)[i])
  {
    var r := Filter(all, p);
    forall i | 0 <= i < |r| ensures ViewOfStored(db, r[i]) {
      var j :| 0 <= j < |all| && all[j] == r[i];
    }
  }

  /** `GetCustomerOrdersAsync`: no rows without a customer; otherwise the rows of all orders,
      kept where the customer id is the customer's. */
  method CustomerOrders(db: AppDbContext, signedIn: Option<Customer>) returns (r: seq<OrderView>)
    requires db.Valid()
    ensures signedIn.None? ==> r == []
    ensures forall i :: 0 <= i < |r| ==> RowOf(db, r[i]) && Owns(db.orders, signedIn, r[i].id)
    ensures forall k :: Owns(db.orders, signedIn, k) ==> exists i :: 0 <= i < |r| && r[i].id == k
    ensures forall i :: 0 <= i < |r| ==> ViewOfStored(db, r[i])
  {
    if signedIn.None? {
      return [];
    }
    var all := GetOrderViewModels(db);
    r := Filter(all, IsRowOf(signedIn.value.id));
    FilterKeepsViews(db, all, IsRowOf(signedIn.value.id));
    forall k | Owns(db.orders, signedIn, k) ensures exists i :: 0 <= i < |r| && r[i].id == k {
      var j :| 0 <= j < |all| && all[j].id == k;
      assert all[j] in r;
    }
  }

  /** `customerOrders.Any(o => o.Id == id)` is ownership. */
  lemma AnyRowIsOwnership(db: AppDbContext, rows: seq<OrderView>, signedIn: Option<Customer>, id: string)
    requires forall i :: 0 <= i < |rows| ==> RowOf(db, rows[i]) && Owns(db.orders, signedIn, rows[i].id)
    requires forall k :: Owns(db.orders, signedIn, k) ==> exists i :: 0 <= i < |rows| && rows[i].id == k
    ensures (exists i :: 0 <= i < |rows| && rows[i].id == id) <==> Owns(db.orders, signedIn, id)
  {
  }

  method HasRow(rows: seq<OrderView>, id: string) returns (found: bool)
    ensures found <==> exists i :: 0 <= i < |rows| && rows[i].id == id
  {
    found := false;
    var i := 0;
    while i < |rows|
      invariant 0 <= i <= |rows|
      invariant !found <==> forall j :: 0 <= j < i ==> rows[j].id != id
    {
      if rows[i].id == id {
        found := true;
      }
      i := i + 1;
    }
  }

  datatype OrderIndex = OrderIndex(viewName: string, rows: seq<OrderView>, info: Flash)

  const NoOrdersInSystem := "No orders found in the system."
  const NoOrdersYet := "You haven't placed any orders yet."

  /** `Index`: an admin gets every order, a customer their own; an empty list comes with a
      notice. */
  method Index(db: AppDbContext, isAdmin: bool, signedIn: Option<Customer>) returns (r: OrderIndex)
    requires db.Valid()
    ensures r.viewName == if isAdmin then "AdminIndex" else "CustomerIndex"
    ensures forall i :: 0 <= i < |r.rows| ==> RowOf(db, r.rows[i])
    ensures forall i :: 0 <= i < |r.rows| ==> ViewOfStored(db, r.rows[i])
    ensures isAdmin ==> forall k :: k in db.orders ==> exists i :: 0 <= i < |r.rows| && r.rows[i].id == k
    ensures !isAdmin ==> forall i :: 0 <= i < |r.rows| ==> Owns(db.orders, signedIn, r.rows[i].id)
    ensures !isAdmin ==> forall k :: Owns(db.orders, signedIn, k) ==> exists i :: 0 <= i < |r.rows| && r.rows[i].id == k
    ensures r.info == (if r.rows != [] then NoFlash else if isAdmin then Info(NoOrdersInSystem) else Info(NoOrdersYet))
  {
    var rows;
    if isAdmin {
      rows := GetOrderViewModels(db);
    } else {
      rows := CustomerOrders(db, signedIn);
    }
    var info := if rows != [] then NoFlash else if isAdmin then Info(NoOrdersInSystem) else Info(NoOrdersYet);
    r := OrderIndex(if isAdmin then "AdminIndex" else "CustomerIndex", rows, info);
  }

  // ------------------------------------------------------------ Details, Edit

  const NotYourOrder := "You can only view your own orders."

  /** `Details`: 404 for an empty or unknown id; a customer who did not place the order is sent
      back to the list; otherwise the detail page. */
  method Details(db: AppDbContext, id: Option<string>, isCustomer: bool, signedIn: Option<Customer>)
    returns (r: ActionResult<OrderDetailView>)
    requires db.Valid()
    ensures r.NotFound? <==> IsNullOrEmpty(id) || id.value !in db.orders
    ensures r.Redirect? <==> !r.NotFound? && isCustomer && !Owns(db.orders, signedIn, id.value)
    ensures r.Redirect? ==> r == Redirect("Index", "Order", Error(NotYourOrder))
    ensures r.View? ==> && r.model.id == id.value && r.model.status == db.orders[id.value].status
                        && r.model.totalAmount == db.orders[id.value].totalAmount
                        && |r.model.items| == |ItemIdsOf(db.orderItems, id.value)|
    ensures r.View? ==> exists g :: Loaded(db, g) && g.order == db.orders[id.value] && r.model == ToDetail(g)
  {
    if IsNullOrEmpty(id) {
      return NotFound;
    }
    var detail := GetOrderDetailViewModel(db, id.value);
    if detail.None? {
      return NotFound;
    }
    if isCustomer {
      var rows := CustomerOrders(db, signedIn);
      var owned := HasRow(rows, id.value);
      AnyRowIsOwnership(db, rows, signedIn, id.value);
      if !owned {
        return Redirect("Index", "Order", Error(NotYourOrder));
      }
    }
    r := View(detail.value, []);
  }

  /** `Edit` (GET): 404 for an empty or unknown id; otherwise the stored order. */
  method EditForm(db: AppDbContext, id: Option<string>) returns (r: ActionResult<Order>)
    requires db.Valid()
    ensures r.NotFound? <==> IsNullOrEmpty(id) || id.value !in db.orders
    ensures r.View? ==> r.model == db.orders[id.value] && r.errors == []
  {
    if IsNullOrEmpty(id) {
      return NotFound;
    }
    var g := GetOrder(db, id.value);
    if g.None? {
      return NotFound;
    }
    r := View(g.value.order, []);
  }

  /** `Edit` (POST): 404 when the route id is not the posted order's; an invalid form comes back;
      otherwise only the posted Status is applied, by the admin's name, and whatever else the
      form carries is ignored. */
  method Edit(db: AppDbContext, id: Option<string>, order: Order, modelValid: bool, userName: Option<string>, now: Time)
    returns (r: ActionResult<Order>)
    requires db.Valid()
    modifies db
    ensures db.Valid()
    ensures r.NotFound? <==> id != Some(order.id)
    ensures r.View? <==> id == Some(order.id) && !modelValid
    ensures !r.Redirect? ==> db.orders == old(db.orders)
    ensures r.Redirect? ==> && r == Redirect("Index", "Order", Success("Order updated successfully!"))
                            && db.orders == if order.id in old(db.orders)
                                            then old(db.orders)[order.id := WithStatus(old(db.orders)[order.id], order.status, userName, now)]
                                            else old(db.orders)
    ensures unchanged(db`customers, db`products, db`carts, db`cartItems, db`orderItems)
  {
    if id != Some(order.id) {
      return NotFound;
    }
    if !modelValid {
      return View(order, []);
    }
    var _ := UpdateOrderStatus(db, order.id, order.status, userName, now);
    r := Redirect("Index", "Order", Success("Order updated successfully!"));
  }

  // ------------------------------------------------------------ status, cancel, delete

  function StatusUpdated(id: string, status: string): string {
    "Order " + id + " status updated to " + status + "!"
  }

  /** `UpdateOrderStatus`: the status is applied when the order exists, with no check of the
      current status; the success message is shown either way. */
  method UpdateStatus(db: AppDbContext, id: string, newStatus: string, userName: Option<string>, now: Time)
    returns (r: ActionResult<Order>)
    requires db.Valid()
    modifies db
    ensures db.Valid()
    ensures r == Redirect("Index", "Order", Success(StatusUpdated(id, newStatus)))
    ensures db.orders == if id in old(db.orders) then old(db.orders)[id := WithStatus(old(db.orders)[id], newStatus, userName, now)]
                         else old(db.orders)
    ensures unchanged(db`customers, db`products, db`carts, db`cartItems, db`orderItems)
  {
    var _ := UpdateOrderStatus(db, id, newStatus, userName, now);
    r := Redirect("Index", "Order", Success(StatusUpdated(id, newStatus)));
  }

  const NotYourOrderToCancel := "You can only cancel your own orders."

  function OrderCancelled(id: string): string {
    "Order #" + id + " has been cancelled."
  }

  /** `CancelOrder`: a customer may cancel only an order they placed; any order, whatever its
      status (Shipped or Delivered included), becomes Cancelled, and stock is not returned. */
  method CancelOrder(db: AppDbContext, id: string, isCustomer: bool, signedIn: Option<Customer>,
                     userName: Option<string>, now: Time) returns (r: ActionResult<Order>)
    requires db.Valid()
    modifies db
    ensures db.Valid()
    ensures isCustomer && !Owns(old(db.orders), signedIn, id) ==>
      r == Redirect("Index", "Order", Error(NotYourOrderToCancel)) && db.orders == old(db.orders)
    ensures !(isCustomer && !Owns(old(db.orders), signedIn, id)) ==>
      && r == Redirect("Index", "Order", Success(OrderCancelled(id)))
      && db.orders == if id in old(db.orders) then old(db.orders)[id := WithStatus(old(db.orders)[id], Cancelled, userName, now)]
                      else old(db.orders)
    ensures unchanged(db`customers, db`products, db`carts, db`cartItems, db`orderItems)
  {
    if isCustomer {
      var rows := CustomerOrders(db, signedIn);
      var owned := HasRow(rows, id);
      AnyRowIsOwnership(db, rows, signedIn, id);
      if !owned {
        return Redirect("Index", "Order", Error(NotYourOrderToCancel));
      }
    }
    var _ := UpdateOrderStatus(db, id, Cancelled, userName, now);
    r := Redirect("Index", "Order", Success(OrderCancelled(id)));
  }

  /** `Delete`: the order and its items are removed when it exists; the success message is
      shown either way. */
  method Delete(db: AppDbContext, id: string) returns (r: ActionResult<Order>)
    requires db.Valid()
    modifies db
    ensures db.Valid()
    ensures r == Redirect("Index", "Order", Success("Order deleted successfully!"))
    ensures db.orders == old(db.orders) - {id}
    ensures db.orderItems == if id in old(db.orders) then ItemsNotOf(old(db.orderItems), id) else old(db.orderItems)
    ensures unchanged(db`customers, db`products, db`carts, db`cartItems)
  {
    var _ := DeleteOrder(db, id);
    r := Redirect("Index", "Order", Success("Order deleted successfully!"));
  }
}
