/** Controllers/CustomerController.cs: the customer dashboard and the admin details page are
    aggregations over what the data service returned; Edit and Profile write through the data
    service. The signed-in user's claims are inputs. */
module CustomerController {
  import opened Wrappers
  import opened Text
  import opened Models
  import opened Cart
  import opened Data
  import opened Seqs
  import opened Web
  import opened SqlDataService

  const CustomerNotFound := "Customer profile not found. Please contact support."

  datatype DashboardView = DashboardView(
    customerName: string,
    customerEmail: string,
    cartItemCount: int,
    orderCount: nat,
    pendingOrders: nat,
    totalSpent: Money)

  /** The details page: the customer, their orders and what they add up to. */
  datatype CustomerDetails = CustomerDetails(customer: Customer, orders: seq<Order>, totalSpent: Money)

  function OwnedBy(customerId: string): Order -> bool {
    (o: Order) => o.customerId == customerId
  }

  /** The dashboard's "pending": Pending or Processing. */
  predicate IsOpen(o: Order) {
    o.status == Pending || o.status == Processing
  }

  /** The dashboard's "spent": Delivered or Shipped. */
  predicate IsFulfilled(o: Order) {
    o.status == Delivered || o.status == Shipped
  }

  function Amount(o: Order): int {
    o.totalAmount
  }

  /** `Dashboard`, given the customer the email lookup found, the orders `GetOrdersAsync`
      returned and the customer's cart. */
  function Dashboard(customer: Option<Customer>, allOrders: seq<Order>, cart: Option<LoadedCart>): (r: ActionResult<DashboardView>)
    ensures customer.None? <==> r == Redirect("Index", "Home", Error(CustomerNotFound))
    ensures customer.Some? ==> r.View? && r.errors == []
  {
    match customer
    case None => Redirect("Index", "Home", Error(CustomerNotFound))
    case Some(c) =>
      var mine := Filter(allOrders, OwnedBy(c.id));
      var cartItems := match cart case None => 0 case Some(lc) => TotalItems(lc.lines);
      View(DashboardView(FullName(c), c.email, cartItems, |mine|, Count(mine, IsOpen),
                         Sum(Filter(mine, IsFulfilled), Amount)), [])
  }

  function OpenAndOwnedBy(customerId: string): Order -> bool {
    (o: Order) => o.customerId == customerId && IsOpen(o)
  }

  function FulfilledAndOwnedBy(customerId: string): Order -> bool {
    (o: Order) => o.customerId == customerId && IsFulfilled(o)
  }

  /** What the dashboard shows: all of the customer's orders, the open ones among them (so never
      more than all), the total of the customer's Shipped or Delivered orders, and the cart's
      TotalItems or 0 without a cart. */
  lemma DashboardFigures(c: Customer, allOrders: seq<Order>, cart: Option<LoadedCart>)
    ensures var v := Dashboard(Some(c), allOrders, cart).model;
      && v.customerName == c.name + " " + c.surname && v.customerEmail == c.email
      && v.orderCount == Count(allOrders, OwnedBy(c.id))
      && v.pendingOrders <= v.orderCount
      && v.pendingOrders == Count(allOrders, OpenAndOwnedBy(c.id))
      && v.totalSpent == Sum(Filter(allOrders, FulfilledAndOwnedBy(c.id)), Amount)
      && v.cartItemCount == (if cart.Some? then TotalItems(cart.value.lines) else 0)
  {
    var mine := Filter(allOrders, OwnedBy(c.id));
    var v := Dashboard(Some(c), allOrders, cart).model;
    assert v.pendingOrders == Count(mine, IsOpen);
    assert v.totalSpent == Sum(Filter(mine, IsFulfilled), Amount);
    FilterTwice(allOrders, c.id);
    FilterFilter(allOrders, OwnedBy(c.id), IsFulfilled, FulfilledAndOwnedBy(c.id));
  }

  predicate NonNegativeAmounts(s: seq<Order>) {
    forall i :: 0 <= i < |s| ==> s[i].totalAmount >= 0
  }

  lemma {:induction false} FilterKeepsNonNegative(s: seq<Order>, p: Order -> bool)
    requires NonNegativeAmounts(s)
    ensures NonNegativeAmounts(Filter(s, p))
  {
    if s != [] {
      FilterKeepsNonNegative(s[1..], p);
      var head: seq<Order> := if p(s[0]) then [s[0]] else [];
      assert Filter(s, p) == head + Filter(s[1..], p);
    }
  }

  /** What the fulfilled orders cost is never more than what all of the customer's orders cost,
      when no amount is negative. */
  lemma DashboardSpentBound(c: Customer, allOrders: seq<Order>, cart: Option<LoadedCart>)
    requires NonNegativeAmounts(allOrders)
    ensures 0 <= Dashboard(Some(c), allOrders, cart).model.totalSpent <= Sum(Filter(allOrders, OwnedBy(c.id)), Amount)
  {
    var mine := Filter(allOrders, OwnedBy(c.id));
    FilterKeepsNonNegative(allOrders, OwnedBy(c.id));
    FilterKeepsNonNegative(mine, IsFulfilled);
    SumFilterAtMostSum(mine, IsFulfilled, Amount);
    NonNegativeSum(Filter(mine, IsFulfilled));
  }

  /** Counting the open orders among a customer's orders counts the customer's open orders. */
  lemma FilterTwice(s: seq<Order>, id: string)
    ensures Filter(Filter(s, OwnedBy(id)), IsOpen) == Filter(s, OpenAndOwnedBy(id))
  {
    FilterFilter(s, OwnedBy(id), IsOpen, OpenAndOwnedBy(id));
  }

  lemma {:induction false} NonNegativeSum(s: seq<Order>)
    requires NonNegativeAmounts(s)
    ensures Sum(s, Amount) >= 0
  {
    if s != [] {
      NonNegativeSum(s[1..]);
    }
  }

  /** `Details`: 404 for an empty id or a customer that is missing or Inactive; otherwise the
      customer's orders and the total of all of them, whatever their status. */
  function Details(id: Option<string>, customers: map<string, Customer>, allOrders: seq<Order>): (r: ActionResult<CustomerDetails>)
    ensures IsNullOrEmpty(id) ==> r.NotFound?
    ensures !IsNullOrEmpty(id) ==> (r.NotFound? <==> GetCustomer(customers, id.value).None?)
    ensures r.View? ==> && r.model.customer == customers[id.value]
                        && r.model.orders == Filter(allOrders, OwnedBy(id.value))
                        && r.model.totalSpent == Sum(r.model.orders, Amount)
  {
    if IsNullOrEmpty(id) then NotFound
    else match GetCustomer(customers, id.value)
      case None => NotFound
      case Some(c) =>
        var mine := Filter(allOrders, OwnedBy(id.value));
        View(CustomerDetails(c, mine, Sum(mine, Amount)), [])
  }

  /** The admin's total covers every order, so it is never below the dashboard's, which counts
      only fulfilled ones (with no negative amounts). */
  lemma DetailsTotalCoversDashboard(customers: map<string, Customer>, id: string, allOrders: seq<Order>, cart: Option<LoadedCart>)
    requires CustomersWellFormed(customers) && id != "" && GetCustomer(customers, id).Some?
    requires NonNegativeAmounts(allOrders)
    ensures Dashboard(GetCustomer(customers, id), allOrders, cart).model.totalSpent
         <= Details(Some(id), customers, allOrders).model.totalSpent
  {
    var c := customers[id];
    assert GetCustomer(customers, id) == Some(c);
    assert Details(Some(id), customers, allOrders).model.totalSpent == Sum(Filter(allOrders, OwnedBy(id)), Amount);
    DashboardSpentBound(c, allOrders, cart);
  }

  /** `Edit` (GET): 404 for a blank id or a customer that is missing or Inactive. */
  function EditForm(id: Option<string>, customers: map<string, Customer>): (r: ActionResult<Customer>)
    ensures r.NotFound? <==> IsNullOrWhiteSpace(id) || GetCustomer(customers, id.value).None?
    ensures r.View? ==> r.model == customers[id.value] && r.model.status == Active
  {
    if IsNullOrWhiteSpace(id) then NotFound
    else match GetCustomer(customers, id.value)
      case None => NotFound
      case Some(c) => View(c, [])
  }

  /** `Edit` (POST): 404 unless the route id is present and equals the posted customer's id;
      an invalid form comes back as it was; otherwise the update (whose outcome is not checked)
      and a redirect to the list. */
  method Edit(db: AppDbContext, id: Option<string>, customer: Customer, modelValid: bool, now: Time)
    returns (r: ActionResult<Customer>)
    requires db.Valid()
    modifies db
    ensures db.Valid()
    ensures r.NotFound? <==> IsNullOrEmpty(id) || id.value != customer.id
    ensures !r.Redirect? ==> db.customers == old(db.customers)
    ensures r.View? <==> !IsNullOrEmpty(id) && id.value == customer.id && !modelValid
    ensures r.Redirect? ==> r == Redirect("Index", "Customer", Success("Customer updated successfully!"))
    ensures r.Redirect? ==>
      (db.customers == if customer.id in old(db.customers) && IndexesAllow(old(db.customers), customer.id, customer.email, customer.username)
                       then old(db.customers)[customer.id := UpdatedCustomer(old(db.customers)[customer.id], customer, now)]
                       else old(db.customers))
    ensures unchanged(db`products, db`carts, db`cartItems, db`orders, db`orderItems)
  {
    if IsNullOrEmpty(id) || id.value != customer.id {
      return NotFound;
    }
    if !modelValid {
      return View(customer, []);
    }
    var _ := UpdateCustomer(db, customer.id, customer, now);
    r := Redirect("Index", "Customer", Success("Customer updated successfully!"));
  }

  /** The four fields the profile form may change. */
  function ProfileEdit(stored: Customer, model: Customer): (c: Customer)
    ensures c.name == model.name && c.surname == model.surname
    ensures c.phone == model.phone && c.shippingAddress == model.shippingAddress
    ensures c.id == stored.id && c.email == stored.email && c.username == stored.username
    ensures c.role == stored.role && c.status == stored.status && c.passwordHash == stored.passwordHash
  {
    stored.(name := model.name, surname := model.surname, phone := model.phone, shippingAddress := model.shippingAddress)
  }

  /** A stored customer's own email and username pass the unique indexes. */
  lemma StoredCustomerPassesIndexes(customers: map<string, Customer>, id: string)
    requires CustomersWellFormed(customers) && id in customers
    ensures IndexesAllow(customers, id, customers[id].email, customers[id].username)
  {
  }

  /** `Profile` (POST): the signed-in customer's record gets the form's Name, Surname, Phone and
      ShippingAddress (and a new Timestamp); nothing else of it changes. 404 when the user id
      names no Active customer. */
  method Profile(db: AppDbContext, userId: Option<string>, model: Customer, now: Time) returns (r: ActionResult<Customer>)
    requires db.Valid()
    modifies db
    ensures db.Valid()
    ensures r.NotFound? <==> userId.None? || GetCustomer(old(db.customers), userId.value).None?
    ensures r.NotFound? ==> db.customers == old(db.customers)
    ensures !r.NotFound? ==> && r == Redirect("Profile", "Customer", Success("Profile updated successfully!"))
                             && db.customers == old(db.customers)[userId.value := old(db.customers)[userId.value].(
                                  name := model.name, surname := model.surname, phone := model.phone,
                                  shippingAddress := model.shippingAddress, timestamp := now)]
    ensures unchanged(db`products, db`carts, db`cartItems, db`orders, db`orderItems)
  {
    if userId.None? {
      return NotFound;
    }
    var found := GetCustomer(db.customers, userId.value);
    if found.None? {
      return NotFound;
    }
    var edited := ProfileEdit(found.value, model);
    StoredCustomerPassesIndexes(db.customers, userId.value);
    var _ := UpdateCustomer(db, userId.value, edited, now);
    r := Redirect("Profile", "Customer", Success("Profile updated successfully!"));
  }
}
