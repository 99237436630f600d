/** The web application's data service (Services/SqlDataService.cs) over the database context.
    Lookups are functions of the tables; operations that save changes are methods on the context,
    each tied to a transition function on the tables it writes. Clock readings (`now`) and fresh
    GUIDs are inputs. A failed `SaveChanges` (a foreign-key or unique-index violation) is caught by
    the source and reported as `false`; the model then leaves the tables as they were. */
module SqlDataService {
  import opened Wrappers
  import opened Text
  import opened Models
  import opened Cart
  import opened Data

  // ---------------------------------------------------------------- customers

  /** `GetCustomerAsync`: the customer with this id, unless soft-deleted. */
  function GetCustomer(customers: map<string, Customer>, id: string): (r: Option<Customer>)
    ensures r.Some? <==> id in customers && customers[id].status == Active
    ensures r.Some? ==> r.value == customers[id]
  {
    if id in customers && customers[id].status == Active then Some(customers[id]) else None
  }

  /** The filter of `GetCustomerByEmailAsync`: same email ignoring case, and Active. */
  predicate MatchesEmailIgnoreCase(c: Customer, email: string) {
    ToLower(c.email) == ToLower(email) && c.status == Active
  }

  /** `GetCustomerByEmailAsync`: some Active customer whose email equals `email` ignoring case.
      Several customers can match (the unique index is on the exact email); which one the query
      returns is not specified. */
  method GetCustomerByEmail(db: AppDbContext, email: string) returns (r: Option<Customer>)
    ensures r.Some? ==> r.value in db.customers.Values && MatchesEmailIgnoreCase(r.value, email)
    ensures r.None? <==> forall k :: k in db.customers ==> !MatchesEmailIgnoreCase(db.customers[k], email)
  {
    if k :| k in db.customers && MatchesEmailIgnoreCase(db.customers[k], email) {
      r := Some(db.customers[k]);
    } else {
      r := None;
    }
  }

  function ActiveCustomerIds(customers: map<string, Customer>): set<string> {
    set k | k in customers && customers[k].status == Active
  }

  /** `GetCustomerCountAsync`. */
  function CustomerCount(customers: map<string, Customer>): nat {
    |ActiveCustomerIds(customers)|
  }

  /** The fields `UpdateCustomerAsync` copies onto the stored customer. */
  function UpdatedCustomer(existing: Customer, c: Customer, now: Time): (r: Customer)
    ensures r.id == existing.id && r.passwordHash == existing.passwordHash && r.role == existing.role
    ensures r.createdDate == existing.createdDate && r.ordersCount == existing.ordersCount
    ensures r.name == c.name && r.surname == c.surname && r.username == c.username && r.email == c.email
    ensures r.phone == c.phone && r.shippingAddress == c.shippingAddress && r.status == c.status
    ensures r.lastLogin == c.lastLogin && r.timestamp == now
  {
    existing.(name := c.name, surname := c.surname, username := c.username, email := c.email,
              phone := c.phone, shippingAddress := c.shippingAddress, status := c.status,
              lastLogin := c.lastLogin, timestamp := now)
  }

  /** The unique indexes on Email and Username accept row `id` with these values. */
  predicate IndexesAllow(customers: map<string, Customer>, id: string, email: string, username: string) {
    forall k :: k in customers && k != id ==> customers[k].email != email && customers[k].username != username
  }

  method UpdateCustomer(db: AppDbContext, id: string, customer: Customer, now: Time) returns (ok: bool)
    requires db.Valid()
    modifies db
    ensures db.Valid()
    ensures ok <==> id in old(db.customers) && IndexesAllow(old(db.customers), id, customer.email, customer.username)
    ensures db.customers == if ok then old(db.customers)[id := UpdatedCustomer(old(db.customers)[id], customer, now)]
                            else old(db.customers)
    ensures unchanged(db`products, db`carts, db`cartItems, db`orders, db`orderItems)
  {
    if id !in db.customers {
      return false;
    }
    if !IndexesAllow(db.customers, id, customer.email, customer.username) {
      return false;
    }
    db.customers := db.customers[id := UpdatedCustomer(db.customers[id], customer, now)];
    ok := true;
  }

  /** The soft delete of `DeleteCustomerAsync`: status Inactive, the record kept. */
  function DeactivatedCustomer(customers: map<string, Customer>, id: string, now: Time): map<string, Customer>
    requires id in customers
  {
    customers[id := customers[id].(status := Inactive, timestamp := now)]
  }

  method DeleteCustomer(db: AppDbContext, id: string, now: Time) returns (ok: bool)
    requires db.Valid()
    modifies db
    ensures db.Valid()
    ensures ok <==> id in old(db.customers)
    ensures db.customers == if ok then DeactivatedCustomer(old(db.customers), id, now) else old(db.customers)
    ensures unchanged(db`products, db`carts, db`cartItems, db`orders, db`orderItems)
  {
    if id !in db.customers {
      return false;
    }
    db.customers := DeactivatedCustomer(db.customers, id, now);
    ok := true;
  }

  /** After a soft delete the record is still stored, but no active lookup finds it and the
      active count drops by one if it was active. */
  lemma SoftDeleteCustomer(customers: map<string, Customer>, id: string, now: Time, email: string)
    requires id in customers
    ensures var after := DeactivatedCustomer(customers, id, now);
      && after.Keys == customers.Keys
      && after[id].status == Inactive
      && GetCustomer(after, id).None?
      && (forall k :: k in after && MatchesEmailIgnoreCase(after[k], email) ==> k != id)
      && CustomerCount(after) == CustomerCount(customers) - (if customers[id].status == Active then 1 else 0)
  {
    var after := DeactivatedCustomer(customers, id, now);
    assert ActiveCustomerIds(after) == ActiveCustomerIds(customers) - {id};
  }

  // ---------------------------------------------------------------- products

  /** `GetProductAsync`: the product with this id, unless soft-deleted. */
  function GetProduct(products: map<string, Product>, id: string): (r: Option<Product>)
    ensures r.Some? <==> id in products && products[id].isActive
    ensures r.Some? ==> r.value == products[id]
  {
    if id in products && products[id].isActive then Some(products[id]) else None
  }

  function ActiveProductIds(products: map<string, Product>): set<string> {
    set k | k in products && products[k].isActive
  }

  /** `GetProductCountAsync`. */
  function ProductCount(products: map<string, Product>): nat {
    |ActiveProductIds(products)|
  }

  /** `GetAllProductsAsync`: every active product once. The `OrderBy(ProductName)` is not part of
      this model. */
  method GetAllProducts(db: AppDbContext) returns (r: seq<Product>)
    requires db.Valid()
    ensures |r| == ProductCount(db.products)
    ensures forall i :: 0 <= i < |r| ==> r[i].id in db.products && db.products[r[i].id] == r[i] && r[i].isActive
    ensures forall i, j :: 0 <= i < j < |r| ==> r[i].id != r[j].id
    ensures forall k :: k in db.products && db.products[k].isActive ==> exists i :: 0 <= i < |r| && r[i].id == k
  {
    r := ListRows(db.products, ProductKey, ActiveProductIds(db.products));
    forall k | k in db.products && db.products[k].isActive ensures exists i :: 0 <= i < |r| && r[i].id == k {
      assert k in ActiveProductIds(db.products);
      var i :| 0 <= i < |r| && ProductKey(r[i]) == k;
    }
  }

  /** The fields `UpdateProductAsync` copies onto the stored product. */
  function UpdatedProduct(existing: Product, p: Product, now: Time): (r: Product)
    ensures r.id == existing.id
    ensures r.productName == p.productName && r.description == p.description && r.price == p.price
    ensures r.stockAvailable == p.stockAvailable && r.category == p.category && r.imageUrl == p.imageUrl
    ensures r.isActive == p.isActive && r.timestamp == now
  {
    existing.(productName := p.productName, description := p.description, price := p.price,
              stockAvailable := p.stockAvailable, category := p.category, imageUrl := p.imageUrl,
              isActive := p.isActive, timestamp := now)
  }

  method UpdateProduct(db: AppDbContext, id: string, product: Product, now: Time) returns (ok: bool)
    requires db.Valid()
    modifies db
    ensures db.Valid()
    ensures ok <==> id in old(db.products)
    ensures db.products == if ok then old(db.products)[id := UpdatedProduct(old(db.products)[id], product, now)]
                           else old(db.products)
    ensures unchanged(db`customers, db`carts, db`cartItems, db`orders, db`orderItems)
  {
    if id !in db.products {
      return false;
    }
    db.products := db.products[id := UpdatedProduct(db.products[id], product, now)];
    ok := true;
  }

  /** The soft delete of `DeleteProductAsync`: IsActive false, the record kept. */
  function DeactivatedProduct(products: map<string, Product>, id: string, now: Time): map<string, Product>
    requires id in products
  {
    products[id := products[id].(isActive := false, timestamp := now)]
  }

  method DeleteProduct(db: AppDbContext, id: string, now: Time) returns (ok: bool)
    requires db.Valid()
    modifies db
    ensures db.Valid()
    ensures ok <==> id in old(db.products)
    ensures db.products == if ok then DeactivatedProduct(old(db.products), id, now) else old(db.products)
    ensures unchanged(db`customers, db`carts, db`cartItems, db`orders, db`orderItems)
  {
    if id !in db.products {
      return false;
    }
    db.products := DeactivatedProduct(db.products, id, now);
    ok := true;
  }

  /** After a soft delete the product is still stored (so cart lines and order items that name
      it stay valid), but `GetProduct` no longer finds it and the count drops. */
  lemma SoftDeleteProduct(products: map<string, Product>, id: string, now: Time)
    requires id in products
    ensures var after := DeactivatedProduct(products, id, now);
      && after.Keys == products.Keys
      && !after[id].isActive
      && GetProduct(after, id).None?
      && ProductCount(after) == ProductCount(products) - (if products[id].isActive then 1 else 0)
  {
    var after := DeactivatedProduct(products, id, now);
    assert ActiveProductIds(after) == ActiveProductIds(products) - {id};
  }

  // ---------------------------------------------------------------- orders

  /** An order as `GetOrderAsync` / `GetAllOrdersAsync` return it: with its `Customer` and
      `OrderItems` navigations loaded. */
  datatype OrderGraph = OrderGraph(order: Order, customer: Option<Customer>, items: seq<OrderItem>)

  function ItemIdsOf(items: map<string, OrderItem>, orderId: string): set<string> {
    set k | k in items && items[k].orderId == orderId
  }

  /** `g` is order `g.order.id` as stored, with its customer and exactly its items. */
  ghost predicate Loaded(db: AppDbContext, g: OrderGraph)
    reads db
  {
    && g.order.id in db.orders && db.orders[g.order.id] == g.order
    && g.customer == (if g.order.customerId in db.customers then Some(db.customers[g.order.customerId]) else None)
    && |g.items| == |ItemIdsOf(db.orderItems, g.order.id)|
    && (forall i :: 0 <= i < |g.items| ==>
          g.items[i].id in db.orderItems && db.orderItems[g.items[i].id] == g.items[i] && g.items[i].orderId == g.order.id)
    && (forall i, j :: 0 <= i < j < |g.items| ==> g.items[i].id != g.items[j].id)
  }

  method LoadOrder(db: AppDbContext, id: string) returns (g: OrderGraph)
    requires db.Valid() && id in db.orders
    ensures g.order.id == id && Loaded(db, g)
  {
    var items := ListRows(db.orderItems, OrderItemKey, ItemIdsOf(db.orderItems, id));
    var order := db.orders[id];
    var customer := if order.customerId in db.customers then Some(db.customers[order.customerId]) else None;
    g := OrderGraph(order, customer, items);
  }

  /** `GetOrderAsync`. */
  method GetOrder(db: AppDbContext, id: string) returns (r: Option<OrderGraph>)
    requires db.Valid()
    ensures r.None? <==> id !in db.orders
    ensures r.Some? ==> r.value.order.id == id && Loaded(db, r.value)
  {
    if id !in db.orders {
      return None;
    }
    var g := LoadOrder(db, id);
    r := Some(g);
  }

  /** `GetAllOrdersAsync`: every order once, each loaded. The `OrderByDescending(OrderDate)` is not
      part of this model. */
  method GetAllOrders(db: AppDbContext) returns (r: seq<OrderGraph>)
    requires db.Valid()
    ensures |r| == |db.orders.Keys|
    ensures forall i :: 0 <= i < |r| ==> Loaded(db, r[i])
    ensures forall i, j :: 0 <= i < j < |r| ==> r[i].order.id != r[j].order.id
    ensures forall k :: k in db.orders ==> exists i :: 0 <= i < |r| && r[i].order.id == k
  {
    var orders := ListRows(db.orders, OrderKey, db.orders.Keys);
    r := [];
    var n := 0;
    while n < |orders|
      invariant n <= |orders| && |r| == n
      invariant forall i :: 0 <= i < n ==> r[i].order == orders[i] && Loaded(db, r[i])
    {
      var g := LoadOrder(db, orders[n].id);
      r := r + [g];
      n := n + 1;
    }
    forall k | k in db.orders ensures exists i :: 0 <= i < |r| && r[i].order.id == k {
      var i :| 0 <= i < |orders| && orders[i].id == k;
      assert r[i].order.id == k;
    }
  }

  /** `GetOrderCountAsync`. */
  function OrderCount(orders: map<string, Order>): nat {
    |orders.Keys|
  }

  function IdsOf(items: seq<OrderItem>): set<string> {
    set i | 0 <= i < |items| :: items[i].id
  }

  lemma IdsOfSnoc(items: seq<OrderItem>)
    requires items != []
    ensures IdsOf(items) == IdsOf(items[..|items| - 1]) + {items[|items| - 1].id}
  {
    var prefix := items[..|items| - 1];
    forall x | x in IdsOf(items) ensures x in IdsOf(prefix) + {items[|items| - 1].id} {
      var i :| 0 <= i < |items| && items[i].id == x;
      if i < |items| - 1 { assert prefix[i].id == x; }
    }
    forall x | x in IdsOf(prefix) ensures x in IdsOf(items) {
      var i :| 0 <= i < |prefix| && prefix[i].id == x;
      assert items[i].id == x;
    }
    assert items[|items| - 1].id in IdsOf(items);
  }

  /** The rows the order graph adds to the item table: each item under its own id, its
      `OrderId` fixed up to the new order's id. */
  function WithItemsAdded(table: map<string, OrderItem>, items: seq<OrderItem>, orderId: string): (r: map<string, OrderItem>)
    requires forall i, j :: 0 <= i < j < |items| ==> items[i].id != items[j].id
    ensures r.Keys == table.Keys + IdsOf(items)
    ensures forall i :: 0 <= i < |items| ==> r[items[i].id] == items[i].(orderId := orderId)
    ensures forall k :: k in table && k !in IdsOf(items) ==> r[k] == table[k]
  {
    if items == [] then table
    else
      var n := |items| - 1;
      var prefix := items[..n];
      assert forall i :: 0 <= i < n ==> prefix[i] == items[i] && items[i].id != items[n].id;
      var rest := WithItemsAdded(table, prefix, orderId);
      AddOneItem(table, items, orderId, rest);
      rest[items[n].id := items[n].(orderId := orderId)]
  }

  /** The step of `WithItemsAdded`: saving the last item on top of the others. */
  lemma AddOneItem(table: map<string, OrderItem>, items: seq<OrderItem>, orderId: string, rest: map<string, OrderItem>)
    requires items != []
    requires forall i, j :: 0 <= i < j < |items| ==> items[i].id != items[j].id
    requires rest.Keys == table.Keys + IdsOf(items[..|items| - 1])
    requires forall i :: 0 <= i < |items| - 1 ==> rest[items[..|items| - 1][i].id] == items[i].(orderId := orderId)
    requires forall k :: k in table && k !in IdsOf(items[..|items| - 1]) ==> rest[k] == table[k]
    ensures var r := rest[items[|items| - 1].id := items[|items| - 1].(orderId := orderId)];
      && r.Keys == table.Keys + IdsOf(items)
      && (forall i :: 0 <= i < |items| ==> r[items[i].id] == items[i].(orderId := orderId))
      && (forall k :: k in table && k !in IdsOf(items) ==> r[k] == table[k])
  {
    var n := |items| - 1;
    var r := rest[items[n].id := items[n].(orderId := orderId)];
    IdsOfSnoc(items);
    forall i | 0 <= i < |items| ensures r[items[i].id] == items[i].(orderId := orderId) {
      if i < n {
        assert items[..n][i] == items[i] && items[i].id != items[n].id;
      }
    }
  }

  /** `CreateOrderAsync` on an order graph: the order and its items are saved together, the
      order stamped with OrderDate and Timestamp. Saving fails on an unknown customer or product
      (both restrict foreign keys); nothing is written then. The ids are fresh GUIDs. */
  method CreateOrder(db: AppDbContext, order: Order, items: seq<OrderItem>, now: Time) returns (r: Option<Order>)
    requires db.Valid()
    requires order.id !in db.orders
    requires forall i :: 0 <= i < |items| ==> items[i].id !in db.orderItems
    requires forall i, j :: 0 <= i < j < |items| ==> items[i].id != items[j].id
    modifies db
    ensures db.Valid()
    ensures r.Some? <==> order.customerId in old(db.customers) &&
                         forall i :: 0 <= i < |items| ==> items[i].productId in old(db.products)
    ensures r.Some? ==> r.value == order.(orderDate := now, timestamp := now)
    ensures db.orders == if r.Some? then old(db.orders)[order.id := r.value] else old(db.orders)
    ensures db.orderItems == if r.Some? then WithItemsAdded(old(db.orderItems), items, order.id) else old(db.orderItems)
    ensures unchanged(db`customers, db`products, db`carts, db`cartItems)
  {
    if order.customerId !in db.customers || exists i :: 0 <= i < |items| && items[i].productId !in db.products {
      return None;
    }
    var saved := order.(orderDate := now, timestamp := now);
    var orders := db.orders[order.id := saved];
    var table := WithItemsAdded(db.orderItems, items, order.id);
    AddOrderKeepsSchema(db.orders, db.orderItems, db.customers, db.products, saved, items);
    db.orders, db.orderItems := orders, table;
    r := Some(saved);
  }

  /** Saving an order graph whose customer and products exist keeps the order tables well formed. */
  lemma AddOrderKeepsSchema(orders: map<string, Order>, table: map<string, OrderItem>, customers: map<string, Customer>,
                            products: map<string, Product>, order: Order, items: seq<OrderItem>)
    requires OrdersWellFormed(orders, customers) && OrderItemsWellFormed(table, orders, products)
    requires order.customerId in customers
    requires forall i :: 0 <= i < |items| ==> items[i].productId in products
    requires forall i, j :: 0 <= i < j < |items| ==> items[i].id != items[j].id
    ensures OrdersWellFormed(orders[order.id := order], customers)
    ensures OrderItemsWellFormed(WithItemsAdded(table, items, order.id), orders[order.id := order], products)
  {
    var after := WithItemsAdded(table, items, order.id);
    forall k | k in after
      ensures OrderItemKey(after[k]) == k && after[k].orderId in orders[order.id := order] && after[k].productId in products
    {
      if k in IdsOf(items) {
        var i :| 0 <= i < |items| && items[i].id == k;
        assert after[k] == items[i].(orderId := order.id);
      } else {
        assert k in table && after[k] == table[k];
      }
    }
  }

  /** The item table without the items of order `orderId`. */
  function ItemsNotOf(items: map<string, OrderItem>, orderId: string): (r: map<string, OrderItem>)
    ensures forall k :: k in r <==> k in items && items[k].orderId != orderId
    ensures forall k :: k in r ==> r[k] == items[k]
  {
    map k | k in items && items[k].orderId != orderId :: items[k]
  }

  /** `DeleteOrderAsync`: the order's items are removed with it. */
  method DeleteOrder(db: AppDbContext, id: string) returns (ok: bool)
    requires db.Valid()
    modifies db
    ensures db.Valid()
    ensures ok <==> id in old(db.orders)
    ensures db.orders == if ok then old(db.orders) - {id} else old(db.orders)
    ensures db.orderItems == if ok then ItemsNotOf(old(db.orderItems), id) else old(db.orderItems)
    ensures unchanged(db`customers, db`products, db`carts, db`cartItems)
  {
    if id !in db.orders {
      return false;
    }
    CascadeDelete(db.orderItems, db.orders, db.products, id);
    db.orderItems := ItemsNotOf(db.orderItems, id);
    db.orders := db.orders - {id};
    ok := true;
  }

  /** Removing an order together with its items keeps every remaining item's foreign keys;
      removing the order alone would leave its items dangling. */
  lemma CascadeDelete(items: map<string, OrderItem>, orders: map<string, Order>, products: map<string, Product>, id: string)
    requires OrderItemsWellFormed(items, orders, products)
    ensures OrderItemsWellFormed(ItemsNotOf(items, id), orders - {id}, products)
    ensures (exists k :: k in items && items[k].orderId == id) ==> !OrderItemsWellFormed(items, orders - {id}, products)
  {
  }

  /** The changes `UpdateOrderStatusAsync` makes to an order. ProcessedDate is stamped only for
      "Processed" and "Shipped". */
  function WithStatus(o: Order, status: string, processedBy: Option<string>, now: Time): (r: Order)
    ensures r.status == status && r.processedBy == processedBy && r.timestamp == now
    ensures r.processedDate == if status == "Processed" || status == Shipped then Some(now) else o.processedDate
    ensures r.id == o.id && r.customerId == o.customerId && r.orderDate == o.orderDate
    ensures r.totalAmount == o.totalAmount && r.shippingAddress == o.shippingAddress && r.customerNotes == o.customerNotes
  {
    var stamped := if status == "Processed" || status == Shipped then Some(now) else o.processedDate;
    o.(status := status, processedBy := processedBy, processedDate := stamped, timestamp := now)
  }

  /** The status values the application displays use "Processing", which the rule does not
      name: moving an order to "Processing" leaves ProcessedDate as it was and clears
      ProcessedBy when no actor is given. */
  lemma ProcessingIsNotStamped(o: Order, now: Time)
    ensures WithStatus(o, Processing, None, now).processedDate == o.processedDate
    ensures WithStatus(o, Processing, None, now).processedBy == None
  {
  }

  method UpdateOrderStatus(db: AppDbContext, id: string, status: string, processedBy: Option<string>, now: Time)
    returns (ok: bool)
    requires db.Valid()
    modifies db
    ensures db.Valid()
    ensures ok <==> id in old(db.orders)
    ensures db.orders == if ok then old(db.orders)[id := WithStatus(old(db.orders)[id], status, processedBy, now)]
                         else old(db.orders)
    ensures unchanged(db`customers, db`products, db`carts, db`cartItems, db`orderItems)
  {
    if id !in db.orders {
      return false;
    }
    db.orders := db.orders[id := WithStatus(db.orders[id], status, processedBy, now)];
    ok := true;
  }

  // ---------------------------------------------------------------- carts

  /** The cart of a customer (`FirstOrDefault(sc => sc.CustomerId == customerId)`). */
  ghost function CartOf(carts: map<string, ShoppingCart>, customerId: string): (r: Option<string>)
    ensures r.Some? ==> r.value in carts && carts[r.value].customerId == customerId
    ensures r.None? <==> forall k :: k in carts ==> carts[k].customerId != customerId
  {
    if k :| k in carts && carts[k].customerId == customerId then Some(k) else None
  }

  /** The line of a cart for a product (`cart.CartItems.FirstOrDefault(ci => ci.ProductId == productId)`). */
  ghost function LineOf(items: map<string, CartItem>, cartId: string, productId: string): (r: Option<string>)
    ensures r.Some? ==> r.value in items && items[r.value].cartId == cartId && items[r.value].productId == productId
    ensures r.None? <==> forall k :: k in items ==> !(items[k].cartId == cartId && items[k].productId == productId)
  {
    if k :| k in items && items[k].cartId == cartId && items[k].productId == productId then Some(k) else None
  }

  function LineIdsOf(items: map<string, CartItem>, cartId: string): set<string> {
    set k | k in items && items[k].cartId == cartId
  }

  /** A cart as `GetShoppingCartAsync` returns it, with its `CartItems` loaded. */
  datatype LoadedCart = LoadedCart(cart: ShoppingCart, lines: seq<CartItem>)

  method GetShoppingCart(db: AppDbContext, customerId: string) returns (r: Option<LoadedCart>)
    requires db.Valid()
    ensures r.None? <==> CartOf(db.carts, customerId).None?
    ensures r.Some? ==> CartOf(db.carts, customerId) == Some(r.value.cart.id) && db.carts[r.value.cart.id] == r.value.cart
    ensures r.Some? ==> var lines := r.value.lines;
      && |lines| == |LineIdsOf(db.cartItems, r.value.cart.id)|
      && (forall i :: 0 <= i < |lines| ==> lines[i].id in LineIdsOf(db.cartItems, r.value.cart.id) && db.cartItems[lines[i].id] == lines[i])
      && (forall i, j :: 0 <= i < j < |lines| ==> lines[i].id != lines[j].id)
  {
    if k :| k in db.carts && db.carts[k].customerId == customerId {
      var lines := ListRows(db.cartItems, CartItemKey, LineIdsOf(db.cartItems, k));
      r := Some(LoadedCart(db.carts[k], lines));
    } else {
      r := None;
    }
  }

  /** The two tables the cart operations write. */
  datatype CartTables = CartTables(carts: map<string, ShoppingCart>, items: map<string, CartItem>)

  /** What `AddToCartAsync` does to the cart tables, and what it returns. A customer without a cart
      first gets one (which fails on the foreign key when there is no such customer); a missing
      or inactive product then makes it return false, the new cart kept. An existing line for the
      product has its quantity raised; otherwise one line is added at the product's price. */
  ghost function AddToCartSpec(t: CartTables, customers: map<string, Customer>, products: map<string, Product>,
                               customerId: string, productId: string, quantity: int,
                               newCartId: string, newItemId: string, now: Time): (CartTables, bool)
  {
    var existing := CartOf(t.carts, customerId);
    if existing.None? && customerId !in customers then (t, false)
    else
      var cartId := existing.GetOr(newCartId);
      var carts := if existing.None? then t.carts[newCartId := ShoppingCart(newCartId, customerId, now, now)] else t.carts;
      match GetProduct(products, productId)
      case None => (CartTables(carts, t.items), false)
      case Some(p) =>
        var items := match LineOf(t.items, cartId, productId)
          case Some(k) => t.items[k := t.items[k].(quantity := t.items[k].quantity + quantity)]
          case None => t.items[newItemId := CartItem(newItemId, cartId, productId, quantity, p.price, now)];
        (CartTables(carts[cartId := carts[cartId].(lastModified := now)], items), true)
  }

  /** For a product already in the cart, AddToCart adds `quantity` to that line and adds no line. */
  lemma AddToExistingLine(t: CartTables, customers: map<string, Customer>, products: map<string, Product>,
                          customerId: string, productId: string, quantity: int,
                          newCartId: string, newItemId: string, now: Time, cartId: string, k: string)
    requires CartOf(t.carts, customerId) == Some(cartId) && GetProduct(products, productId).Some?
    requires LineOf(t.items, cartId, productId) == Some(k)
    ensures var (after, ok) := AddToCartSpec(t, customers, products, customerId, productId, quantity, newCartId, newItemId, now);
      && ok
      && after.items.Keys == t.items.Keys
      && after.items[k] == t.items[k].(quantity := t.items[k].quantity + quantity)
      && (forall k' :: k' in t.items && k' != k ==> after.items[k'] == t.items[k'])
  {
  }

  /** For a product not yet in the cart, AddToCart appends exactly one line priced at the
      product's current price. */
  lemma AddNewLine(t: CartTables, customers: map<string, Customer>, products: map<string, Product>,
                   customerId: string, productId: string, quantity: int,
                   newCartId: string, newItemId: string, now: Time)
    requires newItemId !in t.items
    requires CartOf(t.carts, customerId).Some? || customerId in customers
    requires GetProduct(products, productId).Some?
    requires LineOf(t.items, CartOf(t.carts, customerId).GetOr(newCartId), productId).None?
    ensures var (after, ok) := AddToCartSpec(t, customers, products, customerId, productId, quantity, newCartId, newItemId, now);
      && ok
      && after.items.Keys == t.items.Keys + {newItemId}
      && after.items[newItemId].productId == productId && after.items[newItemId].quantity == quantity
      && after.items[newItemId].unitPrice == products[productId].price
      && after.items[newItemId].cartId == CartOf(t.carts, customerId).GetOr(newCartId)
      && (forall k :: k in t.items ==> after.items[k] == t.items[k])
  {
  }

  /** A missing or inactive product: false, no line changes; a cart is still created for a
      customer who had none. */
  lemma AddMissingProduct(t: CartTables, customers: map<string, Customer>, products: map<string, Product>,
                          customerId: string, productId: string, quantity: int,
                          newCartId: string, newItemId: string, now: Time)
    requires GetProduct(products, productId).None?
    ensures var (after, ok) := AddToCartSpec(t, customers, products, customerId, productId, quantity, newCartId, newItemId, now);
      && !ok
      && after.items == t.items
      && (CartOf(t.carts, customerId).None? && customerId in customers ==>
            after.carts == t.carts[newCartId := ShoppingCart(newCartId, customerId, now, now)])
      && (CartOf(t.carts, customerId).Some? ==> after.carts == t.carts)
  {
  }

  /** AddToCart keeps at most one line per product in each cart. */
  lemma AddKeepsOneLinePerProduct(t: CartTables, customers: map<string, Customer>, products: map<string, Product>,
                                  customerId: string, productId: string, quantity: int,
                                  newCartId: string, newItemId: string, now: Time)
    requires OneLinePerProduct(t.items) && newItemId !in t.items
    ensures OneLinePerProduct(AddToCartSpec(t, customers, products, customerId, productId, quantity, newCartId, newItemId, now).0.items)
  {
    var existing := CartOf(t.carts, customerId);
    var cartId := existing.GetOr(newCartId);
    var after := AddToCartSpec(t, customers, products, customerId, productId, quantity, newCartId, newItemId, now).0.items;
    if !(existing.None? && customerId !in customers) && GetProduct(products, productId).Some? && LineOf(t.items, cartId, productId).None? {
      forall a, b | a in after && b in after && after[a].cartId == after[b].cartId && after[a].productId == after[b].productId
        ensures a == b
      {
        if a == newItemId || b == newItemId {
          assert after[newItemId].cartId == cartId && after[newItemId].productId == productId;
        }
      }
    }
  }

  /** A cart created for a customer who had none keeps the cart table well formed. */
  lemma NewCartKeepsSchema(carts: map<string, ShoppingCart>, customers: map<string, Customer>,
                           customerId: string, newCartId: string, now: Time)
    requires CartsWellFormed(carts, customers) && newCartId !in carts
    requires CartOf(carts, customerId).None? && customerId in customers
    ensures CartsWellFormed(carts[newCartId := ShoppingCart(newCartId, customerId, now, now)], customers)
  {
  }

  /** Changing a cart's LastModified keeps the cart table well formed. */
  lemma TouchKeepsSchema(carts: map<string, ShoppingCart>, customers: map<string, Customer>, cartId: string, now: Time)
    requires CartsWellFormed(carts, customers) && cartId in carts
    ensures CartsWellFormed(carts[cartId := carts[cartId].(lastModified := now)], customers)
  {
  }

  /** The line change of AddToCart keeps the line table's keys and foreign keys. */
  lemma LineChangeKeepsSchema(items: map<string, CartItem>, carts: map<string, ShoppingCart>, products: map<string, Product>,
                              cartId: string, productId: string, quantity: int, price: Money, newItemId: string, now: Time)
    requires KeyedById(items, CartItemKey)
    requires forall k :: k in items ==> items[k].cartId in carts && items[k].productId in products
    requires newItemId !in items && cartId in carts && productId in products
    ensures var after := match LineOf(items, cartId, productId)
          case Some(k) => items[k := items[k].(quantity := items[k].quantity + quantity)]
          case None => items[newItemId := CartItem(newItemId, cartId, productId, quantity, price, now)];
      && KeyedById(after, CartItemKey)
      && forall k :: k in after ==> after[k].cartId in carts && after[k].productId in products
  {
  }

  /** AddToCart keeps the carts' and lines' keys and foreign keys. */
  lemma AddKeepsSchema(t: CartTables, customers: map<string, Customer>, products: map<string, Product>,
                       customerId: string, productId: string, quantity: int,
                       newCartId: string, newItemId: string, now: Time)
    requires CartsWellFormed(t.carts, customers) && CartItemsWellFormed(t.items, t.carts, products)
    requires newCartId !in t.carts && newItemId !in t.items
    ensures var after := AddToCartSpec(t, customers, products, customerId, productId, quantity, newCartId, newItemId, now).0;
      CartsWellFormed(after.carts, customers) && CartItemsWellFormed(after.items, after.carts, products)
  {
    AddKeepsOneLinePerProduct(t, customers, products, customerId, productId, quantity, newCartId, newItemId, now);
    var existing := CartOf(t.carts, customerId);
    if !(existing.None? && customerId !in customers) {
      var cartId := existing.GetOr(newCartId);
      var carts := if existing.None? then t.carts[newCartId := ShoppingCart(newCartId, customerId, now, now)] else t.carts;
      if existing.None? {
        NewCartKeepsSchema(t.carts, customers, customerId, newCartId, now);
      }
      assert cartId in carts && carts.Keys >= t.carts.Keys;
      match GetProduct(products, productId)
      case None =>
      case Some(p) =>
        TouchKeepsSchema(carts, customers, cartId, now);
        LineChangeKeepsSchema(t.items, carts, products, cartId, productId, quantity, p.price, newItemId, now);
    }
  }

  /** The table changes of `AddToCartAsync`, on the two cart tables as values. The lookups pick
      any matching row; the unique indexes make that the row the specification names. */
  method AddToCartTables(t: CartTables, customers: map<string, Customer>, products: map<string, Product>,
                         customerId: string, productId: string, quantity: int,
                         newCartId: string, newItemId: string, now: Time) returns (after: CartTables, ok: bool)
    requires CartsWellFormed(t.carts, customers) && OneLinePerProduct(t.items)
    ensures (after, ok) == AddToCartSpec(t, customers, products, customerId, productId, quantity, newCartId, newItemId, now)
  {
    var carts, items := t.carts, t.items;
    var cartId: string;
    if k :| k in carts && carts[k].customerId == customerId {
      assert CartOf(t.carts, customerId) == Some(k);
      cartId := k;
    } else {
      if customerId !in customers {
        return t, false;
      }
      cartId := newCartId;
      carts := carts[newCartId := ShoppingCart(newCartId, customerId, now, now)];
    }
    var product := GetProduct(products, productId);
    if product.None? {
      return CartTables(carts, items), false;
    }
    if k :| k in items && items[k].cartId == cartId && items[k].productId == productId {
      assert LineOf(t.items, cartId, productId) == Some(k);
      items := items[k := items[k].(quantity := items[k].quantity + quantity)];
    } else {
      items := items[newItemId := CartItem(newItemId, cartId, productId, quantity, product.value.price, now)];
    }
    carts := carts[cartId := carts[cartId].(lastModified := now)];
    after, ok := CartTables(carts, items), true;
  }

  method AddToCart(db: AppDbContext, customerId: string, productId: string, quantity: int,
                   newCartId: string, newItemId: string, now: Time) returns (ok: bool)
    requires db.Valid()
    requires newCartId !in db.carts && newItemId !in db.cartItems
    modifies db
    ensures db.Valid()
    ensures (CartTables(db.carts, db.cartItems), ok)
         == AddToCartSpec(CartTables(old(db.carts), old(db.cartItems)), old(db.customers), old(db.products),
                          customerId, productId, quantity, newCartId, newItemId, now)
    ensures unchanged(db`customers, db`products, db`orders, db`orderItems)
  {
    var t := CartTables(db.carts, db.cartItems);
    AddKeepsSchema(t, db.customers, db.products, customerId, productId, quantity, newCartId, newItemId, now);
    var after;
    after, ok := AddToCartTables(t, db.customers, db.products, customerId, productId, quantity, newCartId, newItemId, now);
    db.carts, db.cartItems := after.carts, after.items;
  }

  /** What `RemoveFromCartAsync` does: false without a cart or without a line for the product;
      otherwise that line is deleted. */
  ghost function RemoveFromCartSpec(t: CartTables, customerId: string, productId: string, now: Time): (CartTables, bool) {
    match CartOf(t.carts, customerId)
    case None => (t, false)
    case Some(c) =>
      match LineOf(t.items, c, productId)
      case None => (t, false)
      case Some(k) => (CartTables(t.carts[c := t.carts[c].(lastModified := now)], t.items - {k}), true)
  }

  /** A successful removal deletes exactly one line, leaves the cart with no line for that
      product (at most one existed), and leaves every other line untouched. */
  lemma RemoveDeletesOnlyThatLine(t: CartTables, customerId: string, productId: string, now: Time)
    requires OneLinePerProduct(t.items)
    ensures var (after, ok) := RemoveFromCartSpec(t, customerId, productId, now);
      && (ok <==> CartOf(t.carts, customerId).Some? && LineOf(t.items, CartOf(t.carts, customerId).value, productId).Some?)
      && (!ok ==> after == t)
      && (ok ==> var c := CartOf(t.carts, customerId).value;
            && |after.items.Keys| == |t.items.Keys| - 1
            && LineOf(after.items, c, productId).None?
            && (forall k :: k in after.items ==> k in t.items && after.items[k] == t.items[k])
            && (forall k :: k in t.items && !(t.items[k].cartId == c && t.items[k].productId == productId) ==> k in after.items))
  {
    var (after, ok) := RemoveFromCartSpec(t, customerId, productId, now);
    if ok {
      var c := CartOf(t.carts, customerId).value;
      var k := LineOf(t.items, c, productId).value;
      assert t.items.Keys - {k} == after.items.Keys;
    }
  }

  /** Deleting a line and touching its cart keep the cart tables well formed. */
  lemma RemoveKeepsSchema(t: CartTables, customers: map<string, Customer>, products: map<string, Product>,
                          customerId: string, productId: string, now: Time)
    requires CartsWellFormed(t.carts, customers) && CartItemsWellFormed(t.items, t.carts, products)
    ensures var after := RemoveFromCartSpec(t, customerId, productId, now).0;
      CartsWellFormed(after.carts, customers) && CartItemsWellFormed(after.items, after.carts, products)
  {
    match CartOf(t.carts, customerId)
    case None =>
    case Some(c) =>
      TouchKeepsSchema(t.carts, customers, c, now);
  }

  /** The table changes of `RemoveFromCartAsync`, on the two cart tables as values. */
  method RemoveFromCartTables(t: CartTables, customers: map<string, Customer>, customerId: string, productId: string,
                              now: Time) returns (after: CartTables, ok: bool)
    requires CartsWellFormed(t.carts, customers) && OneLinePerProduct(t.items)
    ensures (after, ok) == RemoveFromCartSpec(t, customerId, productId, now)
  {
    if c :| c in t.carts && t.carts[c].customerId == customerId {
      assert CartOf(t.carts, customerId) == Some(c);
      if k :| k in t.items && t.items[k].cartId == c && t.items[k].productId == productId {
        assert LineOf(t.items, c, productId) == Some(k);
        return CartTables(t.carts[c := t.carts[c].(lastModified := now)], t.items - {k}), true;
      }
    }
    after, ok := t, false;
  }

  method RemoveFromCart(db: AppDbContext, customerId: string, productId: string, now: Time) returns (ok: bool)
    requires db.Valid()
    modifies db
    ensures db.Valid()
    ensures (CartTables(db.carts, db.cartItems), ok) == RemoveFromCartSpec(CartTables(old(db.carts), old(db.cartItems)), customerId, productId, now)
    ensures unchanged(db`customers, db`products, db`orders, db`orderItems)
  {
    var t := CartTables(db.carts, db.cartItems);
    RemoveKeepsSchema(t, db.customers, db.products, customerId, productId, now);
    var after;
    after, ok := RemoveFromCartTables(t, db.customers, customerId, productId, now);
    db.carts, db.cartItems := after.carts, after.items;
  }

  /** What `ClearShoppingCartAsync` does: false without a cart; otherwise every line of the cart
      is deleted. */
  ghost function ClearCartSpec(t: CartTables, customerId: string, now: Time): (CartTables, bool) {
    match CartOf(t.carts, customerId)
    case None => (t, false)
    case Some(c) =>
      (CartTables(t.carts[c := t.carts[c].(lastModified := now)], map k | k in t.items && t.items[k].cartId != c :: t.items[k]), true)
  }

  /** After a successful clear the cart has no lines; lines of other carts are untouched. */
  lemma ClearEmptiesTheCart(t: CartTables, customerId: string, now: Time)
    ensures var (after, ok) := ClearCartSpec(t, customerId, now);
      && (ok <==> CartOf(t.carts, customerId).Some?)
      && (!ok ==> after == t)
      && (ok ==> var c := CartOf(t.carts, customerId).value;
            && c in after.carts
            && LineIdsOf(after.items, c) == {}
            && (forall k :: k in t.items && t.items[k].cartId != c ==> k in after.items && after.items[k] == t.items[k]))
  {
    var (after, ok) := ClearCartSpec(t, customerId, now);
    if ok {
      var c := CartOf(t.carts, customerId).value;
      assert LineIdsOf(after.items, c) == {};
    }
  }

  /** Deleting a cart's lines and touching the cart keep the cart tables well formed. */
  lemma ClearKeepsSchema(t: CartTables, customers: map<string, Customer>, products: map<string, Product>,
                         customerId: string, now: Time)
    requires CartsWellFormed(t.carts, customers) && CartItemsWellFormed(t.items, t.carts, products)
    ensures var after := ClearCartSpec(t, customerId, now).0;
      CartsWellFormed(after.carts, customers) && CartItemsWellFormed(after.items, after.carts, products)
  {
    match CartOf(t.carts, customerId)
    case None =>
    case Some(c) =>
      TouchKeepsSchema(t.carts, customers, c, now);
  }

  /** The table changes of `ClearShoppingCartAsync`, on the two cart tables as values. */
  method ClearCartTables(t: CartTables, customers: map<string, Customer>, customerId: string, now: Time)
    returns (after: CartTables, ok: bool)
    requires CartsWellFormed(t.carts, customers)
    ensures (after, ok) == ClearCartSpec(t, customerId, now)
  {
    if c :| c in t.carts && t.carts[c].customerId == customerId {
      assert CartOf(t.carts, customerId) == Some(c);
      var items := map k | k in t.items && t.items[k].cartId != c :: t.items[k];
      return CartTables(t.carts[c := t.carts[c].(lastModified := now)], items), true;
    }
    after, ok := t, false;
  }

  method ClearShoppingCart(db: AppDbContext, customerId: string, now: Time) returns (ok: bool)
    requires db.Valid()
    modifies db
    ensures db.Valid()
    ensures (CartTables(db.carts, db.cartItems), ok) == ClearCartSpec(CartTables(old(db.carts), old(db.cartItems)), customerId, now)
    ensures unchanged(db`customers, db`products, db`orders, db`orderItems)
  {
    var t := CartTables(db.carts, db.cartItems);
    ClearKeepsSchema(t, db.customers, db.products, customerId, now);
    var after;
    after, ok := ClearCartTables(t, db.customers, customerId, now);
    db.carts, db.cartItems := after.carts, after.items;
  }
}
