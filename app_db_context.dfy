/** The web application's database (Data/ApplicationDBContext.cs): one table per entity, each a
    map from primary key to row. `Valid` collects the schema's keys, unique indexes and foreign
    keys, plus the one-line-per-product rule the cart operations maintain. */
module Data {
  import opened Wrappers
  import opened Models
  import opened Cart

  /** Every row is stored under its own primary key. */
  ghost predicate KeyedById<T>(table: map<string, T>, key: T -> string) {
    forall k :: k in table ==> key(table[k]) == k
  }

  /** Primary key plus the unique indexes on Email and on Username. */
  ghost predicate CustomersWellFormed(customers: map<string, Customer>) {
    && KeyedById(customers, CustomerKey)
    && (forall a, b :: a in customers && b in customers && customers[a].email == customers[b].email ==> a == b)
    && (forall a, b :: a in customers && b in customers && customers[a].username == customers[b].username ==> a == b)
  }

  /** A cart belongs to an existing customer, and a customer has at most one cart (the
      one-to-one relation between the two). */
  ghost predicate CartsWellFormed(carts: map<string, ShoppingCart>, customers: map<string, Customer>) {
    && KeyedById(carts, CartKey)
    && (forall k :: k in carts ==> carts[k].customerId in customers)
    && (forall a, b :: a in carts && b in carts && carts[a].customerId == carts[b].customerId ==> a == b)
  }

  /** At most one line per product in each cart. */
  ghost predicate OneLinePerProduct(items: map<string, CartItem>) {
    forall a, b ::
      (a in items && b in items && items[a].cartId == items[b].cartId && items[a].productId == items[b].productId)
      ==> a == b
  }

  /** A line belongs to an existing cart (cascade) and names an existing product (restrict). */
  ghost predicate CartItemsWellFormed(items: map<string, CartItem>, carts: map<string, ShoppingCart>,
                                      products: map<string, Product>) {
    && KeyedById(items, CartItemKey)
    && (forall k :: k in items ==> items[k].cartId in carts && items[k].productId in products)
    && OneLinePerProduct(items)
  }

  /** An order belongs to an existing customer (restrict). */
  ghost predicate OrdersWellFormed(orders: map<string, Order>, customers: map<string, Customer>) {
    && KeyedById(orders, OrderKey)
    && (forall k :: k in orders ==> orders[k].customerId in customers)
  }

  /** An order item belongs to an existing order (cascade) and names an existing product
      (restrict). */
  ghost predicate OrderItemsWellFormed(items: map<string, OrderItem>, orders: map<string, Order>,
                                       products: map<string, Product>) {
    && KeyedById(items, OrderItemKey)
    && (forall k :: k in items ==> items[k].orderId in orders && items[k].productId in products)
  }

  /** All schema rules over the six tables. */
  ghost predicate Consistent(customers: map<string, Customer>, products: map<string, Product>,
                             carts: map<string, ShoppingCart>, cartItems: map<string, CartItem>,
                             orders: map<string, Order>, orderItems: map<string, OrderItem>) {
    && CustomersWellFormed(customers)
    && KeyedById(products, ProductKey)
    && CartsWellFormed(carts, customers)
    && CartItemsWellFormed(cartItems, carts, products)
    && OrdersWellFormed(orders, customers)
    && OrderItemsWellFormed(orderItems, orders, products)
  }

  class AppDbContext {
    var customers: map<string, Customer>
    var products: map<string, Product>
    var carts: map<string, ShoppingCart>
    var cartItems: map<string, CartItem>
    var orders: map<string, Order>
    var orderItems: map<string, OrderItem>

    ghost predicate Valid()
      reads this
    {
      Consistent(customers, products, carts, cartItems, orders, orderItems)
    }

    /** An empty database. */
    constructor ()
      ensures Valid()
      ensures customers == map[] && products == map[] && carts == map[]
      ensures cartItems == map[] && orders == map[] && orderItems == map[]
    {
      customers, products, carts := map[], map[], map[];
      cartItems, orders, orderItems := map[], map[], map[];
    }
  }

  /** `rows` lists the rows of `table` under the keys `done`, each exactly once, as stored. */
  ghost predicate ListsRows<T>(table: map<string, T>, key: T -> string, done: set<string>, rows: seq<T>) {
    && |rows| == |done|
    && (forall i :: 0 <= i < |rows| ==> key(rows[i]) in done && key(rows[i]) in table && table[key(rows[i])] == rows[i])
    && (forall i, j :: 0 <= i < j < |rows| ==> key(rows[i]) != key(rows[j]))
    && (forall k :: k in done ==> exists i :: 0 <= i < |rows| && key(rows[i]) == k)
  }

  /** Appending the row of one more key keeps the listing exact. */
  lemma ListOneMore<T>(table: map<string, T>, key: T -> string, done: set<string>, rows: seq<T>, k: string)
    requires KeyedById(table, key) && ListsRows(table, key, done, rows)
    requires k in table && k !in done
    ensures ListsRows(table, key, done + {k}, rows + [table[k]])
  {
    assert key(table[k]) == k;
    var after := rows + [table[k]];
    forall k' | k' in done + {k} ensures exists i :: 0 <= i < |after| && key(after[i]) == k' {
      if k' == k {
        assert key(after[|rows|]) == k';
      } else {
        var i :| 0 <= i < |rows| && key(rows[i]) == k';
        assert key(after[i]) == k';
      }
    }
  }

  /** The rows of `table` whose keys are `keys`, each exactly once, in an order the model leaves
      open (`ToListAsync` on a query without `OrderBy`). */
  method ListRows<T>(table: map<string, T>, key: T -> string, keys: set<string>) returns (rows: seq<T>)
    requires KeyedById(table, key) && keys <= table.Keys
    ensures |rows| == |keys|
    ensures forall i :: 0 <= i < |rows| ==> key(rows[i]) in keys && table[key(rows[i])] == rows[i]
    ensures forall i, j :: 0 <= i < j < |rows| ==> key(rows[i]) != key(rows[j])
    ensures forall k :: k in keys ==> exists i :: 0 <= i < |rows| && key(rows[i]) == k
  {
    rows := [];
    var rest := keys;
    ghost var done: set<string> := {};
    while rest != {}
      invariant done !! rest && done + rest == keys
      invariant ListsRows(table, key, done, rows)
      decreases |rest|
    {
      var k :| k in rest;
      ListOneMore(table, key, done, rows, k);
      rows := rows + [table[k]];
      done, rest := done + {k}, rest - {k};
    }
    assert done == keys;
  }
}
