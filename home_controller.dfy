/** Controllers/HomeController.cs: the landing page and the customer dashboard. The signed-in
    user's role and email claims are inputs. */
module HomeController {
  import opened Wrappers
  import opened Models
  import opened Data
  import opened Seqs
  import opened SqlDataService
  import opened OrderService

  const FeaturedCount := 8

  datatype HomeView = HomeView(
    featured: seq<Product>,
    productCount: nat,
    customerCount: nat,
    orderCount: nat,
    isAdmin: bool,
    isAuthenticated: bool)

  datatype CustomerDashboardView = CustomerDashboardView(
    featured: seq<Product>,
    orderCount: nat,
    pendingOrders: nat,
    cartItemCount: int)

  /** A featured product: active and in stock. */
  predicate InStock(p: Product) {
    p.isActive && p.stockAvailable > 0
  }

  /** The first eight in-stock products of the list, in list order: a prefix of the in-stock
      products, as long as there are of them up to eight. */
  function Featured(products: seq<Product>): (r: seq<Product>)
    ensures r <= Filter(products, InStock)
    ensures |r| == if Count(products, InStock) <= FeaturedCount then Count(products, InStock) else FeaturedCount
    ensures |r| <= FeaturedCount
    ensures forall i :: 0 <= i < |r| ==> InStock(r[i]) && r[i] in products
    ensures |r| < FeaturedCount ==> forall i :: 0 <= i < |products| && InStock(products[i]) ==> products[i] in r
  {
    Take(Filter(products, InStock), FeaturedCount)
  }

  /** `Index`: up to eight featured products, every one an active stored product in stock; when
      fewer than eight are shown, every such product is among them. The product count is that of
      the active products; an admin also sees the customer and order counts, anyone else zeros. */
  method Index(db: AppDbContext, isAdmin: bool, isAuthenticated: bool) returns (v: HomeView)
    requires db.Valid()
    ensures |v.featured| <= FeaturedCount
    ensures forall i :: 0 <= i < |v.featured| ==>
      v.featured[i].id in db.products && db.products[v.featured[i].id] == v.featured[i] && InStock(v.featured[i])
    ensures |v.featured| < FeaturedCount ==>
      forall k :: k in db.products && InStock(db.products[k]) ==> exists i :: 0 <= i < |v.featured| && v.featured[i].id == k
    ensures v.productCount == ProductCount(db.products)
    ensures v.customerCount == if isAdmin then CustomerCount(db.customers) else 0
    ensures v.orderCount == if isAdmin then OrderCount(db.orders) else 0
    ensures v.isAdmin == isAdmin && v.isAuthenticated == isAuthenticated
  {
    var products := GetAllProducts(db);
    var featured := Featured(products);
    forall k | k in db.products && InStock(db.products[k]) && |featured| < FeaturedCount
      ensures exists i :: 0 <= i < |featured| && featured[i].id == k
    {
      var j :| 0 <= j < |products| && products[j].id == k;
      assert products[j] in featured;
    }
    v := HomeView(featured, |products|,
                  if isAdmin then CustomerCount(db.customers) else 0,
                  if isAdmin then OrderCount(db.orders) else 0,
                  isAdmin, isAuthenticated);
  }

  /** The customer dashboard's "pending": exactly "Pending" (a "Processing" order is not counted). */
  predicate IsPendingRow(v: OrderView) {
    v.status == Pending
  }

  function RowOfEmail(email: Option<string>): OrderView -> bool {
    (v: OrderView) => Some(v.email) == email
  }

  function PendingRowOfEmail(email: Option<string>): OrderView -> bool {
    (v: OrderView) => Some(v.email) == email && IsPendingRow(v)
  }

  /** `CustomerDashboard`, given the email claim, the products and the order rows the services
      returned: every in-stock product (no limit of eight here), the rows whose email is the
      claim's (none without a claim), how many of those are Pending (the caller's Pending rows), and a cart count of 0 (the
      page fills it in on the client). */
  function CustomerDashboard(userEmail: Option<string>, products: seq<Product>, rows: seq<OrderView>): (v: CustomerDashboardView)
    ensures forall i :: 0 <= i < |v.featured| ==> InStock(v.featured[i]) && v.featured[i] in products
    ensures forall i :: 0 <= i < |products| && InStock(products[i]) ==> products[i] in v.featured
    ensures v.orderCount == Count(rows, RowOfEmail(userEmail))
    ensures v.pendingOrders <= v.orderCount
    ensures v.pendingOrders == Count(rows, PendingRowOfEmail(userEmail))
    ensures v.cartItemCount == 0
  {
    var mine := Filter(rows, RowOfEmail(userEmail));
    FilterFilter(rows, RowOfEmail(userEmail), IsPendingRow, PendingRowOfEmail(userEmail));
    CustomerDashboardView(Filter(products, InStock), |mine|, Count(mine, IsPendingRow), 0)
  }

  /** Without an email claim no order row is the customer's. */
  lemma {:induction false} NoEmailNoOrders(products: seq<Product>, rows: seq<OrderView>)
    ensures CustomerDashboard(None, products, rows).orderCount == 0
    ensures CustomerDashboard(None, products, rows).pendingOrders == 0
  {
    if rows != [] {
      NoEmailNoOrders(products, rows[1..]);
    }
  }

  /** Nine in-stock products: the landing page features eight, the customer dashboard all nine. */
  lemma DashboardShowsMoreThanIndex(p: Product)
    requires InStock(p)
    ensures var nine := seq(9, i => p);
      |Featured(nine)| == 8 && |CustomerDashboard(None, nine, []).featured| == 9
  {
    var nine := seq(9, i => p);
    FilterKeepsAll(nine, InStock);
  }
}
