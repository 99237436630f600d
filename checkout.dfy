/** The checkout of Controllers/OrderController.cs (`Create`, GET and POST) as functions of the
    cart and the product table: the form's validation, the first product or stock problem, the
    stock each line takes away, the order items and the order the POST saves. */
module Checkout {
  import opened Wrappers
  import opened Text
  import opened Models
  import opened Seqs
  import opened SqlDataService
  import Web

  /** A line of the cart the browser posts (`CartItemViewModel`): product id, name, unit price
      and quantity. */
  datatype CartLine = CartLine(id: string, name: string, price: Money, quantity: int)

  /** `OrderCreateViewModel`. */
  datatype OrderCreateForm = OrderCreateForm(
    customerId: string,
    shippingAddress: string,
    customerNotes: Option<string>,
    orderDate: Time,
    status: string,
    cartItems: seq<CartLine>,
    totalAmount: Money)

  const MaxAddressLength := 500
  const MaxNotesLength := 500

  /** The data-annotation messages of the form, attribute by attribute: CustomerId and
      ShippingAddress are required (not blank), ShippingAddress and CustomerNotes have at most
      500 characters. */
  function FormErrors(f: OrderCreateForm): (errs: seq<string>)
    ensures errs == [] <==> && !IsNullOrWhiteSpace(Some(f.customerId))
                            && !IsNullOrWhiteSpace(Some(f.shippingAddress))
                            && |f.shippingAddress| <= MaxAddressLength
                            && (f.customerNotes.Some? ==> |f.customerNotes.value| <= MaxNotesLength)
    ensures |errs| <= 4
  {
    (if IsNullOrWhiteSpace(Some(f.customerId)) then ["Please select a customer"] else [])
    + (if IsNullOrWhiteSpace(Some(f.shippingAddress)) then ["Shipping address is required"] else [])
    + (if |f.shippingAddress| > MaxAddressLength then ["Shipping address cannot exceed 500 characters"] else [])
    + (if f.customerNotes.Some? && |f.customerNotes.value| > MaxNotesLength then ["Notes cannot exceed 500 characters"] else [])
  }

  function LineTotal(l: CartLine): int {
    l.price * l.quantity
  }

  /** `cartItems.Sum(item => item.Price * item.Quantity)`. */
  function CartTotal(lines: seq<CartLine>): Money {
    Sum(lines, LineTotal)
  }

  const CartParseFailed := "Error loading cart data. Please try again."
  const CartEmpty := "Your cart is empty. Please add products to your cart first."
  const CustomerNotFound := "Customer profile not found. Please contact support."

  /** What `Create` (GET) does with the `cart` query value, given the JSON parser (`None` for a
      value it throws on) and the customer the email lookup found: a redirect home when parsing
      fails, the cart is empty or there is no customer; otherwise the form with the customer's
      id and address, status Pending, the lines and their total. A missing `cart` value is an
      empty cart. */
  function CreateForm(cartData: Option<string>, parse: string -> Option<seq<CartLine>>,
                      customer: Option<Customer>, today: Time): (r: Web.ActionResult<OrderCreateForm>)
    ensures !IsNullOrEmpty(cartData) && parse(cartData.value).None? ==>
      r == Web.Redirect("Index", "Home", Web.Error(CartParseFailed))
    ensures (IsNullOrEmpty(cartData) || parse(cartData.value) == Some([])) ==>
      r == Web.Redirect("Index", "Home", Web.Error(CartEmpty))
    ensures && !IsNullOrEmpty(cartData) && parse(cartData.value).Some? && parse(cartData.value).value != []
            && customer.None? ==>
      r == Web.Redirect("Index", "Home", Web.Error(CustomerNotFound))
    ensures r.View? <==> && !IsNullOrEmpty(cartData) && parse(cartData.value).Some?
                         && parse(cartData.value).value != [] && customer.Some?
    ensures r.View? ==> && r.errors == []
                        && r.model.cartItems == parse(cartData.value).value
                        && r.model.customerId == customer.value.id
                        && r.model.shippingAddress == customer.value.shippingAddress
                        && r.model.status == Pending && r.model.customerNotes.None? && r.model.orderDate == today
                        && r.model.totalAmount == CartTotal(r.model.cartItems)
  {
    if !IsNullOrEmpty(cartData) && parse(cartData.value).None? then
      Web.Redirect("Index", "Home", Web.Error(CartParseFailed))
    else
      var lines := if IsNullOrEmpty(cartData) then [] else parse(cartData.value).value;
      if lines == [] then Web.Redirect("Index", "Home", Web.Error(CartEmpty))
      else if customer.None? then Web.Redirect("Index", "Home", Web.Error(CustomerNotFound))
      else
        var c := customer.value;
        Web.View(OrderCreateForm(c.id, c.shippingAddress, None, today, Pending, lines, CartTotal(lines)), [])
  }

  // ------------------------------------------------------------ validation

  function ProductNotFound(name: string): string {
    "Product '" + name + "' not found."
  }

  function InsufficientStock(name: string, available: int): string {
    "Insufficient stock for '" + name + "'. Only " + IntToString(available) + " available."
  }

  /** A line passes validation: its product is found (and active) and has at least the line's
      quantity in stock. */
  predicate LineFits(products: map<string, Product>, line: CartLine) {
    GetProduct(products, line.id).Some? && products[line.id].stockAvailable >= line.quantity
  }

  /** The message for a line that does not pass. */
  function LineProblem(products: map<string, Product>, line: CartLine): (r: Option<string>)
    ensures r.None? <==> LineFits(products, line)
    ensures GetProduct(products, line.id).None? ==> r == Some(ProductNotFound(line.name))
  {
    match GetProduct(products, line.id)
    case None => Some(ProductNotFound(line.name))
    case Some(p) =>
      if p.stockAvailable < line.quantity then Some(InsufficientStock(line.name, p.stockAvailable)) else None
  }

  /** The validation loop: the message of the first line that does not pass, if any. */
  function FirstProblem(products: map<string, Product>, lines: seq<CartLine>): (r: Option<string>)
    ensures lines == [] ==> r.None?
  {
    if lines == [] then None
    else if LineProblem(products, lines[0]).Some? then LineProblem(products, lines[0])
    else FirstProblem(products, lines[1..])
  }

  /** Validation passes exactly when every line fits; when it does not, the message is that of
      a line that does not fit, every line before which fits. */
  lemma {:induction false} FirstProblemIsFirst(products: map<string, Product>, lines: seq<CartLine>)
    ensures FirstProblem(products, lines).None? <==> forall i :: 0 <= i < |lines| ==> LineFits(products, lines[i])
    ensures FirstProblem(products, lines).Some? ==>
      exists i :: && 0 <= i < |lines| && FirstProblem(products, lines) == LineProblem(products, lines[i])
                  && !LineFits(products, lines[i])
                  && forall j :: 0 <= j < i ==> LineFits(products, lines[j])
  {
    if lines != [] {
      FirstProblemIsFirst(products, lines[1..]);
      if LineProblem(products, lines[0]).None? && FirstProblem(products, lines[1..]).Some? {
        var i :| && 0 <= i < |lines[1..]| && FirstProblem(products, lines[1..]) == LineProblem(products, lines[1..][i])
                 && !LineFits(products, lines[1..][i])
                 && forall j :: 0 <= j < i ==> LineFits(products, lines[1..][j]);
        assert forall j :: 0 <= j < i + 1 ==> LineFits(products, lines[j]) by {
          forall j | 0 <= j < i + 1 ensures LineFits(products, lines[j]) {
            if j > 0 { assert lines[j] == lines[1..][j - 1]; }
          }
        }
        assert lines[i + 1] == lines[1..][i];
      }
      if FirstProblem(products, lines[1..]).None? && LineProblem(products, lines[0]).None? {
        forall i | 0 <= i < |lines| ensures LineFits(products, lines[i]) {
          if i > 0 { assert lines[i] == lines[1..][i - 1]; }
        }
      }
    }
  }

  // ------------------------------------------------------------ stock

  /** What the commit loop does for one line: the product's stock drops by the line's quantity
      and its Timestamp is renewed. A line whose product is not found changes nothing (the loop
      would throw there, which validation rules out). */
  function Decrement(products: map<string, Product>, line: CartLine, now: Time): (r: map<string, Product>)
    ensures r.Keys == products.Keys
  {
    if GetProduct(products, line.id).Some? then
      var p := products[line.id];
      products[line.id := p.(stockAvailable := p.stockAvailable - line.quantity, timestamp := now)]
    else products
  }

  /** The product table after the commit loop has handled `lines`, one after the other. */
  function ApplyDecrements(products: map<string, Product>, lines: seq<CartLine>, now: Time): (r: map<string, Product>)
    ensures r.Keys == products.Keys
    decreases |lines|
  {
    if lines == [] then products
    else Decrement(ApplyDecrements(products, lines[..|lines| - 1], now), lines[|lines| - 1], now)
  }

  /** The loop touches only stock and Timestamp: the same products, each still active or
      inactive as before. */
  lemma {:induction false} DecrementsKeepCatalogue(products: map<string, Product>, lines: seq<CartLine>, now: Time)
    ensures var after := ApplyDecrements(products, lines, now);
      && after.Keys == products.Keys
      && forall k :: k in products ==>
           after[k] == products[k].(stockAvailable := after[k].stockAvailable, timestamp := after[k].timestamp)
    decreases |lines|
  {
    if lines != [] {
      DecrementsKeepCatalogue(products, lines[..|lines| - 1], now);
    }
  }

  /** The quantity the lines ask of product `k`, all lines together. */
  function QuantityFor(lines: seq<CartLine>, k: string): int
    decreases |lines|
  {
    if lines == [] then 0
    else QuantityFor(lines[..|lines| - 1], k) + (if lines[|lines| - 1].id == k then lines[|lines| - 1].quantity else 0)
  }

  /** Each active product loses what all the lines together ask of it. */
  lemma {:induction false} StockAfterCheckout(products: map<string, Product>, lines: seq<CartLine>, now: Time, k: string)
    requires k in products && products[k].isActive
    ensures ApplyDecrements(products, lines, now)[k].stockAvailable == products[k].stockAvailable - QuantityFor(lines, k)
    decreases |lines|
  {
    if lines != [] {
      var prefix := lines[..|lines| - 1];
      StockAfterCheckout(products, prefix, now, k);
      DecrementsKeepCatalogue(products, prefix, now);
    }
  }

  lemma {:induction false} QuantityOfAbsent(lines: seq<CartLine>, k: string)
    requires forall i :: 0 <= i < |lines| ==> lines[i].id != k
    ensures QuantityFor(lines, k) == 0
    decreases |lines|
  {
    if lines != [] {
      QuantityOfAbsent(lines[..|lines| - 1], k);
    }
  }

  /** With distinct product ids, what the lines ask of a line's product is that line's quantity. */
  lemma {:induction false} QuantityOfDistinct(lines: seq<CartLine>, j: int)
    requires forall a, b :: 0 <= a < b < |lines| ==> lines[a].id != lines[b].id
    requires 0 <= j < |lines|
    ensures QuantityFor(lines, lines[j].id) == lines[j].quantity
    decreases |lines|
  {
    var n := |lines| - 1;
    var prefix := lines[..n];
    if j == n {
      QuantityOfAbsent(prefix, lines[j].id);
    } else {
      assert prefix[j] == lines[j];
      QuantityOfDistinct(prefix, j);
    }
  }

  /** When no two lines name the same product and every line fits (validation passes, by
      `FirstProblemIsFirst`), every line's product ends with its stock less that line's
      quantity, which is never negative. */
  lemma DistinctLinesKeepStock(products: map<string, Product>, lines: seq<CartLine>, now: Time)
    requires forall a, b :: 0 <= a < b < |lines| ==> lines[a].id != lines[b].id
    requires forall i :: 0 <= i < |lines| ==> LineFits(products, lines[i])
    ensures forall i :: 0 <= i < |lines| ==>
      && lines[i].id in products
      && ApplyDecrements(products, lines, now)[lines[i].id].stockAvailable
         == products[lines[i].id].stockAvailable - lines[i].quantity
      && ApplyDecrements(products, lines, now)[lines[i].id].stockAvailable >= 0
  {
    forall i | 0 <= i < |lines|
      ensures ApplyDecrements(products, lines, now)[lines[i].id].stockAvailable
           == products[lines[i].id].stockAvailable - lines[i].quantity
    {
      assert LineFits(products, lines[i]);
      StockAfterCheckout(products, lines, now, lines[i].id);
      QuantityOfDistinct(lines, i);
    }
  }

  /** Validation checks each line against the stock as it was before the loop, so a product
      named on two lines can be taken below zero: five in stock, two lines of three. */
  lemma RepeatedProductOverdraws(p: Product, now: Time)
    requires p.isActive && p.stockAvailable == 5
    ensures var products := map[p.id := p];
      var lines := [CartLine(p.id, p.productName, p.price, 3), CartLine(p.id, p.productName, p.price, 3)];
      && FirstProblem(products, lines).None?
      && ApplyDecrements(products, lines, now)[p.id].stockAvailable == -1
  {
    var products := map[p.id := p];
    var lines := [CartLine(p.id, p.productName, p.price, 3), CartLine(p.id, p.productName, p.price, 3)];
    assert lines[1..][1..] == [];
    assert FirstProblem(products, lines[1..]).None?;
    var first := lines[..1];
    assert first[..0] == [];
    assert QuantityFor(first, p.id) == 3;
    assert QuantityFor(lines, p.id) == 6;
    StockAfterCheckout(products, lines, now, p.id);
  }

  // ------------------------------------------------------------ the order graph

  /** The order item the commit loop makes of a line: its `OrderId` is set when the graph is
      saved. */
  function NewOrderItem(line: CartLine, id: string): (item: OrderItem)
    ensures item.id == id && item.productId == line.id && item.productName == line.name
    ensures item.quantity == line.quantity && item.unitPrice == line.price
    ensures item.totalPrice == LineTotal(line)
  {
    OrderItem(id, "", line.id, line.name, line.quantity, line.price, line.price * line.quantity)
  }

  /** The items of the order, one per line, each under its fresh id. */
  function OrderItemsFor(lines: seq<CartLine>, ids: seq<string>): (r: seq<OrderItem>)
    requires |ids| == |lines|
    ensures |r| == |lines|
    ensures forall i :: 0 <= i < |lines| ==> r[i] == NewOrderItem(lines[i], ids[i])
  {
    seq(|lines|, i requires 0 <= i < |lines| => NewOrderItem(lines[i], ids[i]))
  }

  function ItemTotal(item: OrderItem): int {
    item.totalPrice
  }

  /** The item totals add up to the cart's total. */
  lemma {:induction false} ItemsAddUpToCartTotal(lines: seq<CartLine>, ids: seq<string>)
    requires |ids| == |lines|
    ensures Sum(OrderItemsFor(lines, ids), ItemTotal) == CartTotal(lines)
    decreases |lines|
  {
    if lines != [] {
      ItemsAddUpToCartTotal(lines[1..], ids[1..]);
      assert OrderItemsFor(lines, ids)[1..] == OrderItemsFor(lines[1..], ids[1..]);
    }
  }

  /** The order the POST saves: the form's customer id, total, address and notes, status
      Pending, not processed. */
  function PlacedOrder(form: OrderCreateForm, id: string, now: Time): (o: Order)
    ensures o.id == id && o.customerId == form.customerId && o.totalAmount == form.totalAmount
    ensures o.status == Pending && o.shippingAddress == form.shippingAddress && o.customerNotes == form.customerNotes
    ensures o.processedDate.None? && o.processedBy.None?
  {
    Order(id, form.customerId, now, form.totalAmount, Pending, form.shippingAddress, form.customerNotes, None, None, now)
  }

  /** The saved total is the form's, not recomputed from the lines: it matches the items exactly
      when the form's total is the cart's total, as `Create` (GET) sets it. */
  lemma TotalComesFromTheForm(form: OrderCreateForm, id: string, now: Time, ids: seq<string>)
    requires |ids| == |form.cartItems|
    ensures PlacedOrder(form, id, now).totalAmount == Sum(OrderItemsFor(form.cartItems, ids), ItemTotal)
        <==> form.totalAmount == CartTotal(form.cartItems)
  {
    ItemsAddUpToCartTotal(form.cartItems, ids);
  }
}
