/** Shopping carts and their lines (Models/ShoppingCart.cs) with the computed totals. A cart's
    `CartItems` collection, as loaded with it, is a sequence of lines. */
module Cart {
  import opened Wrappers
  import opened Models
  import opened Seqs

  datatype ShoppingCart = ShoppingCart(
    id: string,
    customerId: string,
    createdDate: Time,
    lastModified: Time)

  datatype CartItem = CartItem(
    id: string,
    cartId: string,
    productId: string,
    quantity: int,
    unitPrice: Money,
    addedDate: Time)

  function CartKey(c: ShoppingCart): string { c.id }
  function CartItemKey(i: CartItem): string { i.id }

  /** A `new CartItem()` before its initialiser runs: the property defaults, with the fresh id
      and the creation time as inputs. */
  function NewCartItem(id: string, now: Time): (r: CartItem)
    ensures r.id == id && r.addedDate == now
    ensures r.quantity == 1
    ensures r.cartId == "" && r.productId == "" && r.unitPrice == 0
  {
    CartItem(id, "", "", 1, 0, now)
  }

  /** `CartItem.TotalPrice`. */
  function TotalPrice(item: CartItem): Money {
    item.unitPrice * item.quantity
  }

  /** `CartItem.ProductName`, given the line's `Product` navigation as loaded. */
  function ProductName(product: Option<Product>): (r: string)
    ensures product.None? ==> r == ""
    ensures product.Some? ==> r == product.value.productName
  {
    match product
    case Some(p) => p.productName
    case None => ""
  }

  function Quantity(line: CartItem): int {
    line.quantity
  }

  /** `ShoppingCart.TotalItems`: `Sum(ci => ci.Quantity)`. */
  function TotalItems(lines: seq<CartItem>): (r: int)
    ensures lines == [] ==> r == 0
  {
    Sum(lines, Quantity)
  }

  /** `ShoppingCart.TotalAmount`: `Sum(ci => ci.TotalPrice)`. */
  function TotalAmount(lines: seq<CartItem>): (r: Money)
    ensures lines == [] ==> r == 0
  {
    Sum(lines, TotalPrice)
  }

  /** Both totals are additive over concatenated line lists. */
  lemma TotalsAppend(a: seq<CartItem>, b: seq<CartItem>)
    ensures TotalItems(a + b) == TotalItems(a) + TotalItems(b)
    ensures TotalAmount(a + b) == TotalAmount(a) + TotalAmount(b)
  {
    SumAppend(a, b, Quantity);
    SumAppend(a, b, TotalPrice);
  }

  /** `TotalAmount` is the sum of UnitPrice × Quantity, and each line contributes its own. */
  lemma {:induction false} TotalsOfOneLine(line: CartItem)
    ensures TotalItems([line]) == line.quantity
    ensures TotalAmount([line]) == line.unitPrice * line.quantity
  {
    assert [line][1..] == [];
  }

  /** Adding `q` to the quantity of line `j` raises TotalItems by `q` and TotalAmount by
      UnitPrice × `q`. */
  lemma {:induction false} TotalsAfterIncrement(lines: seq<CartItem>, j: nat, q: int)
    requires j < |lines|
    ensures var after := lines[j := lines[j].(quantity := lines[j].quantity + q)];
      TotalItems(after) == TotalItems(lines) + q
      && TotalAmount(after) == TotalAmount(lines) + lines[j].unitPrice * q
  {
    var line := lines[j].(quantity := lines[j].quantity + q);
    var after := lines[j := line];
    if j == 0 {
      assert after[1..] == lines[1..];
      assert TotalPrice(line) == TotalPrice(lines[0]) + lines[0].unitPrice * q by {
        var p, n := lines[0].unitPrice, lines[0].quantity;
        assert p * (n + q) == p * n + p * q;
      }
    } else {
      assert after[1..] == lines[1..][j - 1 := line];
      TotalsAfterIncrement(lines[1..], j - 1, q);
    }
  }

  /** With no negative quantities, TotalItems is never negative. */
  lemma {:induction false} TotalItemsNonNegative(lines: seq<CartItem>)
    requires forall i :: 0 <= i < |lines| ==> lines[i].quantity >= 0
    ensures TotalItems(lines) >= 0
  {
    if lines != [] {
      TotalItemsNonNegative(lines[1..]);
    }
  }
}
