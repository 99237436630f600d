/** Sign-in and registration over the customer table (Services/AuthService.cs). Email matching
    here is exact (unlike the data service's case-insensitive lookup), and only Active customers
    are found. The password hasher's key derivation, its random salt, the new customer's and
    cart's GUIDs and the clock are inputs. */
module AuthService {
  import opened Wrappers
  import opened Models
  import opened Cart
  import opened Data
  import opened Base64
  import opened PasswordHasher
  import SqlDataService

  const PhoneNotProvided := "Not provided"

  /** The registration form: `Phone` is optional. */
  datatype RegisterForm = RegisterForm(
    name: string,
    surname: string,
    username: string,
    email: string,
    phone: Option<string>,
    shippingAddress: string,
    password: string)

  /** `CustomerExistsAsync`: an Active customer has exactly this email. */
  predicate CustomerExists(customers: map<string, Customer>, email: string) {
    exists k :: k in customers && customers[k].email == email && customers[k].status == Active
  }

  /** `GetCustomerByEmailAsync`: the Active customer with exactly this email; the unique index on
      Email makes it the only candidate. */
  method GetCustomerByEmail(db: AppDbContext, email: string) returns (r: Option<Customer>)
    requires db.Valid()
    ensures r.Some? <==> CustomerExists(db.customers, email)
    ensures r.Some? ==> r.value.id in db.customers && db.customers[r.value.id] == r.value
    ensures r.Some? ==> r.value.email == email && r.value.status == Active
    ensures r.Some? ==> forall k :: k in db.customers && db.customers[k].email == email ==> k == r.value.id
  {
    if k :| k in db.customers && db.customers[k].email == email && db.customers[k].status == Active {
      r := Some(db.customers[k]);
    } else {
      r := None;
    }
  }

  /** A successful sign-in: an Active customer with exactly this email whose stored hash accepts
      the password. */
  predicate CanSignIn(customers: map<string, Customer>, email: string, password: string, kdf: Kdf) {
    exists k :: k in customers && customers[k].email == email && customers[k].status == Active
                && VerifyPassword(password, customers[k].passwordHash, kdf)
  }

  /** Recording LastLogin keeps every schema rule: no key, email or username changes. */
  lemma SignInKeepsSchema(customers: map<string, Customer>, products: map<string, Product>,
                          carts: map<string, ShoppingCart>, cartItems: map<string, CartItem>,
                          orders: map<string, Order>, orderItems: map<string, OrderItem>, k: string, now: Time)
    requires Consistent(customers, products, carts, cartItems, orders, orderItems) && k in customers
    ensures Consistent(customers[k := customers[k].(lastLogin := Some(now))], products, carts, cartItems, orders, orderItems)
  {
    var after := customers[k := customers[k].(lastLogin := Some(now))];
    assert after.Keys == customers.Keys;
  }

  /** `AuthenticateAsync`: the customer, with LastLogin set to now, when sign-in succeeds; the
      only change is that LastLogin. */
  method Authenticate(db: AppDbContext, email: string, password: string, kdf: Kdf, now: Time)
    returns (r: Option<Customer>)
    requires db.Valid()
    modifies db
    ensures db.Valid()
    ensures r.Some? <==> CanSignIn(old(db.customers), email, password, kdf)
    ensures r.None? ==> db.customers == old(db.customers)
    ensures r.Some? ==> var id := r.value.id;
      && id in old(db.customers) && old(db.customers)[id].email == email
      && r.value == old(db.customers)[id].(lastLogin := Some(now))
      && db.customers == old(db.customers)[id := r.value]
    ensures unchanged(db`products, db`carts, db`cartItems, db`orders, db`orderItems)
  {
    var found := GetCustomerByEmail(db, email);
    if found.Some? && VerifyPassword(password, found.value.passwordHash, kdf) {
      var c := found.value.(lastLogin := Some(now));
      SignInKeepsSchema(db.customers, db.products, db.carts, db.cartItems, db.orders, db.orderItems, c.id, now);
      db.customers := db.customers[c.id := c];
      r := Some(c);
    } else {
      r := None;
    }
  }

  /** The customer `RegisterAsync` saves. */
  function NewCustomer(form: RegisterForm, id: string, salt: seq<byte>, kdf: Kdf, now: Time): (c: Customer)
    requires |salt| == SaltBytes
    ensures c.id == id && c.role == RoleCustomer && c.status == Active
    ensures c.passwordHash == HashPassword(form.password, salt, kdf)
    ensures c.phone == (if form.phone.Some? then form.phone.value else PhoneNotProvided)
    ensures c.name == form.name && c.surname == form.surname && c.username == form.username
    ensures c.email == form.email && c.shippingAddress == form.shippingAddress
    ensures c.createdDate == now && c.lastLogin == Some(now) && c.ordersCount == 0
  {
    Customer(id, form.name, form.surname, form.username, form.email, form.phone.GetOr(PhoneNotProvided),
             form.shippingAddress, HashPassword(form.password, salt, kdf), RoleCustomer, Active,
             now, 0, Some(now), now)
  }

  /** The cart `RegisterAsync` creates for the new customer. */
  function NewCart(cartId: string, customerId: string, now: Time): (cart: ShoppingCart)
    ensures cart.id == cartId && cart.customerId == customerId
  {
    ShoppingCart(cartId, customerId, now, now)
  }

  /** Adding the new customer and its cart keeps every schema rule, given that the unique indexes
      accept the new customer. The customer had no cart: every cart belongs to a stored customer. */
  lemma RegisterKeepsSchema(customers: map<string, Customer>, products: map<string, Product>,
                            carts: map<string, ShoppingCart>, cartItems: map<string, CartItem>,
                            orders: map<string, Order>, orderItems: map<string, OrderItem>,
                            c: Customer, cart: ShoppingCart)
    requires Consistent(customers, products, carts, cartItems, orders, orderItems)
    requires c.id !in customers && cart.id !in carts && cart.customerId == c.id
    requires SqlDataService.IndexesAllow(customers, c.id, c.email, c.username)
    ensures Consistent(customers[c.id := c], products, carts[cart.id := cart], cartItems, orders, orderItems)
  {
    var after := customers[c.id := c];
    forall a, b | a in after && b in after && after[a].email == after[b].email ensures a == b {
    }
    forall a, b | a in after && b in after && after[a].username == after[b].username ensures a == b {
    }
  }

  /** An Active customer with the email makes the unique index refuse another one. */
  lemma ExistingEmailBlocks(customers: map<string, Customer>, id: string, email: string, username: string)
    requires id !in customers && CustomerExists(customers, email)
    ensures !SqlDataService.IndexesAllow(customers, id, email, username)
  {
  }

  /** `RegisterAsync`: false, with nothing added, when an Active customer has the email or the
      unique indexes on Email and Username refuse the new row (the save fails and the exception is
      caught); otherwise the new customer and one cart for it. */
  method Register(db: AppDbContext, form: RegisterForm, newCustomerId: string, newCartId: string,
                  salt: seq<byte>, kdf: Kdf, now: Time) returns (ok: bool)
    requires db.Valid()
    requires newCustomerId !in db.customers && newCartId !in db.carts && |salt| == SaltBytes
    modifies db
    ensures db.Valid()
    ensures CustomerExists(old(db.customers), form.email) ==> !ok
    ensures ok <==> SqlDataService.IndexesAllow(old(db.customers), newCustomerId, form.email, form.username)
    ensures db.customers == if ok then old(db.customers)[newCustomerId := NewCustomer(form, newCustomerId, salt, kdf, now)]
                            else old(db.customers)
    ensures db.carts == if ok then old(db.carts)[newCartId := NewCart(newCartId, newCustomerId, now)] else old(db.carts)
    ensures unchanged(db`products, db`cartItems, db`orders, db`orderItems)
  {
    if CustomerExists(db.customers, form.email) {
      ExistingEmailBlocks(db.customers, newCustomerId, form.email, form.username);
      return false;
    }
    var c := NewCustomer(form, newCustomerId, salt, kdf, now);
    if !SqlDataService.IndexesAllow(db.customers, c.id, c.email, c.username) {
      return false;
    }
    var cart := NewCart(newCartId, c.id, now);
    RegisterKeepsSchema(db.customers, db.products, db.carts, db.cartItems, db.orders, db.orderItems, c, cart);
    db.customers := db.customers[c.id := c];
    db.carts := db.carts[cart.id := cart];
    ok := true;
  }

  /** After a successful registration the email exists, and signing in with it and the same
      password succeeds. */
  lemma RegisteredCustomerCanSignIn(customers: map<string, Customer>, form: RegisterForm, id: string,
                                    salt: seq<byte>, kdf: Kdf, now: Time)
    requires |salt| == SaltBytes
    ensures var after := customers[id := NewCustomer(form, id, salt, kdf, now)];
      CustomerExists(after, form.email) && CanSignIn(after, form.email, form.password, kdf)
  {
    var after := customers[id := NewCustomer(form, id, salt, kdf, now)];
    VerifyHashed(form.password, salt, kdf);
    assert id in after && after[id].email == form.email && after[id].status == Active;
  }
}
