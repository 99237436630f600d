# ABCRetails in Dafny

ABCRetails is a small retail system in two parts.

- **The MVC web application** (`ABCRetails/ABCRetails`).
  - Customers register and sign in.
  - They fill a shopping cart and check out orders.
  - They view their dashboard and edit their profile.
  - Administrators list, edit, re-status, cancel and delete orders.
  - All of it runs against an Entity Framework database of six tables: customers, products, shopping carts, cart items, orders and order items.
- **The Azure Functions app** (`ABCRetails/ABCRetailsFunctions`).
  - It keeps customers, products and orders as rows of Azure Tables, addressed by (PartitionKey, RowKey).
  - It sends order notifications to a queue.
  - It stores product images and proofs of payment as blobs.

This project models the data, services and controllers of the web application and the order, product and upload functions of the Functions app, and proves what they promise. Each part has a Dafny module of its own.

**Web application**

| module | models |
|---|---|
| `Models` | the entity classes |
| `Cart` | `ShoppingCart`, `CartItem` and their totals |
| `Data` | the database context |
| `SqlDataService` | the data service |
| `PasswordHasher` | the password hasher |
| `Base64` | its Base64 encoding |
| `AuthService` | the authentication service |
| `OrderService` | the order service |
| `CustomerController` | the customer controller |
| `HomeController` | the home controller |
| `Checkout` and `OrderController` | the order controller (its checkout is specified in `Checkout` and carried out in `OrderController`) |
| `Web` | action results |

**Functions app**

| module | models |
|---|---|
| `Entities` | the table entities and DTOs |
| `Map` | the entity and DTO mapping |
| `Storage` | the storage account |
| `Http` | HTTP responses |
| `Multipart` | parsed multipart forms |
| `OrderFunctions` | the order endpoints |
| `ProductsFunctions` | the product endpoints |
| `UploadsFunctions` | the proof-of-payment upload |

**Shared helpers**

| module | models |
|---|---|
| `Wrappers` | `Option` |
| `Text` | .NET string primitives |
| `Seqs` | LINQ operators |

**How state is modelled**

- The database context is the class `Data.AppDbContext`. It has one `map` per table, keyed by primary key.
- `Valid()` is the schema, plus one rule the cart operations maintain:
  - every row sits under its own key;
  - the unique indexes on Email and Username hold;
  - at most one cart per customer (the one-to-one cart relationship puts a unique index on its CustomerId);
  - every foreign key is present;
  - at most one line per product in a cart. This is not a schema rule (the CartId index is not unique). `SqlDataService.AddToCart` keeps it by adding to an existing line instead of inserting a second one.
- The services and controllers are methods that `modify` that object.
- Each method's postcondition states the whole new state, as a function of the old one.
- The storage account is the class `Storage.StorageAccount`. It holds:
  - three tables keyed by (PartitionKey, RowKey);
  - the queue, as a sequence of messages;
  - two blob containers, as maps.
- Each handler that changes storage states every table, queue and container it leaves unchanged.

**Values**

- Prices are integers, so `decimal`/`double` rounding is not modelled.
- Nullable strings are `Option<string>`.
- The clock, new GUIDs, the random salt, PBKDF2, and the JSON and number parsers are parameters.
- Where a lookup may return any of several matching rows (`FirstOrDefault` without an ordering, a RowKey-only table query), the model chooses nondeterministically. The contract then says which rows may be chosen.

## Model

| member | source | states |
|---|---|---|
| `Base64.Encode` | ABCRetails/ABCRetails/Services/PasswordHasher.cs:24-32 | `Convert.ToBase64String` output has 4·⌈n/3⌉ characters and never contains '.', so it cannot disturb the hash's separator |
| `Base64.Decode` | ABCRetails/ABCRetails/Services/PasswordHasher.cs:44 | `FromBase64String` accepts only text whose length is a multiple of four |
| `Base64.RoundTrip` | ABCRetails/ABCRetails/Services/PasswordHasher.cs:32-44 | decoding the encoding of any byte sequence gives it back, so the salt written into a hash is the salt read out of it |
| `PasswordHasher.SplitAtFirstDot` | ABCRetails/ABCRetails/Services/PasswordHasher.cs:40-42 | `Split('.', 2)` has one part iff there is no '.'; otherwise the text is first + "." + rest with no '.' in first |
| `PasswordHasher.SplitJoin` | ABCRetails/ABCRetails/Services/PasswordHasher.cs:32-42 | joining a dot-free salt text and a suffix with "." splits back into exactly those two parts |
| `PasswordHasher.VerifyPassword` | ABCRetails/ABCRetails/Services/PasswordHasher.cs:35-62 | a stored value without '.' or whose salt part is not Base64 never verifies (the caught exception) |
| `PasswordHasher.EncodeInjective` | ABCRetails/ABCRetails/Services/PasswordHasher.cs:48-56 | equal Base64 texts come from equal keys, so comparing texts compares the derived keys |
| `PasswordHasher.HashPassword` | ABCRetails/ABCRetails/Services/PasswordHasher.cs:14-33 | splitting the stored value at its first '.' gives back exactly the salt's Base64 and the key's Base64 |
| `PasswordHasher.SaltTextLength` | ABCRetails/ABCRetails/Services/PasswordHasher.cs:14-33 | the 16-byte salt's Base64 is 24 characters, so the separator is at index 24 |
| `PasswordHasher.VerifyHashed` | ABCRetails/ABCRetails/Services/PasswordHasher.cs:14-62 | a password always verifies against the hash made from it |
| `PasswordHasher.VerifyExactlyMatchingKey` | ABCRetails/ABCRetails/Services/PasswordHasher.cs:35-62 | another password verifies against a hash iff PBKDF2 derives the same key for it under the stored salt and parameters (10000 iterations, 32 bytes) |
| `Cart.NewCartItem` | ABCRetails/ABCRetails/Models/ShoppingCart.cs:31-49 | a new cart line has its fresh id, quantity 1 and the empty defaults |
| `Cart.ProductName` | ABCRetails/ABCRetails/Models/ShoppingCart.cs:60 | a line shows its product's name, or "" when the product is not loaded |
| `Cart.TotalItems` | ABCRetails/ABCRetails/Models/ShoppingCart.cs:24 | the `Seqs.Sum` of the line quantities; an empty cart has no items |
| `Cart.TotalAmount` | ABCRetails/ABCRetails/Models/ShoppingCart.cs:27 | the `Seqs.Sum` of the lines' TotalPrice; an empty cart costs 0 |
| `Cart.TotalsAppend` | ABCRetails/ABCRetails/Models/ShoppingCart.cs:24-27 | both totals add up over concatenated line lists |
| `Cart.TotalsOfOneLine` | ABCRetails/ABCRetails/Models/ShoppingCart.cs:27-57 | one line contributes its quantity and UnitPrice × Quantity |
| `Cart.TotalsAfterIncrement` | ABCRetails/ABCRetails/Models/ShoppingCart.cs:24-57 | raising one line's quantity by q raises TotalItems by q and TotalAmount by q × that line's price, and nothing else |
| `Cart.TotalItemsNonNegative` | ABCRetails/ABCRetails/Models/ShoppingCart.cs:24 | with non-negative quantities the item count is non-negative |
| `Data.AppDbContext.constructor` | ABCRetails/ABCRetails/Data/ApplicationDBContext.cs:6-18 | an empty database satisfies every schema rule |
| `Data.ListRows` | ABCRetails/ABCRetails/Services/SqlDataService.cs:304-319 | a list query returns each selected row exactly once, as stored, and nothing else |
| `SqlDataService.GetCustomer` | ABCRetails/ABCRetails/Services/SqlDataService.cs:43-55 | finds a customer iff it is stored and Active, and returns the stored row |
| `SqlDataService.GetCustomerByEmail` | ABCRetails/ABCRetails/Services/SqlDataService.cs:57-69 | returns a stored Active customer whose email matches ignoring case; none iff no stored customer matches |
| `SqlDataService.UpdatedCustomer` | ABCRetails/ABCRetails/Services/SqlDataService.cs:106-134 | the update copies the form's profile fields and status and keeps id, password hash, role, creation date and order count |
| `SqlDataService.UpdateCustomer` | ABCRetails/ABCRetails/Services/SqlDataService.cs:106-134 | true iff the customer exists and the unique indexes accept the new email and username; then exactly that row changes, otherwise none does |
| `SqlDataService.DeleteCustomer` | ABCRetails/ABCRetails/Services/SqlDataService.cs:136-157 | true iff the customer exists; then it is soft-deleted (Inactive) and nothing else changes |
| `SqlDataService.SoftDeleteCustomer` | ABCRetails/ABCRetails/Services/SqlDataService.cs:136-157 | after a soft delete the row is still stored, no active or email lookup finds it, and the active count drops by one if it was active |
| `SqlDataService.GetProduct` | ABCRetails/ABCRetails/Services/SqlDataService.cs:199-211 | finds a product iff it is stored and active |
| `SqlDataService.GetAllProducts` | ABCRetails/ABCRetails/Services/SqlDataService.cs:178-192 | every active product exactly once, as stored, and no inactive one |
| `SqlDataService.UpdatedProduct` | ABCRetails/ABCRetails/Services/SqlDataService.cs:233-260 | the update copies every editable field and keeps the id |
| `SqlDataService.UpdateProduct` | ABCRetails/ABCRetails/Services/SqlDataService.cs:233-260 | true iff the product exists; then only that row changes |
| `SqlDataService.DeleteProduct` | ABCRetails/ABCRetails/Services/SqlDataService.cs:262-283 | true iff the product exists; then it is marked inactive and kept |
| `SqlDataService.SoftDeleteProduct` | ABCRetails/ABCRetails/Services/SqlDataService.cs:262-283 | a soft-deleted product stays stored (cart lines and order items naming it stay valid) but lookups miss it and the count drops |
| `SqlDataService.LoadOrder` | ABCRetails/ABCRetails/Services/SqlDataService.cs:326-340 | an order loaded with its customer and exactly its own items |
| `SqlDataService.GetOrder` | ABCRetails/ABCRetails/Services/SqlDataService.cs:326-340 | none iff the id is unknown; otherwise the loaded order |
| `SqlDataService.GetAllOrders` | ABCRetails/ABCRetails/Services/SqlDataService.cs:304-319 | every order exactly once, each loaded with its customer and items |
| `SqlDataService.WithItemsAdded` | ABCRetails/ABCRetails/Services/SqlDataService.cs:342-361 | saving the graph adds each item under its id with the order's id as OrderId, and keeps every other item |
| `SqlDataService.CreateOrder` | ABCRetails/ABCRetails/Services/SqlDataService.cs:342-361 | the order (dated now) and its items are saved together iff the customer and every product exist and the ids are new; otherwise nothing is saved |
| `SqlDataService.AddOrderKeepsSchema` | ABCRetails/ABCRetails/Data/ApplicationDBContext.cs:109-154 | saving such a graph keeps the order tables' keys and foreign keys |
| `SqlDataService.ItemsNotOf` | ABCRetails/ABCRetails/Services/SqlDataService.cs:390-414 | exactly the items of other orders remain, unchanged |
| `SqlDataService.DeleteOrder` | ABCRetails/ABCRetails/Services/SqlDataService.cs:390-414 | true iff the order exists; then it and its items are removed |
| `SqlDataService.CascadeDelete` | ABCRetails/ABCRetails/Data/ApplicationDBContext.cs:146-149 | removing the items with the order keeps the item table consistent, whereas leaving any item behind breaks its foreign key |
| `SqlDataService.WithStatus` | ABCRetails/ABCRetails/Services/SqlDataService.cs:416-441 | sets status, ProcessedBy and Timestamp, and stamps ProcessedDate only for "Processed" or "Shipped" |
| `SqlDataService.ProcessingIsNotStamped` | ABCRetails/ABCRetails/Services/SqlDataService.cs:416-441 | the "Processing" status the application uses is not stamped with a processed date |
| `SqlDataService.UpdateOrderStatus` | ABCRetails/ABCRetails/Services/SqlDataService.cs:416-441 | true iff the order exists; then only its status fields change |
| `SqlDataService.CartOf` | ABCRetails/ABCRetails/Services/SqlDataService.cs:517-531 | a customer's cart, or none iff the customer has no cart |
| `SqlDataService.LineOf` | ABCRetails/ABCRetails/Services/SqlDataService.cs:703-755 | the cart's line for a product, or none iff there is none |
| `SqlDataService.GetShoppingCart` | ABCRetails/ABCRetails/Services/SqlDataService.cs:517-531 | the customer's cart with exactly its lines, each once |
| `SqlDataService.AddToExistingLine` | ABCRetails/ABCRetails/Services/SqlDataService.cs:703-755 | a product already in the cart has quantity added to its line; no line is added or changed otherwise |
| `SqlDataService.AddNewLine` | ABCRetails/ABCRetails/Services/SqlDataService.cs:703-755 | a product not yet in the cart gets exactly one new line at the product's current price |
| `SqlDataService.AddMissingProduct` | ABCRetails/ABCRetails/Services/SqlDataService.cs:703-755 | a missing or inactive product gives false with no line changed, while a cart is still created for a customer who had none |
| `SqlDataService.AddKeepsOneLinePerProduct` | ABCRetails/ABCRetails/Services/SqlDataService.cs:703-755 | adding to the cart keeps at most one line per product |
| `SqlDataService.NewCartKeepsSchema` | ABCRetails/ABCRetails/Data/ApplicationDBContext.cs:66-81 | creating a cart for a customer without one keeps one cart per customer |
| `SqlDataService.TouchKeepsSchema` | ABCRetails/ABCRetails/Data/ApplicationDBContext.cs:66-81 | changing LastModified keeps the cart table consistent |
| `SqlDataService.LineChangeKeepsSchema` | ABCRetails/ABCRetails/Data/ApplicationDBContext.cs:84-106 | the line change keeps line keys and foreign keys |
| `SqlDataService.AddKeepsSchema` | ABCRetails/ABCRetails/Services/SqlDataService.cs:703-755 | adding to the cart keeps the cart and line tables consistent |
| `SqlDataService.AddToCartTables` | ABCRetails/ABCRetails/Services/SqlDataService.cs:703-755 | the step-by-step table changes equal the specification of AddToCart |
| `SqlDataService.AddToCart` | ABCRetails/ABCRetails/Services/SqlDataService.cs:703-755 | the database after the call is the specification's, with every other table unchanged |
| `SqlDataService.RemoveDeletesOnlyThatLine` | ABCRetails/ABCRetails/Services/SqlDataService.cs:757-782 | a successful removal deletes exactly one line, leaves no line for that product, and keeps the others |
| `SqlDataService.RemoveKeepsSchema` | ABCRetails/ABCRetails/Services/SqlDataService.cs:757-782 | removal keeps the cart tables consistent |
| `SqlDataService.RemoveFromCartTables` | ABCRetails/ABCRetails/Services/SqlDataService.cs:757-782 | the table changes equal the removal's specification |
| `SqlDataService.RemoveFromCart` | ABCRetails/ABCRetails/Services/SqlDataService.cs:757-782 | false without a cart or line; otherwise that line is deleted and the cart touched |
| `SqlDataService.ClearEmptiesTheCart` | ABCRetails/ABCRetails/Services/SqlDataService.cs:568-587 | after a clear the cart has no lines, and every other cart's lines are untouched |
| `SqlDataService.ClearKeepsSchema` | ABCRetails/ABCRetails/Services/SqlDataService.cs:568-587 | clearing keeps the cart tables consistent |
| `SqlDataService.ClearCartTables` | ABCRetails/ABCRetails/Services/SqlDataService.cs:568-587 | the table changes equal the clear's specification |
| `SqlDataService.ClearShoppingCart` | ABCRetails/ABCRetails/Services/SqlDataService.cs:568-587 | false without a cart; otherwise all its lines are deleted |
| `AuthService.GetCustomerByEmail` | ABCRetails/ABCRetails/Services/AuthService.cs:115-119 | finds a customer iff an Active one has exactly this email, and it is the only one with it |
| `AuthService.SignInKeepsSchema` | ABCRetails/ABCRetails/Services/AuthService.cs:33-36 | recording LastLogin keeps every schema rule |
| `AuthService.Authenticate` | ABCRetails/ABCRetails/Services/AuthService.cs:26-50 | succeeds iff an Active customer with the email accepts the password; then only its LastLogin changes, otherwise nothing does |
| `AuthService.NewCustomer` | ABCRetails/ABCRetails/Services/AuthService.cs:64-77 | the registered customer: the form's fields, "Not provided" for a missing phone, role Customer, Active, and the hashed password |
| `AuthService.NewCart` | ABCRetails/ABCRetails/Services/AuthService.cs:83-88 | the new cart belongs to the new customer |
| `AuthService.RegisterKeepsSchema` | ABCRetails/ABCRetails/Services/AuthService.cs:79-91 | adding the customer and its cart keeps every schema rule |
| `AuthService.ExistingEmailBlocks` | ABCRetails/ABCRetails/Services/AuthService.cs:57-61 | an Active customer with the email makes the unique index refuse another |
| `AuthService.Register` | ABCRetails/ABCRetails/Services/AuthService.cs:52-101 | false, with nothing added, when the email is taken or the unique indexes refuse; otherwise exactly the new customer and its cart are added |
| `AuthService.RegisteredCustomerCanSignIn` | ABCRetails/ABCRetails/Services/AuthService.cs:26-101 | after registering, the email exists and signing in with the same password succeeds |
| `OrderService.CustomerName` | ABCRetails/ABCRetails/Services/OrderService.cs:31 | a missing customer interpolates to " ", otherwise the full name |
| `OrderService.UsernameOrUnknown` | ABCRetails/ABCRetails/Services/OrderService.cs:32 | the username, or "Unknown" without a customer |
| `OrderService.EmailOrUnknown` | ABCRetails/ABCRetails/Services/OrderService.cs:33 | the email, or "Unknown" without a customer |
| `OrderService.ProductNamesOf` | ABCRetails/ABCRetails/Services/OrderService.cs:39 | one name per item, in item order |
| `OrderService.ToView` | ABCRetails/ABCRetails/Services/OrderService.cs:26-40 | the list row carries the order's fields, its item count, total quantity and first product names |
| `OrderService.ToViews` | ABCRetails/ABCRetails/Services/OrderService.cs:26-40 | one row per order, in order |
| `OrderService.LoadedRow` | ABCRetails/ABCRetails/Services/OrderService.cs:24-40 | the row of a loaded order shows that stored order and is its list projection |
| `OrderService.StoredRowFields` | ABCRetails/ABCRetails/Services/OrderService.cs:26-36 | a stored row shows its order's date and address, and the email and username of the order's stored customer, or "Unknown" without one |
| `OrderService.GetOrderViewModels` | ABCRetails/ABCRetails/Services/OrderService.cs:18-50 | a row for every stored order, each exactly once, each the `ToView` projection of that order loaded with its stored customer and items |
| `OrderService.ToItemViews` | ABCRetails/ABCRetails/Services/OrderService.cs:79-85 | one item row per order item, in order |
| `OrderService.ToDetail` | ABCRetails/ABCRetails/Services/OrderService.cs:65-86 | the detail page carries the order's fields, customer details and item rows |
| `OrderService.GetOrderDetailViewModel` | ABCRetails/ABCRetails/Services/OrderService.cs:52-96 | none iff the id is unknown; otherwise the `ToDetail` projection of the stored order loaded with its stored customer and items: the customer fields, notes, processed fields and one item row per stored item |
| `OrderService.TotalQuantityAppend` | ABCRetails/ABCRetails/Services/OrderService.cs:38 | the total quantity is additive |
| `OrderService.TotalQuantityAtLeastCount` | ABCRetails/ABCRetails/Services/OrderService.cs:37-38 | with quantities of at least one, total quantity is at least the item count |
| `OrderService.ProductNamesShape` | ABCRetails/ABCRetails/Services/OrderService.cs:39 | no items show "", one item shows its name, three or more show exactly the first three joined by ", " |
| `Checkout.FormErrors` | ABCRetails/ABCRetails/Models/ViewModels/OrderCreateViewModel.cs:8-19 | the form is valid iff the customer id and address are present and address and notes are within 500 characters |
| `Checkout.CreateForm` | ABCRetails/ABCRetails/Controllers/OrderController.cs:76-138 | back to Home with the parse error for unreadable cart data, with "Your cart is empty" for an empty cart, and with "Customer profile not found" when there is no customer; otherwise the form with the customer's id and address, Pending, today's date, the lines and the cart's total |
| `Checkout.LineProblem` | ABCRetails/ABCRetails/Controllers/OrderController.cs:173-184 | no message iff the line's product is active and has enough stock; "not found" or "insufficient stock" otherwise |
| `Checkout.FirstProblem` | ABCRetails/ABCRetails/Controllers/OrderController.cs:171-185 | an empty cart always passes validation |
| `Checkout.FirstProblemIsFirst` | ABCRetails/ABCRetails/Controllers/OrderController.cs:171-185 | validation passes iff every line fits; otherwise the message is that of the first line that does not |
| `Checkout.Decrement` | ABCRetails/ABCRetails/Controllers/OrderController.cs:215-217 | the stock change keeps the product table's keys |
| `Checkout.ApplyDecrements` | ABCRetails/ABCRetails/Controllers/OrderController.cs:201-218 | the commit loop keeps the product table's keys |
| `Checkout.DecrementsKeepCatalogue` | ABCRetails/ABCRetails/Controllers/OrderController.cs:201-218 | the loop touches only stock and Timestamp: no product appears, disappears or changes activity |
| `Checkout.StockAfterCheckout` | ABCRetails/ABCRetails/Controllers/OrderController.cs:201-218 | each active product loses what all lines together ask of it |
| `Checkout.QuantityOfAbsent` | ABCRetails/ABCRetails/Controllers/OrderController.cs:201-218 | a product no line names loses nothing |
| `Checkout.QuantityOfDistinct` | ABCRetails/ABCRetails/Controllers/OrderController.cs:201-218 | with distinct products, a product loses exactly its line's quantity |
| `Checkout.DistinctLinesKeepStock` | ABCRetails/ABCRetails/Controllers/OrderController.cs:171-218 | with distinct products and passing validation no stock goes negative |
| `Checkout.RepeatedProductOverdraws` | ABCRetails/ABCRetails/Controllers/OrderController.cs:171-218 | validation checks each line against the stock before the loop, so two lines of 3 for a product with 5 pass and leave stock -1 |
| `Checkout.NewOrderItem` | ABCRetails/ABCRetails/Controllers/OrderController.cs:203-211 | an item carries the line's product, name, quantity, unit price and price × quantity |
| `Checkout.OrderItemsFor` | ABCRetails/ABCRetails/Controllers/OrderController.cs:201-212 | one item per line, in order |
| `Checkout.ItemsAddUpToCartTotal` | ABCRetails/ABCRetails/Controllers/OrderController.cs:94-210 | the item totals add up to the cart total the GET computed |
| `Checkout.PlacedOrder` | ABCRetails/ABCRetails/Controllers/OrderController.cs:188-198 | the order carries the form's customer, total, address and notes, status Pending, not processed |
| `Checkout.TotalComesFromTheForm` | ABCRetails/ABCRetails/Controllers/OrderController.cs:188-212 | the saved total is the form's one, and it equals the items' sum exactly when the form's total is the cart's |
| `OrderController.ValidateCart` | ABCRetails/ABCRetails/Controllers/OrderController.cs:171-185 | the loop's message is that of the first failing line |
| `OrderController.DecrementStep` | ABCRetails/ABCRetails/Controllers/OrderController.cs:201-218 | one more pass of the loop is one more decrement |
| `OrderController.StillListed` | ABCRetails/ABCRetails/Controllers/OrderController.cs:215 | a line that fitted still finds its product after the earlier lines |
| `OrderController.UpdateIsDecrement` | ABCRetails/ABCRetails/Controllers/OrderController.cs:215-217 | writing back the product with lowered stock is that line's decrement |
| `OrderController.CommitLines` | ABCRetails/ABCRetails/Controllers/OrderController.cs:201-218 | the loop makes exactly the order items of the lines and leaves the product table decremented by every line |
| `OrderController.Create` | ABCRetails/ABCRetails/Controllers/OrderController.cs:144-234 | the form comes back with its errors, or "customer not found", or the first line's problem, with nothing written; otherwise stock is decremented, and either the order graph is saved and the Index redirect carries the success message, or (the form's customer id is unknown, so the order save fails) the stock stays decremented, no order or item is saved and the form comes back with "Error creating order: " and the failure's message |
| `OrderController.CustomerOrders` | ABCRetails/ABCRetails/Controllers/OrderController.cs:399-433 | no rows without a customer; otherwise exactly the signed-in customer's orders, each row the projection of its stored order |
| `OrderController.AnyRowIsOwnership` | ABCRetails/ABCRetails/Controllers/OrderController.cs:255-260 | finding the id among the customer's rows is the same as owning the order |
| `OrderController.HasRow` | ABCRetails/ABCRetails/Controllers/OrderController.cs:255-260 | true iff some row has the id |
| `OrderController.Index` | ABCRetails/ABCRetails/Controllers/OrderController.cs:31-72 | an admin sees every order, a customer exactly their own, each row the projection of its stored order, with the "no orders" notice when empty |
| `OrderController.Details` | ABCRetails/ABCRetails/Controllers/OrderController.cs:237-271 | 404 for an empty or unknown id; a customer who does not own the order is redirected; otherwise the `ToDetail` projection of the stored order |
| `OrderController.EditForm` | ABCRetails/ABCRetails/Controllers/OrderController.cs:275-298 | 404 for an empty or unknown id; otherwise the stored order |
| `OrderController.Edit` | ABCRetails/ABCRetails/Controllers/OrderController.cs:304-327 | 404 when the route id is not the order's; an invalid form comes back unchanged; otherwise the order is written |
| `OrderController.UpdateStatus` | ABCRetails/ABCRetails/Controllers/OrderController.cs:333-347 | the status is applied when the order exists, and the redirect always claims success |
| `OrderController.CancelOrder` | ABCRetails/ABCRetails/Controllers/OrderController.cs:352-376 | a customer may cancel only an order they placed; any other caller may cancel any order |
| `OrderController.Delete` | ABCRetails/ABCRetails/Controllers/OrderController.cs:382-396 | the order and its items are removed when it exists, and the redirect always claims success |
| `CustomerController.Dashboard` | ABCRetails/ABCRetails/Controllers/CustomerController.cs:24-69 | redirects Home with an error iff the signed-in customer is not found; otherwise the dashboard view, whose figures `CustomerController.DashboardFigures` states |
| `CustomerController.DashboardFigures` | ABCRetails/ABCRetails/Controllers/CustomerController.cs:39-56 | the name and email; the count of the customer's orders; the count of their Pending or Processing orders, at most the order count; TotalSpent equal to the sum of TotalAmount over exactly the customer's Shipped or Delivered orders; the cart's TotalItems or 0 |
| `CustomerController.FilterKeepsNonNegative` | ABCRetails/ABCRetails/Controllers/CustomerController.cs:53-55 | filtering keeps amounts non-negative |
| `CustomerController.DashboardSpentBound` | ABCRetails/ABCRetails/Controllers/CustomerController.cs:53-55 | the spend is between 0 and the total of all the customer's orders |
| `CustomerController.FilterTwice` | ABCRetails/ABCRetails/Controllers/CustomerController.cs:40-52 | the open orders among the customer's orders are the customer's open orders |
| `CustomerController.NonNegativeSum` | ABCRetails/ABCRetails/Controllers/CustomerController.cs:53-55 | a sum of non-negative amounts is non-negative |
| `CustomerController.Details` | ABCRetails/ABCRetails/Controllers/CustomerController.cs:90-121 | 404 for an empty id or a missing or Inactive customer; otherwise the customer with their orders and total |
| `CustomerController.DetailsTotalCoversDashboard` | ABCRetails/ABCRetails/Controllers/CustomerController.cs:24-121 | the admin's total is never below the dashboard's spend |
| `CustomerController.EditForm` | ABCRetails/ABCRetails/Controllers/CustomerController.cs:125-145 | 404 iff the id is blank or the customer is missing or Inactive |
| `CustomerController.Edit` | ABCRetails/ABCRetails/Controllers/CustomerController.cs:151-173 | 404 iff the route id is absent or not the posted customer's; an invalid form comes back unchanged; otherwise the data service update and a success redirect |
| `CustomerController.ProfileEdit` | ABCRetails/ABCRetails/Controllers/CustomerController.cs:234-238 | only Name, Surname, Phone and ShippingAddress change |
| `CustomerController.StoredCustomerPassesIndexes` | ABCRetails/ABCRetails/Services/SqlDataService.cs:106-134 | a stored customer's own email and username pass the unique indexes |
| `CustomerController.Profile` | ABCRetails/ABCRetails/Controllers/CustomerController.cs:222-251 | 404 iff there is no signed-in customer; otherwise exactly those four fields are written and the redirect claims success |
| `HomeController.Featured` | ABCRetails/ABCRetails/Controllers/HomeController.cs:33-36 | a prefix of the list's in-stock products in list order, of length eight or all of them when there are fewer |
| `HomeController.Index` | ABCRetails/ABCRetails/Controllers/HomeController.cs:26-71 | featured active in-stock products, the product count, and the customer and order counts for admins only |
| `HomeController.CustomerDashboard` | ABCRetails/ABCRetails/Controllers/HomeController.cs:115-142 | every in-stock product; the count of the order rows whose email is the claim's; pending equal to the count of those rows whose status is exactly Pending, so at most the order count; no cart items |
| `HomeController.NoEmailNoOrders` | ABCRetails/ABCRetails/Controllers/HomeController.cs:115-142 | without an email claim no order is the customer's |
| `HomeController.DashboardShowsMoreThanIndex` | ABCRetails/ABCRetails/Controllers/HomeController.cs:26-142 | with nine in-stock products the landing page features eight and the dashboard all nine |
| `Map.OrEmpty` | ABCRetails/ABCRetailsFunctions/Helpers/Map.cs:11-20 | `s ?? string.Empty` |
| `Map.CustomerToDto` | ABCRetails/ABCRetailsFunctions/Helpers/Map.cs:11-20 | the DTO's Id is the RowKey, and missing strings read "" |
| `Map.ProductToDto` | ABCRetails/ABCRetailsFunctions/Helpers/Map.cs:26-35 | the DTO's Id is the RowKey, with the row's price and stock |
| `Map.OrderToDto` | ABCRetails/ABCRetailsFunctions/Helpers/Map.cs:41-58 | TotalAmount is the row's TotalPrice, and a missing status reads "Submitted" |
| `Map.RowKeyFor` | ABCRetails/ABCRetailsFunctions/Helpers/Map.cs:63-77 | the given row key, else the DTO's Id, else a fresh GUID |
| `Map.CustomerToEntity` | ABCRetails/ABCRetailsFunctions/Helpers/Map.cs:63-77 | partition "Customer", Id equal to RowKey, the DTO's strings, Phone "" |
| `Map.ProductToEntity` | ABCRetails/ABCRetailsFunctions/Helpers/Map.cs:83-97 | partition "Product", Id equal to RowKey, the DTO's fields |
| `Map.OrderToEntity` | ABCRetails/ABCRetailsFunctions/Helpers/Map.cs:103-123 | partition "Order", Id equal to RowKey, the DTO's fields, no username |
| `Map.NewOrderEntity` | ABCRetails/ABCRetailsFunctions/Helpers/Map.cs:128-145 | a new order row priced at unit price × quantity, status "Submitted", dated now |
| `Map.CustomerRoundTrip` | ABCRetails/ABCRetailsFunctions/Helpers/Map.cs:11-77 | a DTO with all strings present survives the trip to a row and back |
| `Map.EmptyIdIsKept` | ABCRetails/ABCRetailsFunctions/Helpers/Map.cs:63-77 | an empty Id is not replaced with a GUID: only null falls through |
| `Map.ProductRoundTrip` | ABCRetails/ABCRetailsFunctions/Helpers/Map.cs:26-97 | a product DTO survives the trip to a row and back |
| `Map.Pick` | ABCRetails/ABCRetailsFunctions/Helpers/Map.cs:150-160 | the result is the current value or a non-empty incoming one; a non-empty incoming value always wins; a property that was not null or empty never becomes null or empty |
| `Map.UpdateCustomerEntity` | ABCRetails/ABCRetailsFunctions/Helpers/Map.cs:150-160 | the conditional assignments compute the customer merge |
| `Map.UpdateProductEntity` | ABCRetails/ABCRetailsFunctions/Helpers/Map.cs:165-175 | the conditional assignments compute the product merge |
| `Map.UpdateOrderEntity` | ABCRetails/ABCRetailsFunctions/Helpers/Map.cs:180-192 | the conditional assignments compute the order merge |
| `Map.MergeCustomerRules` | ABCRetails/ABCRetailsFunctions/Helpers/Map.cs:150-160 | the keys and Phone never change; a field changes only to a non-empty value; merging twice is merging once; an all-empty DTO changes nothing |
| `Map.MergeProductRules` | ABCRetails/ABCRetailsFunctions/Helpers/Map.cs:165-175 | keys unchanged, StockAvailable always the DTO's, Price only when positive, strings only when non-empty, idempotent |
| `Map.MergeOrderRules` | ABCRetails/ABCRetailsFunctions/Helpers/Map.cs:180-192 | keys, OrderDate and Username unchanged, numbers only when positive, strings only when non-empty, idempotent |
| `Storage.ProductStoredUnderItsKeys` | ABCRetails/ABCRetailsFunctions/Entities/ProductEntity.cs:6-30 | writing a product under its own keys keeps the product table keyed |
| `Storage.StorageAccount.constructor` | ABCRetails/ABCRetailsFunctions/Functions/OrderFunctions.cs:29-44 | an empty account: every table, the queue and the containers empty |
| `Storage.Lookup` | ABCRetails/ABCRetailsFunctions/Functions/OrderFunctions.cs:123-140 | a row is found iff some row has the RowKey; it is the (partition, RowKey) row when present, otherwise some row with that RowKey |
| `Multipart.IsMultipartIgnoresParameters` | ABCRetails/ABCRetailsFunctions/Functions/UploadsFunctions.cs:52 | the `StartsWith` test looks only at the start, so parameters after the media type do not matter |
| `Multipart.IsMultipartIgnoresCase` | ABCRetails/ABCRetailsFunctions/Functions/UploadsFunctions.cs:52 | the test is `OrdinalIgnoreCase`: a Content-Type is multipart iff its lower-cased form is |
| `Multipart.FirstFile` | ABCRetails/ABCRetailsFunctions/Functions/UploadsFunctions.cs:59 | none iff no part has the field name; otherwise the first part that has it |
| `OrderFunctions.PlacedOrder` | ABCRetails/ABCRetailsFunctions/Functions/OrderFunctions.cs:180-190 | the new row carries the product's name and price, the customer's Username, price × quantity, "Submitted" and now |
| `OrderFunctions.Decremented` | ABCRetails/ABCRetailsFunctions/Functions/OrderFunctions.cs:194 | only stock changes, and it stays non-negative when the stock sufficed |
| `OrderFunctions.Create` | ABCRetails/ABCRetailsFunctions/Functions/OrderFunctions.cs:102-206 | 400 for a null body, a missing product, insufficient stock or a missing customer; 500 for a null product or customer id or an existing order key; otherwise 201 with the order added and the product's stock lowered; nothing written on failure. Whichever row the product lookup chose, including a row found only by RowKey, its stock decides between the insufficient-stock 400, the 500 for a null customer id, the missing-customer 400 and the 201 |
| `OrderFunctions.PlacedOrderFigures` | ABCRetails/ABCRetailsFunctions/Functions/OrderFunctions.cs:148-199 | after a 201 the stored order and the DTO carry the request's quantity and "Submitted", and the product lost exactly that quantity |
| `OrderFunctions.WithStatus` | ABCRetails/ABCRetailsFunctions/Functions/OrderFunctions.cs:231 | only Status changes |
| `OrderFunctions.StatusMessage` | ABCRetails/ABCRetailsFunctions/Functions/OrderFunctions.cs:238-248 | the message names the row, its customer and product, and "System" |
| `OrderFunctions.StatusMessageRecordsChange` | ABCRetails/ABCRetailsFunctions/Functions/OrderFunctions.cs:229-248 | the message records the change exactly: previous status restores the row, new status redoes it |
| `OrderFunctions.UpdateStatus` | ABCRetails/ABCRetailsFunctions/Functions/OrderFunctions.cs:212-263 | 400 for a null or blank status and 404 for a missing row, with nothing written; otherwise only the status changes and exactly one message is queued |
| `OrderFunctions.Delete` | ABCRetails/ABCRetailsFunctions/Functions/OrderFunctions.cs:266-305 | 404 for a missing row; otherwise the row is removed, one OrderDeleted message is queued, and the result is 204 |
| `ProductsFunctions.NewProduct` | ABCRetails/ABCRetailsFunctions/Functions/ProductsFunctions.cs:110-115 | a new row in partition "Product" with Id equal to RowKey and empty fields |
| `ProductsFunctions.ImageOf` | ABCRetails/ABCRetailsFunctions/Functions/ProductsFunctions.cs:122-132 | the "ImageFile" part is used iff it exists and has content |
| `ProductsFunctions.WithImageUrl` | ABCRetails/ABCRetailsFunctions/Functions/ProductsFunctions.cs:131-139 | the upload changes only ImageUrl |
| `ProductsFunctions.Problem` | ABCRetails/ABCRetailsFunctions/Functions/ProductsFunctions.cs:158-169 | no problem iff the name is not blank and the price is positive; the name check comes first |
| `ProductsFunctions.CreateFields` | ABCRetails/ABCRetailsFunctions/Functions/ProductsFunctions.cs:125-129 | the form fields never change the row's keys |
| `ProductsFunctions.CreateFromJson` | ABCRetails/ABCRetailsFunctions/Functions/ProductsFunctions.cs:151-155 | the JSON fields never change the row's keys |
| `ProductsFunctions.CreateDraft` | ABCRetails/ABCRetailsFunctions/Functions/ProductsFunctions.cs:110-156 | refused iff the body cannot be read: 500 for a form, 400 for JSON; otherwise a "Product" row under the new id |
| `ProductsFunctions.CreateFormRules` | ABCRetails/ABCRetailsFunctions/Functions/ProductsFunctions.cs:126-129 | a form field is set only when present, and a number only when it parses |
| `ProductsFunctions.ApplyCreateForm` | ABCRetails/ABCRetailsFunctions/Functions/ProductsFunctions.cs:126-129 | the conditional assignments compute the form's fields |
| `ProductsFunctions.ApplyCreateJson` | ABCRetails/ABCRetailsFunctions/Functions/ProductsFunctions.cs:151-155 | the assignments compute the JSON fields |
| `ProductsFunctions.UploadImage` | ABCRetails/ABCRetailsFunctions/Functions/ProductsFunctions.cs:131-139 | the image is stored under RowKey-FileName (overwriting) and the URL recorded |
| `ProductsFunctions.ReadCreateRequest` | ABCRetails/ABCRetailsFunctions/Functions/ProductsFunctions.cs:107-156 | the draft is the specification's, and only the image container may change |
| `ProductsFunctions.Create` | ABCRetails/ABCRetailsFunctions/Functions/ProductsFunctions.cs:95-182 | 400 for an unreadable JSON body, a blank name or a price that is not positive; 500 for an unreadable form or an existing key; otherwise 201 with the row added; the image is uploaded even when validation then fails |
| `ProductsFunctions.UpdateFields` | ABCRetails/ABCRetailsFunctions/Functions/ProductsFunctions.cs:206-213 | the form never changes the row's keys |
| `ProductsFunctions.UpdateFromJson` | ABCRetails/ABCRetailsFunctions/Functions/ProductsFunctions.cs:237-249 | the JSON never changes the row's keys |
| `ProductsFunctions.UpdateDraft` | ABCRetails/ABCRetailsFunctions/Functions/ProductsFunctions.cs:199-250 | refused iff the body cannot be read: 404 for a form, 400 for JSON; otherwise the stored row merged |
| `ProductsFunctions.UpdateFormRules` | ABCRetails/ABCRetailsFunctions/Functions/ProductsFunctions.cs:206-213 | the name changes only to a non-empty value, the price only to a positive one, the description whenever present |
| `ProductsFunctions.JsonUpdateIsMapMerge` | ABCRetails/ABCRetailsFunctions/Functions/ProductsFunctions.cs:237-249 | a JSON update is exactly the product merge of Map.UpdateEntity |
| `ProductsFunctions.ApplyUpdateForm` | ABCRetails/ABCRetailsFunctions/Functions/ProductsFunctions.cs:206-213 | the conditional assignments compute the update form's fields |
| `ProductsFunctions.ApplyUpdateJson` | ABCRetails/ABCRetailsFunctions/Functions/ProductsFunctions.cs:237-249 | the conditional assignments compute the JSON update |
| `ProductsFunctions.ReadUpdateRequest` | ABCRetails/ABCRetailsFunctions/Functions/ProductsFunctions.cs:196-250 | the draft is the specification's, and only the image container may change |
| `ProductsFunctions.Update` | ABCRetails/ABCRetailsFunctions/Functions/ProductsFunctions.cs:185-277 | 404 when the ("Product", id) row is missing; otherwise the draft is validated and written with 200, or refused with the row unchanged |
| `ProductsFunctions.AfterLastSlash` | ABCRetails/ABCRetailsFunctions/Functions/ProductsFunctions.cs:296 | the text after the last '/': a suffix with no '/', preceded by '/' when shorter |
| `ProductsFunctions.AfterLastSlashOfJoin` | ABCRetails/ABCRetailsFunctions/Functions/ProductsFunctions.cs:296 | the last part of a '/'-joined path is the name after the final '/' |
| `ProductsFunctions.DeleteFindsUploadedImage` | ABCRetails/ABCRetailsFunctions/Functions/ProductsFunctions.cs:134-137 | Delete targets the same blob Create and Update stored the image under, when key and file name have no '/' |
| `ProductsFunctions.SlashInFileNameMissesImage` | ABCRetails/ABCRetailsFunctions/Functions/ProductsFunctions.cs:296 | a file name with '/' is deleted under another blob name than it was stored under |
| `ProductsFunctions.Delete` | ABCRetails/ABCRetailsFunctions/Functions/ProductsFunctions.cs:280-319 | 404 for a missing row; otherwise the named image blob (when ImageUrl is non-empty) and the row are removed, with 204 |
| `UploadsFunctions.SanitizeFileName` | ABCRetails/ABCRetailsFunctions/Functions/UploadsFunctions.cs:159-170 | never empty; "file" for a null or empty name; otherwise no invalid characters and no longer than the name |
| `UploadsFunctions.DefaultValidOnBothPlatforms` | ABCRetails/ABCRetailsFunctions/Functions/UploadsFunctions.cs:162 | "file" is a valid name on Linux and on Windows |
| `UploadsFunctions.SanitizeRules` | ABCRetails/ABCRetailsFunctions/Functions/UploadsFunctions.cs:159-170 | the result has no invalid character, sanitizing twice is sanitizing once, and a valid name is kept |
| `UploadsFunctions.ProofBlobName` | ABCRetails/ABCRetailsFunctions/Functions/UploadsFunctions.cs:78 | the id, a '-' and a non-empty sanitized name; where "file" is a valid name, nothing after the '-' is an invalid file-name character |
| `UploadsFunctions.DistinctIdsDistinctBlobNames` | ABCRetails/ABCRetailsFunctions/Functions/UploadsFunctions.cs:78 | different ids of one length (a GUID's "N" form) give different blob names whatever the file names, so uploads under different fresh ids never overwrite each other |
| `UploadsFunctions.LastMarker` | ABCRetails/ABCRetailsFunctions/Functions/UploadsFunctions.cs:177 | the index of the last '.' or separator |
| `UploadsFunctions.Extension` | ABCRetails/ABCRetailsFunctions/Functions/UploadsFunctions.cs:177 | "" or a suffix that starts with '.' and has no later '.' or separator |
| `UploadsFunctions.ContentTypeFor` | ABCRetails/ABCRetailsFunctions/Functions/UploadsFunctions.cs:178-188 | octet-stream iff the extension is not one of the eight in the table |
| `UploadsFunctions.ToLowerTwice` | ABCRetails/ABCRetailsFunctions/Functions/UploadsFunctions.cs:177 | lower-casing is idempotent |
| `UploadsFunctions.ToLowerSuffix` | ABCRetails/ABCRetailsFunctions/Functions/UploadsFunctions.cs:177 | lower-casing commutes with taking a suffix |
| `UploadsFunctions.LastMarkerOfLower` | ABCRetails/ABCRetailsFunctions/Functions/UploadsFunctions.cs:177 | lower-casing moves no marker |
| `UploadsFunctions.ContentTypeIgnoresCase` | ABCRetails/ABCRetailsFunctions/Functions/UploadsFunctions.cs:175-189 | the content type does not depend on the file name's case |
| `UploadsFunctions.ContentTypeExamples` | ABCRetails/ABCRetailsFunctions/Functions/UploadsFunctions.cs:175-189 | "Receipt.PDF" is a PDF; "scan.png.exe" and "notes." are octet-stream |
| `UploadsFunctions.TextField` | ABCRetails/ABCRetailsFunctions/Helpers/MultipartHelper.cs:39 | a text field is found by name ignoring case, and none iff no name matches |
| `UploadsFunctions.ProofMetadata` | ABCRetails/ABCRetailsFunctions/Functions/UploadsFunctions.cs:82-88 | exactly the four metadata entries with their values |
| `UploadsFunctions.ReadProofRequest` | ABCRetails/ABCRetailsFunctions/Functions/UploadsFunctions.cs:52-78 | 400 for a non-multipart request or a missing or empty proof file; 500 "Failed to upload proof of payment" for a multipart body that does not parse; otherwise the file, the order id and customer name (or "Unknown") and the blob name |
| `UploadsFunctions.Proof` | ABCRetails/ABCRetailsFunctions/Functions/UploadsFunctions.cs:42-154 | the refusals of the request, 500 when the form cannot be parsed; otherwise the blob is stored with its content type and metadata, replacing any blob already under that name (the upload sets no access conditions), and the receipt is returned with 200; no other storage changes |

Functions without a contract of their own are stated through the rows of the members about them:
- `AuthService.CustomerExists` is covered by `AuthService.ExistingEmailBlocks`, `AuthService.Register` and `AuthService.RegisteredCustomerCanSignIn`.
- `SqlDataService.CustomerCount` is covered by `SqlDataService.SoftDeleteCustomer`. `SqlDataService.ProductCount` and `SqlDataService.OrderCount` (SqlDataService.cs:159-170, 285-296, 443-451) are covered by `HomeController.Index`.
- `Map.MergeCustomer`, `Map.MergeProduct` and `Map.MergeOrder` are covered by `Map.MergeCustomerRules`, `Map.MergeProductRules` and `Map.MergeOrderRules`, and by the `Map.Update*Entity` rows.
- `OrderService.TotalQuantity` is covered by `OrderService.TotalQuantityAppend` and `OrderService.TotalQuantityAtLeastCount`. `OrderService.ProductNames` is covered by `OrderService.ProductNamesShape`.
- `UploadsFunctions.GetContentType` (UploadsFunctions.cs:175-189) is covered by `UploadsFunctions.ContentTypeFor`, `UploadsFunctions.ContentTypeIgnoresCase` and `UploadsFunctions.ContentTypeExamples`.
- `Multipart.IsMultipart` is covered by its two lemmas and the `ReadAs` specifications of the request readers.

## Left out

**Numbers and text**
- C# `int` overflow: quantities, stock and counts are unbounded integers.
- `decimal`/`double` prices: prices are integers, so conversion and rounding are not modelled.
- `ToLower`/`ToLowerInvariant` work on ASCII letters only. The model does no culture-specific or Unicode case mapping either.
- The SQL Server collation is not modelled. The data service's case-insensitive email match is written out explicitly.
- `Convert.FromBase64String` is modelled on canonical Base64 only. Its tolerance of white space and of non-zero padding bits is left out.

**Parsing and inputs**
- JSON (de)serialization, URL decoding, `double.TryParse`/`int.TryParse` and multipart parsing are inputs: parsed values, or parser functions returning `Option`.
- The file-stream disposal of `MultipartHelper.ParseAsync` is left out.
- The clock, GUIDs, the random salt of `HashPassword` and PBKDF2 itself (section 5.2 of RFC 8018) are parameters. Where the source relies on a GUID being fresh, a `requires` says it is fresh.
- The Round-trip ("O") timestamp text of the upload metadata is an input string.
- The blob URI is container URI + "/" + blob name. `Uri.ToString` escaping is left out.
- Table, queue, container and share names come from configuration in the source. They are not modelled.

**Storage and concurrency**
- Concurrency, ETags and optimistic-concurrency failures are left out.
- Only the exception paths named in the contracts are modelled. The others (a storage service failure, a database outage, the generic error views) are not.
- Logging is left out.
- Anti-forgery tokens and authorization attributes are left out. The signed-in user's claims and role are inputs.
- `OrderController.Create` saves each product, then the order, in separate `SaveChanges` calls. The model covers the order save failing after the stock was saved: the stock stays decremented, no order is saved and the form comes back with the error. A product save failing partway through the loop is not modelled.
- `AuthService.Register` treats the customer save and the cart save of `RegisterAsync` as one step. A failure of the cart save alone, which would leave a customer without a cart while the call returns false, is not modelled.
- `OrderFunctions.Create` adds the order row and then replaces the product row. The model does both or neither.
- The file-share copy of the proof metadata in `Proof` (lines 105-134) is left out. The source ignores its failures, so it never affects the response.
- The order-notification queue holds the messages as values. Their JSON text and Base64 message encoding are left out.
- Rows of a RowKey-only table query are modelled as chosen in no particular order. Azure Table's key order is not modelled.
- `Storage.Lookup`: a null RowKey makes the table client throw. `OrderFunctions.Create` answers that with its 500, so the model checks for a null product or customer id before each lookup.
- `OrderFunctions.UpdateStatus`, `OrderFunctions.Delete`, `ProductsFunctions.Update`, `ProductsFunctions.Delete`: the route id is always present in the model. A null id cannot reach these handlers through their routes.
- `ProductsFunctions.Delete`: a failure to delete the image blob is caught and ignored in the source. In the model the removal always succeeds.

**Operations not modelled**
- The List and Get endpoints of the Functions app (`OrderFunctions.cs:47-97` and `ProductsFunctions.cs:40-90`) are read-only queries. They are not modelled.
- `CustomerFunctions.cs`, `QueueProcessorFunctions.cs` and `BlobFunctions.cs` are not part of this model.
- `FunctionsApiClient.cs` (the web app's HTTP client for the Functions app) is not part of this model.
- `Map.UpdateEntity` mutates its entity in place. The model computes the merged entity as a value. No caller in the core holds a second reference to the entity, so aliasing cannot be observed.
- `SqlDataService.GetAllProducts` and `SqlDataService.GetAllOrders`: the `OrderBy` sorting is not modelled. The contract states that each row appears exactly once, not the order. The same applies to `OrderService.GetOrderViewModels` and to the `OrderByDescending` of the dashboards.
- The remaining data-service members (`GetCustomerByUsernameAsync`, `CreateCustomerAsync`, `CreateProductAsync`, `UpdateOrderAsync`, the order-item and cart-item CRUD helpers, `ClearCartAsync`) are not modelled. They are thin `Add`/`Remove` wrappers that none of the modelled controllers call; `OrderController.Edit` writes through `UpdateOrderStatusAsync`, which is modelled.
- `OrderController.Create` deletes the `customerCart` cookie. That is browser state and is left out.
- The `RegisterViewModel` and `CartItemViewModel` classes are not part of this model. Their fields are modelled as `AuthService.RegisterForm` and `Checkout.CartLine`.
- The Functions app's `OrderEntity.cs` is not part of this model either. Its fields are modelled after its uses in `Map.cs` and `OrderFunctions.cs`.
- `HomeController.AdminDashboard`, `Contact`, `Privacy`, `Error` and `Dashboard` only render views or redirect by role. They are not modelled.
- `CustomerController.Index` (a plain list) and `Delete` (a call to `DeleteCustomerAsync`, which is modelled) have no controller-level model.

**Behaviour the source has as written (modelled, not corrected)**
- `OrderFunctions.Create` does not check that the quantity is positive. A quantity of 0 or less is accepted, and a negative one raises the stock.
- `ProductsFunctions.Create` and `ProductsFunctions.Update` upload the image before validation. A refused request still leaves the blob behind.
- `OrderController.Create` checks each cart line against the stock as it was before the loop. Two lines for the same product can overdraw the stock (`Checkout.RepeatedProductOverdraws`).
- `SqlDataService.WithStatus` stamps ProcessedDate only for "Processed" and "Shipped". The application's own status values say "Processing" (`SqlDataService.ProcessingIsNotStamped`).
