/** Functions/OrderFunctions.cs: the order endpoints of the Functions app. An order row holds one
    product. Creating one checks the product, its stock and the customer, in that order, then adds
    the row and takes the quantity off the product's stock; changing the status and deleting an
    order each send one message to the order-notifications queue. The fresh order id and the
    clock are inputs. */
module OrderFunctions {
  import opened Wrappers
  import opened Text
  import opened Models
  import opened Entities
  import opened Map
  import opened Http
  import opened Storage

  /** The JSON body of `POST orders`; a property missing from the JSON is null. */
  datatype OrderCreate = OrderCreate(customerId: Option<string>, productId: Option<string>, quantity: int)

  /** The JSON body of `PATCH orders/{id}/status`. */
  datatype OrderStatusUpdate = OrderStatusUpdate(status: Option<string>)

  const InvalidBody := "Invalid body"
  const CreateFailed := "Failed to create order"
  const InvalidStatus := "Invalid status in body"
  const OrderNotFound := "Order not found"
  const UpdatedBySystem := "System"

  function ProductNotFound(id: string): string {
    "Product with ID " + id + " not found."
  }

  function InsufficientStock(available: int, requested: int): string {
    "Insufficient stock. Available: " + IntToString(available) + ", Requested: " + IntToString(requested)
  }

  function CustomerNotFound(id: string): string {
    "Customer with ID " + id + " not found."
  }

  /** The order row Create adds: the product's name and price, the customer's Username, the
      requested quantity, and the fresh id as RowKey and Id. */
  function PlacedOrder(customerId: string, productId: string, quantity: int, product: ProductEntity,
                       customer: CustomerEntity, orderId: string, now: Time): (e: OrderEntity)
    ensures e.partitionKey == OrderPartition && e.rowKey == orderId && e.id == Some(orderId)
    ensures e.customerId == Some(customerId) && e.productId == Some(productId)
    ensures e.productName == product.productName && e.username == customer.username
    ensures e.quantity == quantity && e.unitPrice == product.price && e.totalPrice == product.price * quantity
    ensures e.status == Some(Submitted) && e.orderDate == now
  {
    NewOrderEntity(customerId, productId, product.productName, quantity, product.price, Some(orderId), orderId, now)
      .(username := customer.username)
  }

  /** The product row after the order: only its stock changes. */
  function Decremented(product: ProductEntity, quantity: int): (p: ProductEntity)
    ensures p == product.(stockAvailable := product.stockAvailable - quantity)
    ensures product.stockAvailable >= quantity ==> p.stockAvailable >= 0
  {
    product.(stockAvailable := product.stockAvailable - quantity)
  }

  /** A successful Create: the lookups chose rows `pk` and `ck` holding the ids, the product had
      the stock, the order row was added under ("Order", orderId), and the product row lost the
      quantity. */
  ghost predicate Placed(products0: map<Key, ProductEntity>, customers: map<Key, CustomerEntity>,
                         orders0: map<Key, OrderEntity>, products1: map<Key, ProductEntity>,
                         orders1: map<Key, OrderEntity>, input: OrderCreate, orderId: string, now: Time,
                         dto: OrderDto)
  {
    && input.customerId.Some? && input.productId.Some?
    && exists pk, ck ::
      && Chosen(products0, ProductPartition, input.productId.value, pk)
      && Chosen(customers, CustomerPartition, input.customerId.value, ck)
      && products0[pk].stockAvailable >= input.quantity
      && var e := PlacedOrder(input.customerId.value, input.productId.value, input.quantity, products0[pk],
                              customers[ck], orderId, now);
      && orders1 == orders0[(OrderPartition, orderId) := e]
      && products1 == products0[pk := Decremented(products0[pk], input.quantity)]
      && dto == OrderToDto(e)
  }

  /** What Create answers once the product row it looked up has `stock`: too little stock, then a
      null customer id (500), then a customer id no row has, and otherwise, when the order key is
      free, the new order. */
  ghost predicate AfterProduct(stock: int, body: OrderCreate, customers: map<Key, CustomerEntity>,
                               orders: map<Key, OrderEntity>, orderId: string, r: Response<OrderDto>)
  {
    && (stock < body.quantity ==> r == BadRequest(InsufficientStock(stock, body.quantity)))
    && (stock >= body.quantity && body.customerId.None? ==> r == InternalServerError(CreateFailed))
    && (stock >= body.quantity && body.customerId.Some? && !HasRowKey(customers, body.customerId.value)
        ==> r == BadRequest(CustomerNotFound(body.customerId.value)))
    && (stock >= body.quantity && body.customerId.Some? && HasRowKey(customers, body.customerId.value)
        && (OrderPartition, orderId) !in orders
        ==> r.Created?)
  }

  /** `Orders_Create`. A null id makes the table client throw, which the handler turns into a 500,
      as it does a clash with an existing order row. Quantity is not checked to be positive. */
  method Create(st: StorageAccount, input: Option<OrderCreate>, orderId: string, now: Time)
    returns (r: Response<OrderDto>)
    requires st.Valid()
    modifies st
    ensures st.Valid()
    ensures r.Created? || r.BadRequest? || r.InternalServerError?
    ensures input.None? ==> r == BadRequest(InvalidBody)
    ensures input.Some? && input.value.productId.None? ==> r == InternalServerError(CreateFailed)
    ensures input.Some? && input.value.productId.Some? && !HasRowKey(old(st.products), input.value.productId.value)
            ==> r == BadRequest(ProductNotFound(input.value.productId.value))
    ensures input.Some? && input.value.productId.Some?
            && (ProductPartition, input.value.productId.value) in old(st.products)
            ==> var stock := old(st.products)[(ProductPartition, input.value.productId.value)].stockAvailable;
                && (stock < input.value.quantity ==> r == BadRequest(InsufficientStock(stock, input.value.quantity)))
                && (stock >= input.value.quantity && input.value.customerId.Some?
                    && !HasRowKey(st.customers, input.value.customerId.value)
                    ==> r == BadRequest(CustomerNotFound(input.value.customerId.value)))
                && (stock >= input.value.quantity && input.value.customerId.Some?
                    && HasRowKey(st.customers, input.value.customerId.value)
                    && (OrderPartition, orderId) !in old(st.orders)
                    ==> r.Created?)
    ensures input.Some? && input.value.productId.Some? && HasRowKey(old(st.products), input.value.productId.value)
            ==> exists pk :: && Chosen(old(st.products), ProductPartition, input.value.productId.value, pk)
                             && AfterProduct(old(st.products)[pk].stockAvailable, input.value, st.customers,
                                             old(st.orders), orderId, r)
    ensures (OrderPartition, orderId) in old(st.orders) ==> !r.Created?
    ensures r.Created? ==> Placed(old(st.products), st.customers, old(st.orders), st.products, st.orders,
                                  input.value, orderId, now, r.body)
    ensures !r.Created? ==> st.products == old(st.products) && st.orders == old(st.orders)
    ensures st.customers == old(st.customers) && st.orderNotifications == old(st.orderNotifications)
    ensures st.productImages == old(st.productImages) && st.paymentProofs == old(st.paymentProofs)
  {
    if input.None? {
      return BadRequest(InvalidBody);
    }
    var body := input.value;
    if body.productId.None? {
      return InternalServerError(CreateFailed);
    }
    var productId := body.productId.value;
    var product, pk := Lookup(st.products, ProductPartition, productId);
    if product.None? {
      return BadRequest(ProductNotFound(productId));
    }
    assert Chosen(st.products, ProductPartition, productId, pk);
    if product.value.stockAvailable < body.quantity {
      return BadRequest(InsufficientStock(product.value.stockAvailable, body.quantity));
    }
    if body.customerId.None? {
      return InternalServerError(CreateFailed);
    }
    var customerId := body.customerId.value;
    var customer, ck := Lookup(st.customers, CustomerPartition, customerId);
    if customer.None? {
      return BadRequest(CustomerNotFound(customerId));
    }
    var entity := PlacedOrder(customerId, productId, body.quantity, product.value, customer.value, orderId, now);
    if (OrderPartition, orderId) in st.orders {
      return InternalServerError(CreateFailed);
    }
    st.orders := st.orders[(OrderPartition, orderId) := entity];
    var updated := Decremented(product.value, body.quantity);
    st.products := st.products[(updated.partitionKey, updated.rowKey) := updated];
    r := Created(OrderToDto(entity));
    assert Chosen(old(st.products), ProductPartition, productId, pk) && Chosen(st.customers, CustomerPartition, customerId, ck);
  }

  /** After a successful Create the order's figures are the request's and the product's, and the
      product's new stock is its old stock less the quantity, never below zero. */
  lemma PlacedOrderFigures(products0: map<Key, ProductEntity>, customers: map<Key, CustomerEntity>,
                           orders0: map<Key, OrderEntity>, products1: map<Key, ProductEntity>,
                           orders1: map<Key, OrderEntity>, input: OrderCreate, orderId: string, now: Time,
                           dto: OrderDto)
    requires Placed(products0, customers, orders0, products1, orders1, input, orderId, now, dto)
    ensures (OrderPartition, orderId) in orders1 && orders1[(OrderPartition, orderId)].status == Some(Submitted)
    ensures dto.quantity == input.quantity && dto.status == Some(Submitted) && dto.id == Some(orderId)
    ensures exists pk :: pk in products0 && pk.1 == input.productId.value && pk in products1
                         && products1[pk].stockAvailable == products0[pk].stockAvailable - input.quantity
                         && products1[pk].stockAvailable >= 0
                         && dto.totalAmount == products0[pk].price * input.quantity
    ensures products1.Keys == products0.Keys
  {
    var pk, ck :| && Chosen(products0, ProductPartition, input.productId.value, pk)
                  && Chosen(customers, CustomerPartition, input.customerId.value, ck)
                  && products0[pk].stockAvailable >= input.quantity
                  && var e := PlacedOrder(input.customerId.value, input.productId.value, input.quantity, products0[pk],
                                          customers[ck], orderId, now);
                  && orders1 == orders0[(OrderPartition, orderId) := e]
                  && products1 == products0[pk := Decremented(products0[pk], input.quantity)]
                  && dto == OrderToDto(e);
    assert pk in products1;
  }

  /** The row after a status change: only Status differs. */
  function WithStatus(e: OrderEntity, status: string): (u: OrderEntity)
    ensures u.status == Some(status)
    ensures u.(status := e.status) == e
  {
    e.(status := Some(status))
  }

  /** The "OrderStatusUpdated" message for a status change of row `e`. */
  function StatusMessage(e: OrderEntity, status: string, now: Time): (m: QueueMessage)
    ensures m.OrderStatusUpdated? && m.orderId == e.rowKey && m.updatedBy == UpdatedBySystem
    ensures m.customerId == e.customerId && m.productId == e.productId
  {
    OrderStatusUpdated(e.rowKey, e.status, status, now, UpdatedBySystem, e.customerId, e.productId)
  }

  /** A status message records the change exactly: putting back its PreviousStatus restores the
      old row, and applying its NewStatus to the old row gives the new one. */
  lemma StatusMessageRecordsChange(e: OrderEntity, status: string, now: Time)
    ensures var m := StatusMessage(e, status, now);
      && WithStatus(e, status).(status := m.previousStatus) == e
      && WithStatus(e, m.newStatus) == WithStatus(e, status)
      && m.previousStatus == e.status && m.newStatus == status
  {
  }

  /** `Orders_UpdateStatus`: a null or blank status is refused with nothing written; a missing
      order row is a 404; otherwise only Status changes and exactly one message is sent. */
  method UpdateStatus(st: StorageAccount, id: string, input: Option<OrderStatusUpdate>, now: Time)
    returns (r: Response<OrderDto>)
    requires st.Valid()
    modifies st
    ensures st.Valid()
    ensures input.None? || IsNullOrWhiteSpace(input.value.status) ==> r == BadRequest(InvalidStatus)
    ensures input.Some? && !IsNullOrWhiteSpace(input.value.status) && (OrderPartition, id) !in old(st.orders)
            ==> r == NotFound(OrderNotFound)
    ensures input.Some? && !IsNullOrWhiteSpace(input.value.status) && (OrderPartition, id) in old(st.orders)
            ==> var e := old(st.orders)[(OrderPartition, id)];
                var status := input.value.status.value;
                && st.orders == old(st.orders)[(OrderPartition, id) := WithStatus(e, status)]
                && st.orderNotifications == old(st.orderNotifications) + [StatusMessage(e, status, now)]
                && r == Ok(OrderToDto(WithStatus(e, status)))
    ensures !r.Ok? ==> st.orders == old(st.orders) && st.orderNotifications == old(st.orderNotifications)
    ensures st.customers == old(st.customers) && st.products == old(st.products)
    ensures st.productImages == old(st.productImages) && st.paymentProofs == old(st.paymentProofs)
  {
    if input.None? || IsNullOrWhiteSpace(input.value.status) {
      return BadRequest(InvalidStatus);
    }
    var key := (OrderPartition, id);
    if key !in st.orders {
      return NotFound(OrderNotFound);
    }
    var e := st.orders[key];
    var status := input.value.status.value;
    var updated := WithStatus(e, status);
    st.orders := st.orders[key := updated];
    st.orderNotifications := st.orderNotifications + [StatusMessage(e, status, now)];
    r := Ok(OrderToDto(updated));
  }

  /** `Orders_Delete`: a missing order row is a 404; otherwise the row goes and one
      "OrderDeleted" message names it and its customer. */
  method Delete(st: StorageAccount, id: string, now: Time) returns (r: Response<OrderDto>)
    requires st.Valid()
    modifies st
    ensures st.Valid()
    ensures (OrderPartition, id) !in old(st.orders) ==> r == NotFound(OrderNotFound)
    ensures (OrderPartition, id) in old(st.orders)
            ==> && r == NoContent
                && st.orders == old(st.orders) - {(OrderPartition, id)}
                && st.orderNotifications == old(st.orderNotifications)
                   + [OrderDeleted(id, old(st.orders)[(OrderPartition, id)].customerId, now)]
    ensures !r.NoContent? ==> st.orders == old(st.orders) && st.orderNotifications == old(st.orderNotifications)
    ensures st.customers == old(st.customers) && st.products == old(st.products)
    ensures st.productImages == old(st.productImages) && st.paymentProofs == old(st.paymentProofs)
  {
    var key := (OrderPartition, id);
    if key !in st.orders {
      return NotFound(OrderNotFound);
    }
    var existing := st.orders[key];
    st.orders := st.orders - {key};
    st.orderNotifications := st.orderNotifications + [OrderDeleted(id, existing.customerId, now)];
    r := NoContent;
  }
}
