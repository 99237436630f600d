/** Helpers/Map.cs: entity to DTO, DTO to entity, and the partial-update merges. The conversions
    between `double` and `decimal` are the identity on these whole amounts. */
module Map {
  import opened Wrappers
  import opened Text
  import opened Models
  import opened Entities

  /** `s ?? string.Empty`. */
  function OrEmpty(s: Option<string>): (r: string)
    ensures s.Some? ==> r == s.value
    ensures s.None? ==> r == ""
  {
    s.GetOr("")
  }

  // ------------------------------------------------------------ to DTO

  /** The customer DTO: Id is the RowKey; absent strings become "". */
  function CustomerToDto(e: CustomerEntity): (d: CustomerDto)
    ensures d.id == Some(e.rowKey)
    ensures d.name == Some(OrEmpty(e.name)) && d.surname == Some(OrEmpty(e.surname))
    ensures d.username == Some(OrEmpty(e.username)) && d.email == Some(OrEmpty(e.email))
    ensures d.shippingAddress == Some(OrEmpty(e.shippingAddress))
  {
    CustomerDto(Some(e.rowKey), Some(OrEmpty(e.name)), Some(OrEmpty(e.surname)), Some(OrEmpty(e.username)),
                Some(OrEmpty(e.email)), Some(OrEmpty(e.shippingAddress)))
  }

  function ProductToDto(e: ProductEntity): (d: ProductDto)
    ensures d.id == Some(e.rowKey)
    ensures d.productName == Some(OrEmpty(e.productName)) && d.description == Some(OrEmpty(e.description))
    ensures d.price == e.price && d.stockAvailable == e.stockAvailable
    ensures d.imageUrl == Some(OrEmpty(e.imageUrl))
  {
    ProductDto(Some(e.rowKey), Some(OrEmpty(e.productName)), Some(OrEmpty(e.description)), e.price,
               e.stockAvailable, Some(OrEmpty(e.imageUrl)))
  }

  /** The order DTO: TotalAmount is the row's TotalPrice, and a missing Status reads "Submitted". */
  function OrderToDto(e: OrderEntity): (d: OrderDto)
    ensures d.id == Some(e.rowKey)
    ensures d.customerId == Some(OrEmpty(e.customerId)) && d.productId == Some(OrEmpty(e.productId))
    ensures d.productName == Some(OrEmpty(e.productName))
    ensures d.quantity == e.quantity && d.unitPrice == e.unitPrice && d.totalAmount == e.totalPrice
    ensures d.orderDateUtc == e.orderDate
    ensures d.status == Some(if e.status.Some? then e.status.value else Submitted)
  {
    OrderDto(Some(e.rowKey), Some(OrEmpty(e.customerId)), Some(OrEmpty(e.productId)), Some(OrEmpty(e.productName)),
             e.quantity, e.unitPrice, e.totalPrice, e.orderDate, Some(e.status.GetOr(Submitted)))
  }

  // ------------------------------------------------------------ to entity

  /** `rowKey ?? dto.Id ?? Guid.NewGuid()`: only a null falls through, so an empty Id is kept. */
  function RowKeyFor(rowKey: Option<string>, dtoId: Option<string>, freshId: string): (k: string)
    ensures rowKey.Some? ==> k == rowKey.value
    ensures rowKey.None? && dtoId.Some? ==> k == dtoId.value
    ensures rowKey.None? && dtoId.None? ==> k == freshId
  {
    if rowKey.Some? then rowKey.value else if dtoId.Some? then dtoId.value else freshId
  }

  /** The customer row for a DTO: Id and RowKey are the same key; Phone is left "". */
  function CustomerToEntity(d: CustomerDto, rowKey: Option<string>, freshId: string): (e: CustomerEntity)
    ensures e.partitionKey == CustomerPartition
    ensures e.rowKey == RowKeyFor(rowKey, d.id, freshId) && e.id == Some(e.rowKey)
    ensures e.name == d.name && e.surname == d.surname && e.username == d.username
    ensures e.email == d.email && e.shippingAddress == d.shippingAddress && e.phone == Some("")
  {
    var key := RowKeyFor(rowKey, d.id, freshId);
    CustomerEntity(CustomerPartition, key, d.name, d.surname, d.username, d.email, Some(""), d.shippingAddress, Some(key))
  }

  function ProductToEntity(d: ProductDto, rowKey: Option<string>, freshId: string): (e: ProductEntity)
    ensures e.partitionKey == ProductPartition
    ensures e.rowKey == RowKeyFor(rowKey, d.id, freshId) && e.id == Some(e.rowKey)
    ensures e.productName == d.productName && e.description == d.description && e.price == d.price
    ensures e.stockAvailable == d.stockAvailable && e.imageUrl == d.imageUrl
  {
    var key := RowKeyFor(rowKey, d.id, freshId);
    ProductEntity(ProductPartition, key, d.productName, d.description, d.price, d.stockAvailable, d.imageUrl, Some(key))
  }

  function OrderToEntity(d: OrderDto, rowKey: Option<string>, freshId: string): (e: OrderEntity)
    ensures e.partitionKey == OrderPartition
    ensures e.rowKey == RowKeyFor(rowKey, d.id, freshId) && e.id == Some(e.rowKey)
    ensures e.customerId == d.customerId && e.productId == d.productId && e.productName == d.productName
    ensures e.quantity == d.quantity && e.unitPrice == d.unitPrice && e.totalPrice == d.totalAmount
    ensures e.orderDate == d.orderDateUtc && e.status == d.status && e.username.None?
  {
    var key := RowKeyFor(rowKey, d.id, freshId);
    OrderEntity(OrderPartition, key, d.customerId, d.productId, d.productName, d.quantity, d.unitPrice,
                d.totalAmount, d.orderDateUtc, d.status, None, Some(key))
  }

  /** `ToOrderEntity`: a new order row for one product, priced at unit price times quantity,
      status "Submitted", keyed by the given row key or a fresh id. */
  function NewOrderEntity(customerId: string, productId: string, productName: Option<string>, quantity: int,
                          unitPrice: Money, rowKey: Option<string>, freshId: string, now: Time): (e: OrderEntity)
    ensures e.partitionKey == OrderPartition
    ensures e.rowKey == (if rowKey.Some? then rowKey.value else freshId) && e.id == Some(e.rowKey)
    ensures e.customerId == Some(customerId) && e.productId == Some(productId) && e.productName == productName
    ensures e.quantity == quantity && e.unitPrice == unitPrice && e.totalPrice == unitPrice * quantity
    ensures e.status == Some(Submitted) && e.orderDate == now && e.username.None?
  {
    var key := if rowKey.Some? then rowKey.value else freshId;
    OrderEntity(OrderPartition, key, Some(customerId), Some(productId), productName, quantity, unitPrice,
                unitPrice * quantity, now, Some(Submitted), None, Some(key))
  }

  /** A customer DTO with all its strings present survives the trip to a row and back; the
      row key is its own Id. */
  lemma CustomerRoundTrip(d: CustomerDto, freshId: string)
    requires d.id.Some? && d.name.Some? && d.surname.Some? && d.username.Some?
    requires d.email.Some? && d.shippingAddress.Some?
    ensures CustomerToDto(CustomerToEntity(d, None, freshId)) == d
  {
  }

  /** Only a null Id falls through to a fresh key: the DTO's default Id, "", becomes the row key. */
  lemma EmptyIdIsKept(d: CustomerDto, freshId: string)
    requires d.id == Some("")
    ensures CustomerToEntity(d, None, freshId).rowKey == ""
  {
  }

  /** A product DTO round-trips too. */
  lemma ProductRoundTrip(d: ProductDto, freshId: string)
    requires d.id.Some? && d.productName.Some? && d.description.Some? && d.imageUrl.Some?
    ensures ProductToDto(ProductToEntity(d, None, freshId)) == d
  {
  }

  // ------------------------------------------------------------ merges

  /** The new value of a string property: the DTO's when it is not null or empty. A null or
      empty DTO value never overwrites, so a non-empty property never becomes null or empty, and
      picking the same DTO value again changes nothing. */
  function Pick(current: Option<string>, incoming: Option<string>): (r: Option<string>)
    ensures r == current || (r == incoming && !IsNullOrEmpty(incoming))
    ensures !IsNullOrEmpty(incoming) ==> r == incoming
    ensures !IsNullOrEmpty(current) ==> !IsNullOrEmpty(r)
  {
    if IsNullOrEmpty(incoming) then current else incoming
  }

  /** `UpdateEntity(CustomerEntity, CustomerDto)`. */
  function MergeCustomer(e: CustomerEntity, d: CustomerDto): CustomerEntity {
    e.(name := Pick(e.name, d.name), surname := Pick(e.surname, d.surname), username := Pick(e.username, d.username),
       email := Pick(e.email, d.email), shippingAddress := Pick(e.shippingAddress, d.shippingAddress),
       id := Pick(e.id, d.id))
  }

  /** `UpdateEntity(ProductEntity, ProductDto)`: StockAvailable always, Price when positive. */
  function MergeProduct(e: ProductEntity, d: ProductDto): ProductEntity {
    e.(productName := Pick(e.productName, d.productName), description := Pick(e.description, d.description),
       price := if d.price > 0 then d.price else e.price, stockAvailable := d.stockAvailable,
       imageUrl := Pick(e.imageUrl, d.imageUrl), id := Pick(e.id, d.id))
  }

  /** `UpdateEntity(OrderEntity, OrderDto)`: numbers when positive, strings when not empty. */
  function MergeOrder(e: OrderEntity, d: OrderDto): OrderEntity {
    e.(customerId := Pick(e.customerId, d.customerId), productId := Pick(e.productId, d.productId),
       productName := Pick(e.productName, d.productName),
       quantity := if d.quantity > 0 then d.quantity else e.quantity,
       unitPrice := if d.unitPrice > 0 then d.unitPrice else e.unitPrice,
       totalPrice := if d.totalAmount > 0 then d.totalAmount else e.totalPrice,
       status := Pick(e.status, d.status), id := Pick(e.id, d.id))
  }

  /** The customer merge, assignment by assignment. */
  method UpdateCustomerEntity(entity: CustomerEntity, d: CustomerDto) returns (e: CustomerEntity)
    ensures e == MergeCustomer(entity, d)
  {
    e := entity;
    if !IsNullOrEmpty(d.name) { e := e.(name := d.name); }
    if !IsNullOrEmpty(d.surname) { e := e.(surname := d.surname); }
    if !IsNullOrEmpty(d.username) { e := e.(username := d.username); }
    if !IsNullOrEmpty(d.email) { e := e.(email := d.email); }
    if !IsNullOrEmpty(d.shippingAddress) { e := e.(shippingAddress := d.shippingAddress); }
    if !IsNullOrEmpty(d.id) { e := e.(id := d.id); }
  }

  method UpdateProductEntity(entity: ProductEntity, d: ProductDto) returns (e: ProductEntity)
    ensures e == MergeProduct(entity, d)
  {
    e := entity;
    if !IsNullOrEmpty(d.productName) { e := e.(productName := d.productName); }
    if !IsNullOrEmpty(d.description) { e := e.(description := d.description); }
    if d.price > 0 { e := e.(price := d.price); }
    e := e.(stockAvailable := d.stockAvailable);
    if !IsNullOrEmpty(d.imageUrl) { e := e.(imageUrl := d.imageUrl); }
    if !IsNullOrEmpty(d.id) { e := e.(id := d.id); }
  }

  method UpdateOrderEntity(entity: OrderEntity, d: OrderDto) returns (e: OrderEntity)
    ensures e == MergeOrder(entity, d)
  {
    e := entity;
    if !IsNullOrEmpty(d.customerId) { e := e.(customerId := d.customerId); }
    if !IsNullOrEmpty(d.productId) { e := e.(productId := d.productId); }
    if !IsNullOrEmpty(d.productName) { e := e.(productName := d.productName); }
    if d.quantity > 0 { e := e.(quantity := d.quantity); }
    if d.unitPrice > 0 { e := e.(unitPrice := d.unitPrice); }
    if d.totalAmount > 0 { e := e.(totalPrice := d.totalAmount); }
    if !IsNullOrEmpty(d.status) { e := e.(status := d.status); }
    if !IsNullOrEmpty(d.id) { e := e.(id := d.id); }
  }

  /** What the customer merge keeps and replaces: the keys and Phone never change; a property
      changes only to a non-empty DTO value; a DTO of empty strings changes nothing; merging the
      same DTO twice is merging it once. */
  lemma MergeCustomerRules(e: CustomerEntity, d: CustomerDto)
    ensures var m := MergeCustomer(e, d);
      && m.rowKey == e.rowKey && m.partitionKey == e.partitionKey && m.phone == e.phone
      && (m.name != e.name ==> m.name == d.name && !IsNullOrEmpty(d.name))
      && (m.email != e.email ==> m.email == d.email && !IsNullOrEmpty(d.email))
      && MergeCustomer(m, d) == m
    ensures (forall s :: s in [d.id, d.name, d.surname, d.username, d.email, d.shippingAddress] ==> IsNullOrEmpty(s))
            ==> MergeCustomer(e, d) == e
  {
  }

  /** The product merge: the keys never change, StockAvailable is always the DTO's, Price
      changes only to a positive DTO price, and merging twice is merging once. */
  lemma MergeProductRules(e: ProductEntity, d: ProductDto)
    ensures var m := MergeProduct(e, d);
      && m.rowKey == e.rowKey && m.partitionKey == e.partitionKey
      && m.stockAvailable == d.stockAvailable
      && (m.price != e.price ==> m.price == d.price && d.price > 0)
      && (d.price <= 0 ==> m.price == e.price)
      && MergeProduct(m, d) == m
  {
  }

  /** The order merge: the keys, OrderDate and Username never change; a number changes only to
      a positive DTO value; merging twice is merging once. */
  lemma MergeOrderRules(e: OrderEntity, d: OrderDto)
    ensures var m := MergeOrder(e, d);
      && m.rowKey == e.rowKey && m.partitionKey == e.partitionKey
      && m.orderDate == e.orderDate && m.username == e.username
      && (m.quantity != e.quantity ==> m.quantity == d.quantity && d.quantity > 0)
      && (m.totalPrice != e.totalPrice ==> m.totalPrice == d.totalAmount && d.totalAmount > 0)
      && (m.status != e.status ==> m.status == d.status && !IsNullOrEmpty(d.status))
      && MergeOrder(m, d) == m
  {
  }
}
