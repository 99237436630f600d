/** The web application's persisted entities (Models/Customer.cs, Product.cs, Order.cs,
    OrderItem.cs). Decimal amounts are `Money` (an exact whole number of cents); `Time` is an
    abstract UTC timestamp supplied by the caller. */
module Models {
  import opened Wrappers

  type Money = int
  type Time = int

  const Active := "Active"
  const Inactive := "Inactive"
  const RoleCustomer := "Customer"
  const RoleAdmin := "Admin"

  const Pending := "Pending"
  const Processing := "Processing"
  const Shipped := "Shipped"
  const Delivered := "Delivered"
  const Cancelled := "Cancelled"

  datatype Customer = Customer(
    id: string,
    name: string,
    surname: string,
    username: string,
    email: string,
    phone: string,
    shippingAddress: string,
    passwordHash: string,
    role: string,
    status: string,
    createdDate: Time,
    ordersCount: int,
    lastLogin: Option<Time>,
    timestamp: Time)

  /** `Customer.FullName`. */
  function FullName(c: Customer): string {
    c.name + " " + c.surname
  }

  datatype Product = Product(
    id: string,
    productName: string,
    description: string,
    price: Money,
    stockAvailable: int,
    imageUrl: Option<string>,
    category: Option<string>,
    isActive: bool,
    timestamp: Time)

  datatype Order = Order(
    id: string,
    customerId: string,
    orderDate: Time,
    totalAmount: Money,
    status: string,
    shippingAddress: string,
    customerNotes: Option<string>,
    processedDate: Option<Time>,
    processedBy: Option<string>,
    timestamp: Time)

  datatype OrderItem = OrderItem(
    id: string,
    orderId: string,
    productId: string,
    productName: string,
    quantity: int,
    unitPrice: Money,
    totalPrice: Money)

  // Primary keys, for the tables of the database context.
  function CustomerKey(c: Customer): string { c.id }
  function ProductKey(p: Product): string { p.id }
  function OrderKey(o: Order): string { o.id }
  function OrderItemKey(i: OrderItem): string { i.id }
}
