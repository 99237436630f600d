/** The Azure Table Storage rows and the JSON transfer objects of the Functions app
    (ABCRetailsFunctions/Entities, ABCRetailsFunctions/Models/ApiModels.cs). A string property
    that storage or JSON may leave null is an `Option<string>`; prices are whole amounts. */
module Entities {
  import opened Wrappers
  import opened Models

  const CustomerPartition := "Customer"
  const ProductPartition := "Product"
  const OrderPartition := "Order"
  const Submitted := "Submitted"

  datatype CustomerEntity = CustomerEntity(
    partitionKey: string,
    rowKey: string,
    name: Option<string>,
    surname: Option<string>,
    username: Option<string>,
    email: Option<string>,
    phone: Option<string>,
    shippingAddress: Option<string>,
    id: Option<string>)

  datatype ProductEntity = ProductEntity(
    partitionKey: string,
    rowKey: string,
    productName: Option<string>,
    description: Option<string>,
    price: Money,
    stockAvailable: int,
    imageUrl: Option<string>,
    id: Option<string>)

  /** The order row: one product per order. */
  datatype OrderEntity = OrderEntity(
    partitionKey: string,
    rowKey: string,
    customerId: Option<string>,
    productId: Option<string>,
    productName: Option<string>,
    quantity: int,
    unitPrice: Money,
    totalPrice: Money,
    orderDate: Time,
    status: Option<string>,
    username: Option<string>,
    id: Option<string>)

  datatype CustomerDto = CustomerDto(
    id: Option<string>,
    name: Option<string>,
    surname: Option<string>,
    username: Option<string>,
    email: Option<string>,
    shippingAddress: Option<string>)

  datatype ProductDto = ProductDto(
    id: Option<string>,
    productName: Option<string>,
    description: Option<string>,
    price: Money,
    stockAvailable: int,
    imageUrl: Option<string>)

  datatype OrderDto = OrderDto(
    id: Option<string>,
    customerId: Option<string>,
    productId: Option<string>,
    productName: Option<string>,
    quantity: int,
    unitPrice: Money,
    totalAmount: Money,
    orderDateUtc: Time,
    status: Option<string>)
}
