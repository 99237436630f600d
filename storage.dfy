/** The Azure Storage account the Functions app works on: three tables whose rows are addressed
    by (PartitionKey, RowKey), the "order-notifications" queue, the product-image container and
    the payment-proof container. */
module Storage {
  import opened Wrappers
  import opened Models
  import opened Entities
  import opened Base64

  /** A table address: (PartitionKey, RowKey). */
  type Key = (string, string)

  /** The messages OrderFunctions sends to the order-notifications queue. */
  datatype QueueMessage =
    | OrderStatusUpdated(orderId: string, previousStatus: Option<string>, newStatus: string,
                         updatedDateUtc: Time, updatedBy: string, customerId: Option<string>, productId: Option<string>)
    | OrderDeleted(orderId: string, customerId: Option<string>, deletedDateUtc: Time)

  /** A stored blob: its bytes, its Content-Type header and its metadata. */
  datatype Blob = Blob(data: seq<byte>, contentType: string, metadata: map<string, string>)

  /** The URI of a blob in a container. */
  function BlobUri(containerUri: string, blobName: string): string {
    containerUri + "/" + blobName
  }

  /** Some row of the table has this RowKey, in any partition. */
  predicate HasRowKey<V>(table: map<Key, V>, rowKey: string) {
    exists k :: k in table && k.1 == rowKey
  }

  /** The row a lookup by (partition, rowKey) that falls back to a query on RowKey alone may
      return: the addressed row when it exists, otherwise any row with that RowKey. */
  predicate Chosen<V>(table: map<Key, V>, partition: string, rowKey: string, k: Key) {
    k in table && k.1 == rowKey && ((partition, rowKey) in table ==> k == (partition, rowKey))
  }

  predicate CustomersKeyed(t: map<Key, CustomerEntity>) {
    forall k :: k in t ==> t[k].partitionKey == k.0 && t[k].rowKey == k.1
  }

  predicate ProductsKeyed(t: map<Key, ProductEntity>) {
    forall k :: k in t ==> t[k].partitionKey == k.0 && t[k].rowKey == k.1
  }

  predicate OrdersKeyed(t: map<Key, OrderEntity>) {
    forall k :: k in t ==> t[k].partitionKey == k.0 && t[k].rowKey == k.1
  }

  /** Storing a row under its own keys keeps a table keyed. */
  lemma ProductStoredUnderItsKeys(t: map<Key, ProductEntity>, e: ProductEntity)
    requires ProductsKeyed(t)
    ensures ProductsKeyed(t[(e.partitionKey, e.rowKey) := e])
  {
  }

  class StorageAccount {
    var customers: map<Key, CustomerEntity>
    var products: map<Key, ProductEntity>
    var orders: map<Key, OrderEntity>
    var orderNotifications: seq<QueueMessage>
    var productImages: map<string, seq<byte>>
    var paymentProofs: map<string, Blob>

    /** Every row is stored under its own PartitionKey and RowKey. */
    ghost predicate Valid()
      reads this
    {
      CustomersKeyed(customers) && ProductsKeyed(products) && OrdersKeyed(orders)
    }

    constructor ()
      ensures Valid()
      ensures customers == map[] && products == map[] && orders == map[]
      ensures orderNotifications == [] && productImages == map[] && paymentProofs == map[]
    {
      customers, products, orders := map[], map[], map[];
      orderNotifications, productImages, paymentProofs := [], map[], map[];
    }
  }

  /** `GetEntityAsync(partition, rowKey)`, and on a 404 the first row of
      `QueryAsync(e => e.RowKey == rowKey)`. Which row a query returns first when several
      partitions hold the RowKey is left open. */
  method Lookup<V>(table: map<Key, V>, partition: string, rowKey: string) returns (r: Option<V>, k: Key)
    ensures r.None? <==> !HasRowKey(table, rowKey)
    ensures r.Some? ==> Chosen(table, partition, rowKey, k) && r.value == table[k]
  {
    if (partition, rowKey) in table {
      k := (partition, rowKey);
      r := Some(table[(partition, rowKey)]);
    } else if key :| key in table && key.1 == rowKey {
      k := key;
      r := Some(table[key]);
    } else {
      k := (partition, rowKey);
      r := None;
    }
  }
}
