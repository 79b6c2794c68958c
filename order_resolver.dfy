/** src/graphql/resolvers/orderResolver.ts: orders with their nested items. Both mutations catch
    everything, their own not-found errors included, and report INTERNAL_SERVER_ERROR. */
module OrderResolver {
  import opened Errors
  import opened Store

  /** `OrderItemInput` from src/types/types.ts. */
  datatype OrderItemInput = OrderItemInput(furnitureId: int, price: real, quantity: int)

  /** The nested `items.create` list: `items.map(item => ({ furnitureId, price, quantity }))`. */
  function OrderItemsOf(items: seq<OrderItemInput>): (r: seq<OrderItem>)
    ensures |r| == |items|
    ensures forall i | 0 <= i < |items| ::
              r[i].furnitureId == items[i].furnitureId && r[i].price == items[i].price
              && r[i].quantity == items[i].quantity
  {
    if items == [] then []
    else [OrderItem(items[0].furnitureId, items[0].price, items[0].quantity)] + OrderItemsOf(items[1..])
  }

  /** `orders()`: every order. */
  method AllOrders(db: Database) returns (r: map<int, Order>)
    requires db.Valid()
    ensures r == db.orders
    ensures forall id | id in r :: r[id].id == id
  {
    r := db.orders;
  }

  /** `createOrder(userId, items, totalPrice)`: the USER_NOT_FOUND thrown inside the try block is
      replaced by INTERNAL_SERVER_ERROR. The total is stored as given, never compared with the items;
      the status is the schema's default. */
  method CreateOrder(db: Database, userId: int, items: seq<OrderItemInput>, totalPrice: real)
    returns (r: Result<Order>)
    requires db.Valid()
    modifies db`orders, db`nextOrderId
    ensures db.Valid()
    ensures !HasUserId(db.users, userId) ==>
              r == Err(InternalServerError) && db.orders == old(db.orders) && db.nextOrderId == old(db.nextOrderId)
    ensures HasUserId(db.users, userId) ==>
              r == Ok(Order(old(db.nextOrderId), userId, totalPrice, db.defaultOrderStatus, OrderItemsOf(items)))
              && db.orders == old(db.orders)[old(db.nextOrderId) := r.value]
              && db.nextOrderId == old(db.nextOrderId) + 1
  {
    var body: Result<Order>;
    if !HasUserId(db.users, userId) {
      body := Err(UserNotFound);
    } else {
      var order := Order(db.nextOrderId, userId, totalPrice, db.defaultOrderStatus, OrderItemsOf(items));
      db.orders := db.orders[order.id := order];
      db.nextOrderId := db.nextOrderId + 1;
      body := Ok(order);
    }
    r := Rethrow(body, InternalServerError);
  }

  /** `updateOrderStatus(orderId, status)`: only the status changes. */
  method UpdateOrderStatus(db: Database, orderId: int, status: OrderStatus) returns (r: Result<Order>)
    requires db.Valid()
    modifies db`orders
    ensures db.Valid()
    ensures orderId !in old(db.orders) ==> r == Err(InternalServerError) && db.orders == old(db.orders)
    ensures orderId in old(db.orders) ==>
              r.Ok? && r.value.status == status && r.value.(status := old(db.orders)[orderId].status) == old(db.orders)[orderId]
              && db.orders == old(db.orders)[orderId := r.value]
  {
    var body: Result<Order>;
    if orderId !in db.orders {
      body := Err(OrderNotFound);
    } else {
      var updated := db.orders[orderId].(status := status);
      db.orders := db.orders[orderId := updated];
      body := Ok(updated);
    }
    r := Rethrow(body, InternalServerError);
  }

  /** The projection works item by item: the items of two lists joined are the items of each, joined. */
  lemma {:induction false} OrderItemsOfAppend(a: seq<OrderItemInput>, b: seq<OrderItemInput>)
    ensures OrderItemsOf(a + b) == OrderItemsOf(a) + OrderItemsOf(b)
  {
    if a == [] {
      assert a + b == b;
    } else {
      assert (a + b)[1..] == a[1..] + b;
      OrderItemsOfAppend(a[1..], b);
    }
  }

  /** No input item is lost or invented: each input item has its counterpart, in the same place. */
  lemma OrderItemsOfInjective(a: seq<OrderItemInput>, b: seq<OrderItemInput>)
    requires OrderItemsOf(a) == OrderItemsOf(b)
    ensures a == b
  {
    assert |a| == |b|;
    forall i | 0 <= i < |a|
      ensures a[i] == b[i]
    {
      assert OrderItemsOf(a)[i] == OrderItemsOf(b)[i];
    }
  }
}
