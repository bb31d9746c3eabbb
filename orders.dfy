/**
 * The Order model: order numbers, the `creating` hook, status predicates,
 * `hasItem`, `scopeCompleted`, and the orders / order_items tables.
 * Money is in minor units; only attributes in Order's `$fillable` are stored.
 */
module Orders {
  import opened Basics
  import opened Formats

  datatype OrderItem = OrderItem(
    orderId: OrderId,
    itemType: ItemType,
    itemId: nat,
    itemName: string,
    quantity: int,
    price: int)

  datatype Order = Order(
    id: OrderId,
    userId: UserId,
    orderNumber: Option<string>,
    totalAmount: int,
    discountAmount: int,
    finalAmount: int,
    paymentStatus: PaymentStatus,
    paymentMethod: string,
    paymentId: Option<string>,
    couponId: Option<CouponId>,
    notes: Option<string>)

  /**
   * `Order::generateOrderNumber()`: "CM-", today's 'Ymd' stamp, "-", then
   * the first six characters of an md5 digest in upper case.
   */
  function GenerateOrderNumber(today: DateTime, digest: string): string
    requires ValidDateTime(today) && IsMd5Digest(digest)
  {
    "CM-" + Ymd(today) + "-" + UpperHex(digest[..6])
  }

  /** An order number has the documented shape, and its date can be read back. */
  lemma OrderNumberShape(today: DateTime, digest: string)
    requires ValidDateTime(today) && IsMd5Digest(digest)
    ensures var r := GenerateOrderNumber(today, digest);
      && |r| == 18
      && r[..3] == "CM-"
      && IsDigits(r[3..11])
      && r[11] == '-'
      && (forall i :: 12 <= i < 18 ==> IsUpperHexChar(r[i]))
      && DecimalValue(r[3..7]) == today.year
      && DecimalValue(r[7..9]) == today.month
      && DecimalValue(r[9..11]) == today.day
  {
    var r := GenerateOrderNumber(today, digest);
    var d := Ymd(today);
    assert r[3..11] == d;
    assert r[3..7] == d[..4] && r[7..9] == d[4..6] && r[9..11] == d[6..];
    YmdRoundTrip(today);
    var u := UpperHex(digest[..6]);
    assert forall i :: 12 <= i < 18 ==> r[i] == u[i - 12];
  }

  /** The `creating` hook: fill in a generated number only when none is set. */
  function Creating(o: Order, generated: string): (r: Order)
    ensures IsBlank(o.orderNumber) ==> r == o.(orderNumber := Some(generated))
    ensures !IsBlank(o.orderNumber) ==> r == o
  {
    if IsBlank(o.orderNumber) then o.(orderNumber := Some(generated)) else o
  }

  /** A generated number is never blank, so the hook keeps it. */
  lemma CreatingKeepsGeneratedNumber(o: Order, today: DateTime, digest: string, other: string)
    requires ValidDateTime(today) && IsMd5Digest(digest)
    requires o.orderNumber == Some(GenerateOrderNumber(today, digest))
    ensures Creating(o, other) == o
  {
    OrderNumberShape(today, digest);
  }

  predicate IsCompleted(o: Order) { o.paymentStatus == Completed }
  predicate IsPending(o: Order) { o.paymentStatus == Pending }
  predicate HasFailed(o: Order) { o.paymentStatus == Failed }
  predicate IsRefunded(o: Order) { o.paymentStatus == Refunded }

  /** At most one status predicate holds. */
  lemma StatusesExclusive(o: Order)
    ensures (if IsCompleted(o) then 1 else 0) + (if IsPending(o) then 1 else 0) +
            (if HasFailed(o) then 1 else 0) + (if IsRefunded(o) then 1 else 0) <= 1
  {
  }

  /** `$order->orderItems`: the items of one order, in table order. */
  function ItemsOf(items: seq<OrderItem>, id: OrderId): (r: seq<OrderItem>)
    ensures forall it :: it in r <==> it in items && it.orderId == id
    ensures |r| <= |items|
  {
    if items == [] then []
    else (if items[0].orderId == id then [items[0]] else []) + ItemsOf(items[1..], id)
  }

  /** `hasItem($itemId, $itemType)`. */
  predicate HasItem(items: seq<OrderItem>, id: OrderId, itemId: nat, itemType: ItemType)
  {
    exists it :: it in ItemsOf(items, id) && it.itemId == itemId && it.itemType == itemType
  }

  lemma HasItemIff(items: seq<OrderItem>, id: OrderId, itemId: nat, itemType: ItemType)
    ensures HasItem(items, id, itemId, itemType) <==>
      exists j :: 0 <= j < |items| && items[j].orderId == id && items[j].itemId == itemId && items[j].itemType == itemType
  {
    if HasItem(items, id, itemId, itemType) {
      var it :| it in ItemsOf(items, id) && it.itemId == itemId && it.itemType == itemType;
      var j :| 0 <= j < |items| && items[j] == it;
    }
    if exists j :: 0 <= j < |items| && items[j].orderId == id && items[j].itemId == itemId && items[j].itemType == itemType {
      var j :| 0 <= j < |items| && items[j].orderId == id && items[j].itemId == itemId && items[j].itemType == itemType;
      assert items[j] in ItemsOf(items, id);
    }
  }

  /** `Order::completed()`: the completed orders, in order. */
  function ScopeCompleted(orders: seq<Order>): (r: seq<Order>)
    ensures forall o :: o in r <==> o in orders && IsCompleted(o)
    ensures |r| <= |orders|
  {
    if orders == [] then []
    else (if IsCompleted(orders[0]) then [orders[0]] else []) + ScopeCompleted(orders[1..])
  }

  /**
   * The orders and order_items tables, plus the coupons' usage counters that
   * the coupon service increments.
   */
  class OrderTable {
    var orders: map<OrderId, Order>
    var items: seq<OrderItem>
    var nextId: OrderId
    var couponUsage: map<CouponId, nat>

    /**
     * The auto-increment value starts at 1, so every id is positive and
     * below it; every item belongs to an order.
     */
    ghost predicate Valid()
      reads this
    {
      1 <= nextId &&
      (forall id :: id in orders ==> 0 < id < nextId && orders[id].id == id) &&
      (forall j :: 0 <= j < |items| ==> items[j].orderId in orders)
    }

    constructor ()
      ensures Valid() && orders == map[] && items == [] && nextId == 1 && couponUsage == map[]
    {
      orders, items, nextId, couponUsage := map[], [], 1, map[];
    }

    /** `$order->update(['payment_status' => ...])`. */
    method SetStatus(id: OrderId, status: PaymentStatus)
      requires Valid() && id in orders
      modifies this
      ensures Valid()
      ensures orders == old(orders)[id := old(orders)[id].(paymentStatus := status)]
      ensures items == old(items) && nextId == old(nextId) && couponUsage == old(couponUsage)
    {
      orders := orders[id := orders[id].(paymentStatus := status)];
    }

    /** completeOrder's `$order->update(['payment_status' => 'completed', 'payment_id' => ...])`. */
    method MarkCompleted(id: OrderId, paymentId: Option<string>)
      requires Valid() && id in orders
      modifies this
      ensures Valid()
      ensures orders == old(orders)[id := old(orders)[id].(paymentStatus := Completed, paymentId := paymentId)]
      ensures items == old(items) && nextId == old(nextId) && couponUsage == old(couponUsage)
    {
      orders := orders[id := orders[id].(paymentStatus := Completed, paymentId := paymentId)];
    }

    /** `$order->orderItems()->delete(); $order->delete();` */
    method DeleteWithItems(id: OrderId)
      requires Valid() && id in orders
      modifies this
      ensures Valid()
      ensures orders == old(orders) - {id}
      ensures items == WithoutOrder(old(items), id)
      ensures nextId == old(nextId) && couponUsage == old(couponUsage)
    {
      var all := items;
      var kept := DropOrderItems(all, id);
      KeptItemsBelong(all, id, orders);
      items := kept;
      orders := orders - {id};
    }

    /** `OrderItem::create` for an order that exists. */
    method AddItem(item: OrderItem)
      requires Valid() && item.orderId in orders
      modifies this
      ensures Valid()
      ensures items == old(items) + [item]
      ensures orders == old(orders) && nextId == old(nextId) && couponUsage == old(couponUsage)
    {
      items := items + [item];
    }

    /** The coupon service's usage increment. */
    method IncrementCouponUsage(c: CouponId)
      modifies this
      ensures couponUsage == old(couponUsage)[c := (if c in old(couponUsage) then old(couponUsage)[c] else 0) + 1]
      ensures orders == old(orders) && items == old(items) && nextId == old(nextId)
    {
      couponUsage := couponUsage[c := (if c in couponUsage then couponUsage[c] else 0) + 1];
    }
  }

  /** The item rows left after deleting one order's items. */
  function WithoutOrder(items: seq<OrderItem>, id: OrderId): (r: seq<OrderItem>)
    ensures forall it :: it in r <==> it in items && it.orderId != id
  {
    if items == [] then []
    else (if items[0].orderId != id then [items[0]] else []) + WithoutOrder(items[1..], id)
  }

  /** The delete loop over order_items: keep every row of another order, in order. */
  method DropOrderItems(all: seq<OrderItem>, id: OrderId) returns (kept: seq<OrderItem>)
    ensures kept == WithoutOrder(all, id)
  {
    var i := 0;
    kept := [];
    while i < |all|
      invariant 0 <= i <= |all|
      invariant kept == WithoutOrder(all[..i], id)
    {
      assert all[..i + 1] == all[..i] + [all[i]];
      WithoutOrderSnoc(all[..i], all[i], id);
      if all[i].orderId != id {
        kept := kept + [all[i]];
      }
      i := i + 1;
    }
    assert all[..i] == all;
  }

  /** The items kept by a deletion all belong to the remaining orders. */
  lemma KeptItemsBelong(items: seq<OrderItem>, id: OrderId, orders: map<OrderId, Order>)
    requires forall j :: 0 <= j < |items| ==> items[j].orderId in orders
    ensures forall j :: 0 <= j < |WithoutOrder(items, id)| ==> WithoutOrder(items, id)[j].orderId in orders - {id}
  {
    var r := WithoutOrder(items, id);
    forall j | 0 <= j < |r|
      ensures r[j].orderId in orders - {id}
    {
      assert r[j] in r;
      var k :| 0 <= k < |items| && items[k] == r[j];
    }
  }

  /** Deleting from a table with one more row: that row is kept unless it is the order's. */
  lemma WithoutOrderSnoc(a: seq<OrderItem>, x: OrderItem, id: OrderId)
    ensures WithoutOrder(a + [x], id) == WithoutOrder(a, id) + (if x.orderId != id then [x] else [])
  {
    WithoutOrderAppend(a, [x], id);
    assert [x][1..] == [];
  }

  lemma {:induction false} WithoutOrderAppend(a: seq<OrderItem>, b: seq<OrderItem>, id: OrderId)
    ensures WithoutOrder(a + b, id) == WithoutOrder(a, id) + WithoutOrder(b, id)
  {
    if a == [] {
      assert a + b == b;
    } else {
      assert (a + b)[1..] == a[1..] + b;
      WithoutOrderAppend(a[1..], b, id);
    }
  }
}
