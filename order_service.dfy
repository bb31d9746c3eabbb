/**
 * OrderService: building a pending order from a cart or a single item, and
 * completing an order, which grants its courses and draws product keys.
 * CouponService is not part of this model; its answers are given functions.
 */
module OrderService {
  import opened Basics
  import opened Formats
  import opened Catalog
  import opened Carts
  import opened Keys
  import opened UserCourses
  import opened Orders

  /** A coupon and the items it is restricted to (empty: every item of that type). */
  datatype Coupon = Coupon(id: CouponId, courseIds: set<CourseId>, productIds: set<ProductId>)

  /** CouponService's `validateCoupon` (None when invalid) and `applyCouponToCart`'s discount. */
  datatype CouponService = CouponService(validate: string -> Option<Coupon>, discountFor: (Cart, Coupon) -> int)

  /** The coupon an order uses: a non-blank code that validates. */
  function AppliedCoupon(svc: CouponService, code: Option<string>): Option<Coupon>
  {
    if IsBlank(code) then None else svc.validate(code.value)
  }

  /** `$data['payment_method'] ?? 'stripe'`. */
  function PaymentMethodOrDefault(m: Option<string>): string
  {
    match m
    case Some(s) => s
    case None => "stripe"
  }

  /** The order row createOrder writes for a cart. */
  function CartOrder(id: OrderId, user: UserId, cart: Cart, code: Option<string>, method_: Option<string>,
                     notes: Option<string>, svc: CouponService, number: string): Order
  {
    var discount := match AppliedCoupon(svc, code) case Some(c) => svc.discountFor(cart, c) case None => 0;
    var couponId := match AppliedCoupon(svc, code) case Some(c) => Some(c.id) case None => None;
    Order(id, user, Some(number), Subtotal(cart), discount, Subtotal(cart) - discount, Pending,
          PaymentMethodOrDefault(method_), None, couponId, notes)
  }

  /** One order item per cart line, copying type, id, name, quantity and price. */
  function CartOrderItems(cart: Cart, id: OrderId): (r: seq<OrderItem>)
    ensures |r| == |cart|
    ensures forall j :: 0 <= j < |cart| ==>
      r[j] == OrderItem(id, cart[j].item.itemType, cart[j].item.id, cart[j].item.name, cart[j].item.quantity, cart[j].item.price)
  {
    if cart == [] then []
    else
      var it := cart[|cart| - 1].item;
      CartOrderItems(cart[..|cart| - 1], id) + [OrderItem(id, it.itemType, it.id, it.name, it.quantity, it.price)]
  }

  /** The usage counter after one increment. */
  function Incremented(usage: map<CouponId, nat>, c: CouponId): map<CouponId, nat>
  {
    usage[c := (if c in usage then usage[c] else 0) + 1]
  }

  /**
   * What a created cart order promises: it is pending, its total is the cart
   * subtotal, its final amount is total minus discount, no coupon means no
   * discount, and with a discount between 0 and the total the final amount
   * lies between 0 and the total.
   */
  lemma CartOrderAmounts(id: OrderId, user: UserId, cart: Cart, code: Option<string>, method_: Option<string>,
                         notes: Option<string>, svc: CouponService, number: string)
    ensures var o := CartOrder(id, user, cart, code, method_, notes, svc, number);
      && IsPending(o) && o.paymentId.None?
      && o.totalAmount == Subtotal(cart)
      && o.finalAmount == o.totalAmount - o.discountAmount
      && (IsBlank(code) ==> o.discountAmount == 0 && o.couponId.None?)
      && (o.couponId.Some? <==> AppliedCoupon(svc, code).Some?)
      && (method_.None? ==> o.paymentMethod == "stripe")
      && (0 <= o.discountAmount <= o.totalAmount ==> 0 <= o.finalAmount <= o.totalAmount)
  {
  }

  /**
   * The coupon usage counts after an order that used `applied`. The
   * increment sits under PHP's truthiness test on the coupon id, so an id
   * of 0 counts as no coupon.
   */
  function UsageAfter(usage: map<CouponId, nat>, applied: Option<Coupon>): (r: map<CouponId, nat>)
    ensures applied.None? || applied.value.id == 0 ==> r == usage
    ensures applied.Some? && applied.value.id != 0 ==>
      && r.Keys == usage.Keys + {applied.value.id}
      && r[applied.value.id] == (if applied.value.id in usage then usage[applied.value.id] else 0) + 1
      && (forall c :: c in usage && c != applied.value.id ==> r[c] == usage[c])
  {
    match applied
    case Some(c) => if c.id != 0 then Incremented(usage, c.id) else usage
    case None => usage
  }

  /** createOrder's running total over the cart lines. */
  method CartTotal(cart: Cart) returns (total: int)
    ensures total == Subtotal(cart)
  {
    total := 0;
    var i := 0;
    while i < |cart|
      invariant 0 <= i <= |cart|
      invariant total == Subtotal(cart[..i])
    {
      assert cart[..i + 1][..i] == cart[..i];
      total := total + cart[i].item.price * cart[i].item.quantity;
      i := i + 1;
    }
    assert cart[..|cart|] == cart;
  }

  /** One `OrderItem::create` per cart line, for an order already in the table. */
  method AddCartItems(table: OrderTable, cart: Cart, id: OrderId)
    requires table.Valid() && id in table.orders
    modifies table
    ensures table.Valid()
    ensures table.items == old(table.items) + CartOrderItems(cart, id)
    ensures table.orders == old(table.orders) && table.nextId == old(table.nextId) && table.couponUsage == old(table.couponUsage)
  {
    var i := 0;
    while i < |cart|
      invariant 0 <= i <= |cart|
      invariant table.items == old(table.items) + CartOrderItems(cart[..i], id)
      invariant table.orders == old(table.orders) && table.nextId == old(table.nextId) && table.couponUsage == old(table.couponUsage)
      invariant table.Valid()
    {
      assert cart[..i + 1][..i] == cart[..i];
      var it := cart[i].item;
      table.items := table.items + [OrderItem(id, it.itemType, it.id, it.name, it.quantity, it.price)];
      i := i + 1;
    }
    assert cart[..|cart|] == cart;
  }

  /**
   * `Order::create`: the row gets the next id. The creating hook fills in a
   * number only when it is blank, so the service's generated number stays.
   */
  method InsertOrder(table: OrderTable, order: Order, today: DateTime, digest: string)
    requires table.Valid() && order.id == table.nextId
    requires ValidDateTime(today) && IsMd5Digest(digest) && order.orderNumber == Some(GenerateOrderNumber(today, digest))
    modifies table
    ensures table.Valid()
    ensures order.id !in old(table.orders) && table.nextId == order.id + 1
    ensures table.orders == old(table.orders)[order.id := order]
    ensures table.items == old(table.items) && table.couponUsage == old(table.couponUsage)
  {
    var number := GenerateOrderNumber(today, digest);
    CreatingKeepsGeneratedNumber(order, today, digest, number);
    table.orders := table.orders[order.id := Creating(order, number)];
    table.nextId := order.id + 1;
  }

  /** createOrder's coupon step: validate a non-blank code, then ask for the cart discount. */
  method CartCoupon(svc: CouponService, code: Option<string>, cart: Cart) returns (applied: Option<Coupon>, discount: int)
    ensures applied == AppliedCoupon(svc, code)
    ensures discount == match applied case Some(c) => svc.discountFor(cart, c) case None => 0
  {
    discount := 0;
    applied := None;
    if !IsBlank(code) {
      applied := svc.validate(code.value);
      if applied.Some? {
        discount := svc.discountFor(cart, applied.value);
      }
    }
  }

  /** OrderService::createOrder. */
  method CreateOrder(table: OrderTable, user: UserId, cart: Cart, code: Option<string>, method_: Option<string>,
                     notes: Option<string>, svc: CouponService, today: DateTime, digest: string)
    returns (id: OrderId)
    requires table.Valid() && ValidDateTime(today) && IsMd5Digest(digest)
    modifies table
    ensures table.Valid()
    ensures id == old(table.nextId) && id !in old(table.orders) && table.nextId == id + 1
    ensures table.orders ==
      old(table.orders)[id := CartOrder(id, user, cart, code, method_, notes, svc, GenerateOrderNumber(today, digest))]
    ensures table.items == old(table.items) + CartOrderItems(cart, id)
    ensures table.couponUsage == UsageAfter(old(table.couponUsage), AppliedCoupon(svc, code))
  {
    var total := CartTotal(cart);
    var applied, discount := CartCoupon(svc, code, cart);
    var couponId := if applied.Some? then Some(applied.value.id) else None;

    id := table.nextId;
    var order := Order(id, user, Some(GenerateOrderNumber(today, digest)), total, discount, total - discount, Pending,
                       PaymentMethodOrDefault(method_), None, couponId, notes);
    assert order == CartOrder(id, user, cart, code, method_, notes, svc, GenerateOrderNumber(today, digest));
    InsertOrder(table, order, today, digest);
    AddCartItems(table, cart, id);
    if applied.Some? && applied.value.id != 0 {
      table.IncrementCouponUsage(applied.value.id);
    }
  }

  /** Why a direct purchase is refused before anything is written. */
  datatype PurchaseError = ItemNotFound | AlreadyHasCourse | OutOfStock | AlreadyHasProduct

  /**
   * The checks of createDirectPurchaseOrder, in their order: the item must
   * exist; a course must not be owned; a digital product must be in stock and
   * not owned. On success, the item's name and price.
   */
  function DirectPurchaseCheck(t: ItemType, id: nat, catalog: Catalog, access: Access): (r: Result<(string, int), PurchaseError>)
    ensures r.Ok? <==>
      Find(catalog, t, id).Some? && !HasAccess(access, t, id) &&
      (t == DigitalProduct ==> catalog.products[id].inStock)
    ensures r.Ok? ==> r.value == Find(catalog, t, id).value
    ensures r == Err(ItemNotFound) <==> Find(catalog, t, id).None?
    ensures r == Err(OutOfStock) <==> t == DigitalProduct && id in catalog.products && !catalog.products[id].inStock
    ensures r == Err(AlreadyHasCourse) ==> t == Course && HasAccess(access, t, id)
    ensures r == Err(AlreadyHasProduct) ==> t == DigitalProduct && HasAccess(access, t, id)
  {
    match t
    case Course =>
      if id !in catalog.courses then Err(ItemNotFound)
      else if id in access.courses then Err(AlreadyHasCourse)
      else Ok((catalog.courses[id].title, catalog.courses[id].price))
    case DigitalProduct =>
      if id !in catalog.products then Err(ItemNotFound)
      else if !catalog.products[id].inStock then Err(OutOfStock)
      else if id in access.products then Err(AlreadyHasProduct)
      else Ok((catalog.products[id].name, catalog.products[id].price))
  }

  /** A coupon applies to an item it lists, or to any item of a type it lists none of. */
  predicate IsValidForItem(c: Coupon, t: ItemType, id: nat)
  {
    match t
    case Course => id in c.courseIds || c.courseIds == {}
    case DigitalProduct => id in c.productIds || c.productIds == {}
  }

  /** The one-line cart createDirectPurchaseOrder hands to the coupon service. */
  function SingleItemCart(t: ItemType, id: nat, name: string, price: int): Cart
  {
    [CartLine(CartKey(t, id), CartItem(id, t, name, price, 1))]
  }

  /** The discount a direct purchase gets: the coupon's, when it validates and applies to the item. */
  function ItemDiscount(svc: CouponService, code: Option<string>, t: ItemType, id: nat, name: string, price: int): int
  {
    match AppliedCoupon(svc, code)
    case Some(c) => if IsValidForItem(c, t, id) then svc.discountFor(SingleItemCart(t, id, name, price), c) else 0
    case None => 0
  }

  /** The order row createDirectPurchaseOrder writes. */
  function DirectOrder(oid: OrderId, user: UserId, t: ItemType, id: nat, name: string, price: int,
                       code: Option<string>, method_: Option<string>, notes: Option<string>,
                       svc: CouponService, number: string): Order
  {
    var discount := ItemDiscount(svc, code, t, id, name, price);
    var couponId := match AppliedCoupon(svc, code) case Some(c) => Some(c.id) case None => None;
    Order(oid, user, Some(number), price, discount, price - discount, Pending,
          PaymentMethodOrDefault(method_), None, couponId, notes)
  }

  /**
   * A direct order's total is the item price; a coupon that does not apply
   * to the item gives no discount, yet is still linked to the order.
   */
  lemma DirectOrderAmounts(oid: OrderId, user: UserId, t: ItemType, id: nat, name: string, price: int,
                           code: Option<string>, method_: Option<string>, notes: Option<string>,
                           svc: CouponService, number: string)
    ensures var o := DirectOrder(oid, user, t, id, name, price, code, method_, notes, svc, number);
      && IsPending(o)
      && o.totalAmount == price == Subtotal(SingleItemCart(t, id, name, price))
      && o.finalAmount == o.totalAmount - o.discountAmount
      && (o.couponId.Some? <==> AppliedCoupon(svc, code).Some?)
      && (forall c :: AppliedCoupon(svc, code) == Some(c) && !IsValidForItem(c, t, id) ==>
            o.discountAmount == 0 && o.couponId == Some(c.id))
  {
    var cart := SingleItemCart(t, id, name, price);
    assert cart[..0] == [];
  }

  /** createDirectPurchaseOrder's coupon step. */
  method DirectCoupon(svc: CouponService, code: Option<string>, t: ItemType, id: nat, name: string, price: int)
    returns (applied: Option<Coupon>, discount: int)
    ensures applied == AppliedCoupon(svc, code)
    ensures discount == ItemDiscount(svc, code, t, id, name, price)
  {
    discount := 0;
    applied := None;
    if !IsBlank(code) {
      applied := svc.validate(code.value);
      if applied.Some? && IsValidForItem(applied.value, t, id) {
        discount := svc.discountFor(SingleItemCart(t, id, name, price), applied.value);
      }
    }
  }

  /** createDirectPurchaseOrder once its checks pass: the order, its one item, the coupon usage. */
  method WriteDirectOrder(table: OrderTable, user: UserId, t: ItemType, id: nat, name: string, price: int,
                          code: Option<string>, method_: Option<string>, notes: Option<string>,
                          svc: CouponService, today: DateTime, digest: string)
    returns (oid: OrderId)
    requires table.Valid() && ValidDateTime(today) && IsMd5Digest(digest)
    modifies table
    ensures table.Valid()
    ensures oid == old(table.nextId) && oid !in old(table.orders) && table.nextId == oid + 1
    ensures table.orders == old(table.orders)[oid :=
      DirectOrder(oid, user, t, id, name, price, code, method_, notes, svc, GenerateOrderNumber(today, digest))]
    ensures table.items == old(table.items) + [OrderItem(oid, t, id, name, 1, price)]
    ensures table.couponUsage == UsageAfter(old(table.couponUsage), AppliedCoupon(svc, code))
  {
    var applied, discount := DirectCoupon(svc, code, t, id, name, price);
    var couponId := if applied.Some? then Some(applied.value.id) else None;
    oid := table.nextId;
    var order := Order(oid, user, Some(GenerateOrderNumber(today, digest)), price, discount, price - discount, Pending,
                       PaymentMethodOrDefault(method_), None, couponId, notes);
    assert order == DirectOrder(oid, user, t, id, name, price, code, method_, notes, svc, GenerateOrderNumber(today, digest));
    InsertOrder(table, order, today, digest);
    table.AddItem(OrderItem(oid, t, id, name, 1, price));
    if applied.Some? && applied.value.id != 0 {
      table.IncrementCouponUsage(applied.value.id);
    }
  }

  /** OrderService::createDirectPurchaseOrder. */
  method CreateDirectPurchaseOrder(table: OrderTable, user: UserId, t: ItemType, id: nat, catalog: Catalog,
                                   access: Access, code: Option<string>, method_: Option<string>,
                                   notes: Option<string>, svc: CouponService, today: DateTime, digest: string)
    returns (r: Result<OrderId, PurchaseError>)
    requires table.Valid() && ValidDateTime(today) && IsMd5Digest(digest)
    modifies table
    ensures table.Valid()
    ensures r.Err? <==> DirectPurchaseCheck(t, id, catalog, access).Err?
    ensures r.Err? ==> r.error == DirectPurchaseCheck(t, id, catalog, access).error && unchanged(table)
    ensures r.Ok? ==>
      var found := DirectPurchaseCheck(t, id, catalog, access).value;
      && r.value == old(table.nextId) && r.value !in old(table.orders) && table.nextId == r.value + 1
      && table.orders == old(table.orders)[r.value :=
           DirectOrder(r.value, user, t, id, found.0, found.1, code, method_, notes, svc, GenerateOrderNumber(today, digest))]
      && table.items == old(table.items) + [OrderItem(r.value, t, id, found.0, 1, found.1)]
      && table.couponUsage == UsageAfter(old(table.couponUsage), AppliedCoupon(svc, code))
  {
    var check := DirectPurchaseCheck(t, id, catalog, access);
    if check.Err? {
      return Err(check.error);
    }
    var oid := WriteDirectOrder(table, user, t, id, check.value.0, check.value.1, code, method_, notes, svc, today, digest);
    r := Ok(oid);
  }

  /** The tables completeOrder writes: the key pool and user_courses. */
  datatype Grants = Grants(pool: PoolState, rows: seq<UserCourse>)

  /**
   * completeOrder's work for one item: a course gets a (user, course, order)
   * row unless that exact row exists; a digital product takes its first
   * unused key, if any; a product that no longer exists aborts (None).
   */
  function GrantItem(g: Grants, item: OrderItem, user: UserId, orderId: OrderId, now: Time): (r: Option<Grants>)
    ensures item.itemType == Course ==>
      r == Some(g.(rows := AfterFirstOrCreate(g.rows, UserCourse(user, item.itemId, Some(orderId)))))
    ensures item.itemType == DigitalProduct ==> (r.None? <==> item.itemId !in g.pool.inventoryCount)
    ensures item.itemType == DigitalProduct && r.Some? ==>
      (r.value.rows == g.rows &&
       match First(g.pool.keys, AvailableOf(item.itemId))
       case None => r.value.pool == g.pool
       case Some(j) => r.value.pool == AfterMarkAsUsed(g.pool, j, user, false, now).1)
  {
    match item.itemType
    case Course => Some(g.(rows := AfterFirstOrCreate(g.rows, UserCourse(user, item.itemId, Some(orderId)))))
    case DigitalProduct =>
      if item.itemId !in g.pool.inventoryCount then None
      else match First(g.pool.keys, AvailableOf(item.itemId))
        case None => Some(g)
        case Some(j) => Some(g.(pool := AfterMarkAsUsed(g.pool, j, user, false, now).1))
  }

  /** The items processed in order; the first failure aborts the whole run. */
  function GrantItems(g: Grants, items: seq<OrderItem>, user: UserId, orderId: OrderId, now: Time): Option<Grants>
  {
    if items == [] then Some(g)
    else match GrantItems(g, items[..|items| - 1], user, orderId, now)
      case None => None
      case Some(h) => GrantItem(h, items[|items| - 1], user, orderId, now)
  }

  /**
   * OrderService::completeOrder: the order becomes completed with the payment
   * reference, then its items are granted. There is no check that the order
   * was already completed.
   */
  function AfterCompleteOrder(orders: map<OrderId, Order>, items: seq<OrderItem>, g: Grants,
                              id: OrderId, paymentId: Option<string>, now: Time)
    : (r: Option<(map<OrderId, Order>, Grants)>)
    requires id in orders
    ensures r.Some? ==> r.value.0 == orders[id := orders[id].(paymentStatus := Completed, paymentId := paymentId)]
    ensures r.Some? <==> GrantItems(g, ItemsOf(items, id), orders[id].userId, id, now).Some?
  {
    var o := orders[id];
    match GrantItems(g, ItemsOf(items, id), o.userId, id, now)
    case None => None
    case Some(h) => Some((orders[id := o.(paymentStatus := Completed, paymentId := paymentId)], h))
  }

  lemma {:induction false} GrantItemsNoneStays(g: Grants, items: seq<OrderItem>, k: nat, user: UserId, orderId: OrderId, now: Time)
    requires k <= |items| && GrantItems(g, items[..k], user, orderId, now).None?
    ensures GrantItems(g, items, user, orderId, now).None?
    decreases |items| - k
  {
    if k < |items| {
      assert items[..k + 1][..k] == items[..k];
      GrantItemsNoneStays(g, items, k + 1, user, orderId, now);
    } else {
      assert items[..k] == items;
    }
  }

  /**
   * After a successful run every course item has its (user, course, order)
   * row, earlier rows are kept, and keys only move from unused to this user,
   * keeping the pool consistent and an accurate count cache accurate.
   */
  lemma {:induction false} GrantItemsEffect(g: Grants, items: seq<OrderItem>, user: UserId, orderId: OrderId, now: Time)
    requires GrantItems(g, items, user, orderId, now).Some?
    ensures var h := GrantItems(g, items, user, orderId, now).value;
      && g.rows <= h.rows
      && (forall j :: 0 <= j < |items| && items[j].itemType == Course ==>
            UserCourse(user, items[j].itemId, Some(orderId)) in h.rows)
      && OnlyClaimedBy(g.pool.keys, h.pool.keys, user)
      && h.pool.inventoryCount.Keys == g.pool.inventoryCount.Keys
      && (AllConsistent(g.pool.keys) ==> AllConsistent(h.pool.keys))
      && (CountsAccurate(g.pool) ==> CountsAccurate(h.pool))
  {
    if items != [] {
      var init := items[..|items| - 1];
      var last := items[|items| - 1];
      var m := GrantItems(g, init, user, orderId, now).value;
      GrantItemsEffect(g, init, user, orderId, now);
      var h := GrantItem(m, last, user, orderId, now).value;
      if last.itemType == DigitalProduct {
        match First(m.pool.keys, AvailableOf(last.itemId))
        case None =>
        case Some(j) =>
          MarkAsUsedClaims(m.pool, j, user, false, now);
          MarkAsUsedCounts(m.pool, j, user, false, now);
          OnlyClaimedByTrans(g.pool.keys, m.pool.keys, h.pool.keys, user);
      }
      forall j | 0 <= j < |items| && items[j].itemType == Course
        ensures UserCourse(user, items[j].itemId, Some(orderId)) in h.rows
      {
        if j < |items| - 1 {
          assert items[j] == init[j];
        }
      }
    }
  }

  /** completeOrder's loop body for one item; `false` when the item's product no longer exists. */
  method GrantOrderItem(ledger: UserCourseTable, pool: KeyPool, item: OrderItem, user: UserId, orderId: OrderId, now: Time)
    returns (ok: bool)
    requires pool.Valid()
    modifies ledger, pool
    ensures pool.Valid()
    ensures var r := GrantItem(Grants(old(pool.State()), old(ledger.rows)), item, user, orderId, now);
      && (ok <==> r.Some?)
      && (ok ==> pool.State() == r.value.pool && ledger.rows == r.value.rows)
    ensures !ok ==> pool.State() == old(pool.State()) && ledger.rows == old(ledger.rows)
  {
    if item.itemType == Course {
      ledger.FirstOrCreate(UserCourse(user, item.itemId, Some(orderId)));
      return true;
    }
    if item.itemId !in pool.inventoryCount {
      return false;
    }
    var j := First(pool.keys, AvailableOf(item.itemId));
    if j.Some? {
      var _ := pool.MarkAsUsed(j.value, user, false, now);
    }
    return true;
  }

  /** completeOrder's loop over the order's items; stops at the first item whose product is gone. */
  method GrantOrderItems(ledger: UserCourseTable, pool: KeyPool, its: seq<OrderItem>, user: UserId, orderId: OrderId, now: Time)
    returns (ok: bool)
    requires pool.Valid()
    modifies ledger, pool
    ensures pool.Valid()
    ensures var r := GrantItems(Grants(old(pool.State()), old(ledger.rows)), its, user, orderId, now);
      ok ==> r == Some(Grants(pool.State(), ledger.rows))
    ensures !ok ==> GrantItems(Grants(old(pool.State()), old(ledger.rows)), its, user, orderId, now).None?
  {
    ghost var g0 := Grants(pool.State(), ledger.rows);
    var i := 0;
    while i < |its|
      invariant 0 <= i <= |its|
      invariant GrantItems(g0, its[..i], user, orderId, now) == Some(Grants(pool.State(), ledger.rows))
      invariant pool.Valid()
    {
      assert its[..i + 1][..i] == its[..i];
      var granted := GrantOrderItem(ledger, pool, its[i], user, orderId, now);
      if !granted {
        GrantItemsNoneStays(g0, its, i + 1, user, orderId, now);
        return false;
      }
      i := i + 1;
    }
    assert its[..|its|] == its;
    return true;
  }

  /** OrderService::completeOrder; when an item's product is gone the transaction is rolled back. */
  method CompleteOrder(table: OrderTable, ledger: UserCourseTable, pool: KeyPool,
                       id: OrderId, paymentId: Option<string>, now: Time)
    returns (ok: bool)
    requires table.Valid() && pool.Valid() && id in table.orders
    modifies table, ledger, pool
    ensures table.Valid() && pool.Valid()
    ensures var r := AfterCompleteOrder(old(table.orders), old(table.items), Grants(old(pool.State()), old(ledger.rows)), id, paymentId, now);
      && (ok <==> r.Some?)
      && (ok ==> table.orders == r.value.0 && pool.State() == r.value.1.pool && ledger.rows == r.value.1.rows)
    ensures !ok ==> table.orders == old(table.orders) && pool.State() == old(pool.State()) && ledger.rows == old(ledger.rows)
    ensures table.items == old(table.items) && table.nextId == old(table.nextId) && table.couponUsage == old(table.couponUsage)
  {
    var savedOrders, savedRows, savedKeys, savedCounts := table.orders, ledger.rows, pool.keys, pool.inventoryCount;
    var user := table.orders[id].userId;
    table.MarkCompleted(id, paymentId);
    ok := GrantOrderItems(ledger, pool, ItemsOf(table.items, id), user, id, now);
    if !ok {
      table.orders := savedOrders;
      ledger.rows := savedRows;
      pool.keys, pool.inventoryCount := savedKeys, savedCounts;
    }
  }

  /** Completing an order with a single item is that item's grant. */
  lemma SingleItemCompletion(orders: map<OrderId, Order>, item: OrderItem, g: Grants, id: OrderId, paymentId: Option<string>, now: Time)
    requires id in orders && item.orderId == id
    ensures AfterCompleteOrder(orders, [item], g, id, paymentId, now) ==
      match GrantItem(g, item, orders[id].userId, id, now)
      case None => None
      case Some(h) => Some((orders[id := orders[id].(paymentStatus := Completed, paymentId := paymentId)], h))
  {
    assert ItemsOf([item], id) == [item];
    assert [item][..0] == [];
    assert GrantItems(g, [item], orders[id].userId, id, now) == GrantItem(g, item, orders[id].userId, id, now);
  }

  // A one-item order for a product with two unused keys.
  const TwiceOrder := Order(1, 7, Some("CM-20250101-ABCDEF"), 100, 0, 100, Pending, "stripe", None, None, None)
  const TwiceItem := OrderItem(1, DigitalProduct, 3, "E-book", 1, 100)
  const KeyA := ProductKey(10, 3, "KEY-A", false, None, None, false)
  const KeyB := ProductKey(11, 3, "KEY-B", false, None, None, false)

  /** The first completion takes the first key and leaves one in stock. */
  lemma FirstCompletionDraw()
    ensures GrantItem(Grants(PoolState([KeyA, KeyB], map[3 := 2]), []), TwiceItem, 7, 1, 1000) ==
      Some(Grants(PoolState([MarkedUsed(KeyA, 7, false, 1000), KeyB], map[3 := 1]), []))
  {
    var u0 := MarkedUsed(KeyA, 7, false, 1000);
    assert First([KeyA, KeyB], AvailableOf(3)) == Some(0);
    assert [KeyA, KeyB][0 := u0] == [u0, KeyB];
    assert [u0, KeyB][1..] == [KeyB];
    assert Select([KeyB], AvailableOf(3)) == [KeyB];
    assert map[3 := 2][3 := 1] == map[3 := 1];
  }

  /** The second completion of the same order takes the second key. */
  lemma SecondCompletionDraw()
    ensures var u0 := MarkedUsed(KeyA, 7, false, 1000);
      GrantItem(Grants(PoolState([u0, KeyB], map[3 := 1]), []), TwiceItem, 7, 1, 2000) ==
      Some(Grants(PoolState([u0, MarkedUsed(KeyB, 7, false, 2000)], map[3 := 0]), []))
  {
    var u0 := MarkedUsed(KeyA, 7, false, 1000);
    var u1 := MarkedUsed(KeyB, 7, false, 2000);
    assert [u0, KeyB][1..] == [KeyB];
    assert First([u0, KeyB], AvailableOf(3)) == Some(1);
    assert [u0, KeyB][1 := u1] == [u0, u1];
    assert [u0, u1][1..] == [u1];
    assert Select([u0, u1], AvailableOf(3)) == [];
    assert map[3 := 1][3 := 0] == map[3 := 0];
  }

  /** The first completeOrder marks the order completed and draws KeyA. */
  lemma FirstCompletion()
    ensures AfterCompleteOrder(map[1 := TwiceOrder], [TwiceItem], Grants(PoolState([KeyA, KeyB], map[3 := 2]), []), 1, Some("cs_1"), 1000)
      == Some((map[1 := TwiceOrder.(paymentStatus := Completed, paymentId := Some("cs_1"))],
               Grants(PoolState([MarkedUsed(KeyA, 7, false, 1000), KeyB], map[3 := 1]), [])))
  {
    var g := Grants(PoolState([KeyA, KeyB], map[3 := 2]), []);
    SingleItemCompletion(map[1 := TwiceOrder], TwiceItem, g, 1, Some("cs_1"), 1000);
    FirstCompletionDraw();
    assert map[1 := TwiceOrder][1 := TwiceOrder.(paymentStatus := Completed, paymentId := Some("cs_1"))]
      == map[1 := TwiceOrder.(paymentStatus := Completed, paymentId := Some("cs_1"))];
  }

  /** Completing the already completed order again draws KeyB. */
  lemma SecondCompletion()
    ensures var done := map[1 := TwiceOrder.(paymentStatus := Completed, paymentId := Some("cs_1"))];
      var u0 := MarkedUsed(KeyA, 7, false, 1000);
      AfterCompleteOrder(done, [TwiceItem], Grants(PoolState([u0, KeyB], map[3 := 1]), []), 1, Some("cs_1"), 2000)
      == Some((done, Grants(PoolState([u0, MarkedUsed(KeyB, 7, false, 2000)], map[3 := 0]), [])))
  {
    var done := map[1 := TwiceOrder.(paymentStatus := Completed, paymentId := Some("cs_1"))];
    var u0 := MarkedUsed(KeyA, 7, false, 1000);
    SingleItemCompletion(done, TwiceItem, Grants(PoolState([u0, KeyB], map[3 := 1]), []), 1, Some("cs_1"), 2000);
    SecondCompletionDraw();
    assert done[1 := done[1].(paymentStatus := Completed, paymentId := Some("cs_1"))] == done;
  }

  /** The buyer holds one key after the first completion and two after the second. */
  lemma HeldKeyCounts()
    ensures Count([MarkedUsed(KeyA, 7, false, 1000), KeyB], HeldBy(3, 7)) == 1
    ensures Count([MarkedUsed(KeyA, 7, false, 1000), MarkedUsed(KeyB, 7, false, 2000)], HeldBy(3, 7)) == 2
  {
    var u0 := MarkedUsed(KeyA, 7, false, 1000);
    var u1 := MarkedUsed(KeyB, 7, false, 2000);
    assert [u0, KeyB][1..] == [KeyB];
    assert Select([u0, KeyB], HeldBy(3, 7)) == [u0];
    assert [u0, u1][1..] == [u1];
    assert Select([u0, u1], HeldBy(3, 7)) == [u0, u1];
  }

  /**
   * completeOrder is not idempotent: completing the same order twice, with a
   * digital product that has two unused keys, hands the buyer both keys.
   */
  lemma CompleteOrderTwiceDrawsTwoKeys()
    ensures
      var g := Grants(PoolState([KeyA, KeyB], map[3 := 2]), []);
      var first := AfterCompleteOrder(map[1 := TwiceOrder], [TwiceItem], g, 1, Some("cs_1"), 1000);
      && first.Some?
      && Count(first.value.1.pool.keys, HeldBy(3, 7)) == 1
      && var second := AfterCompleteOrder(first.value.0, [TwiceItem], first.value.1, 1, Some("cs_1"), 2000);
      && second.Some?
      && Count(second.value.1.pool.keys, HeldBy(3, 7)) == 2
      && second.value.1.pool.inventoryCount[3] == 0
  {
    FirstCompletion();
    SecondCompletion();
    HeldKeyCounts();
  }
}
