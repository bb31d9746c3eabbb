/**
 * CheckoutController's cart handling over the session: the checkout page's
 * totals, adding and removing items, the single-item "buy now" cart, and
 * cancelling a pending order after an aborted payment.
 */
module Checkout {
  import opened Basics
  import opened Catalog
  import opened Carts
  import opened Orders
  import opened OrderService

  /** The coupon the session holds: its code and the discount computed when it was applied. */
  datatype SessionCoupon = SessionCoupon(code: string, discountAmount: int)

  /** The session keys this controller uses. */
  class Session {
    var cart: Cart
    var coupon: Option<SessionCoupon>
    var pendingOrderId: Option<OrderId>

    /** Cart keys are unique, as keys of the session's cart array. */
    ghost predicate Valid()
      reads this
    {
      UniqueKeys(cart)
    }

    constructor (cart: Cart, coupon: Option<SessionCoupon>, pendingOrderId: Option<OrderId>)
      requires UniqueKeys(cart)
      ensures Valid() && this.cart == cart && this.coupon == coupon && this.pendingOrderId == pendingOrderId
    {
      this.cart, this.coupon, this.pendingOrderId := cart, coupon, pendingOrderId;
    }
  }

  datatype CheckoutPage =
    | RedirectHome
    | Page(subtotal: int, discount: int, total: int, couponCode: Option<string>, isSingleItem: bool)

  /** CheckoutController::index. */
  method Index(session: Session) returns (page: CheckoutPage)
    ensures page.RedirectHome? <==> session.cart == []
    ensures page.Page? ==>
      && page.subtotal == Subtotal(session.cart)
      && page.total == page.subtotal - page.discount
      && (page.isSingleItem <==> |session.cart| == 1)
      && (session.coupon.None? ==> page.discount == 0 && page.couponCode.None? && page.total == page.subtotal)
      && (session.coupon.Some? ==> page.discount == session.coupon.value.discountAmount &&
                                   page.couponCode == Some(session.coupon.value.code))
  {
    var cart := session.cart;
    if cart == [] {
      return RedirectHome;
    }
    var subtotal := 0;
    var i := 0;
    while i < |cart|
      invariant 0 <= i <= |cart|
      invariant subtotal == Subtotal(cart[..i])
    {
      assert cart[..i + 1][..i] == cart[..i];
      subtotal := subtotal + cart[i].item.price * cart[i].item.quantity;
      i := i + 1;
    }
    assert cart[..|cart|] == cart;
    var discount := 0;
    var couponCode: Option<string> := None;
    if session.coupon.Some? {
      couponCode := Some(session.coupon.value.code);
      discount := session.coupon.value.discountAmount;
    }
    page := Page(subtotal, discount, subtotal - discount, couponCode, |cart| == 1);
  }

  /** The code `process` hands to createOrder: the session coupon's, or none. */
  function OrderCouponCode(coupon: Option<SessionCoupon>): Option<string>
  {
    match coupon
    case Some(c) => Some(c.code)
    case None => None
  }

  /** The session coupon's stored discount is what the coupon service computes for the cart now. */
  predicate CouponAgrees(svc: CouponService, cart: Cart, coupon: Option<SessionCoupon>)
  {
    match coupon
    case None => true
    case Some(sc) =>
      var applied := AppliedCoupon(svc, Some(sc.code));
      applied.Some? && svc.discountFor(cart, applied.value) == sc.discountAmount
  }

  /**
   * The checkout page's total is the final amount of the order created from
   * the same cart and coupon, as long as the stored discount is still current.
   */
  lemma PageTotalIsOrderFinal(cart: Cart, coupon: Option<SessionCoupon>, svc: CouponService, id: OrderId, user: UserId,
                              method_: Option<string>, notes: Option<string>, number: string)
    requires CouponAgrees(svc, cart, coupon)
    ensures var o := CartOrder(id, user, cart, OrderCouponCode(coupon), method_, notes, svc, number);
      o.finalAmount == Subtotal(cart) - (match coupon case Some(c) => c.discountAmount case None => 0)
  {
  }

  /** What addToCart reports. */
  datatype AddOutcome = AlreadyInCart | Refused(reason: PurchaseError) | Added

  /**
   * addToCart: an item already in the cart, a missing item, an owned item or
   * an out-of-stock product leaves the cart as it was; otherwise the item
   * is added under its `type_id` key with quantity 1 and the catalogue price.
   */
  function AfterAddToCart(cart: Cart, t: ItemType, id: nat, catalog: Catalog, access: Access): (AddOutcome, Cart)
  {
    var key := CartKey(t, id);
    if key in KeysOf(cart) then (AlreadyInCart, cart)
    else match DirectPurchaseCheck(t, id, catalog, access)
      case Err(e) => (Refused(e), cart)
      case Ok((name, price)) => (Added, Put(cart, key, CartItem(id, t, name, price, 1)))
  }

  /**
   * The only change addToCart makes is one new line at the end, for the
   * requested item at its catalogue price and quantity 1; the subtotal
   * grows by that price and every other key looks up as before.
   */
  lemma AddToCartEffect(cart: Cart, t: ItemType, id: nat, catalog: Catalog, access: Access, other: string)
    requires UniqueKeys(cart)
    ensures var (outcome, after) := AfterAddToCart(cart, t, id, catalog, access);
      && UniqueKeys(after)
      && (outcome != Added ==> after == cart)
      && (outcome == AlreadyInCart <==> CartKey(t, id) in KeysOf(cart))
      && (outcome == Added ==>
            var (name, price) := Find(catalog, t, id).value;
            && after == cart + [CartLine(CartKey(t, id), CartItem(id, t, name, price, 1))]
            && Lookup(after, CartKey(t, id)) == Some(CartItem(id, t, name, price, 1))
            && KeysOf(after) == KeysOf(cart) + {CartKey(t, id)}
            && Subtotal(after) == Subtotal(cart) + price
            && (other != CartKey(t, id) ==> Lookup(after, other) == Lookup(cart, other)))
  {
    var key := CartKey(t, id);
    if key !in KeysOf(cart) && DirectPurchaseCheck(t, id, catalog, access).Ok? {
      var (name, price) := DirectPurchaseCheck(t, id, catalog, access).value;
      var item := CartItem(id, t, name, price, 1);
      PutKeys(cart, key, item);
      PutLookup(cart, key, item, other);
      SubtotalAppend(cart, [CartLine(key, item)]);
      assert [CartLine(key, item)][..0] == [];
    }
  }

  /** CheckoutController::addToCart. */
  method AddToCart(session: Session, t: ItemType, id: nat, catalog: Catalog, access: Access) returns (outcome: AddOutcome)
    requires session.Valid()
    modifies session
    ensures session.Valid()
    ensures (outcome, session.cart) == AfterAddToCart(old(session.cart), t, id, catalog, access)
    ensures session.coupon == old(session.coupon) && session.pendingOrderId == old(session.pendingOrderId)
  {
    var key := CartKey(t, id);
    if Lookup(session.cart, key).Some? {
      return AlreadyInCart;
    }
    var check := DirectPurchaseCheck(t, id, catalog, access);
    if check.Err? {
      return Refused(check.error);
    }
    var (name, price) := check.value;
    PutKeys(session.cart, key, CartItem(id, t, name, price, 1));
    session.cart := Put(session.cart, key, CartItem(id, t, name, price, 1));
    return Added;
  }

  /**
   * removeFromCart: exactly the given key is removed, lowering the subtotal
   * by its line; an absent key leaves the cart as it was.
   */
  lemma RemoveFromCartEffect(cart: Cart, key: string, other: string)
    requires UniqueKeys(cart)
    ensures var after := Remove(cart, key);
      && UniqueKeys(after)
      && KeysOf(after) == KeysOf(cart) - {key}
      && (key !in KeysOf(cart) ==> after == cart)
      && (other != key ==> Lookup(after, other) == Lookup(cart, other))
      && Subtotal(after) == Subtotal(cart) - (match Lookup(cart, key) case Some(it) => it.price * it.quantity case None => 0)
  {
    RemoveKeys(cart, key);
    RemoveLookup(cart, key, other);
    SubtotalRemove(cart, key);
  }

  /** CheckoutController::removeFromCart; reports whether the key was in the cart. */
  method RemoveFromCart(session: Session, key: string) returns (removed: bool)
    requires session.Valid()
    modifies session
    ensures session.Valid()
    ensures removed <==> key in KeysOf(old(session.cart))
    ensures session.cart == Remove(old(session.cart), key)
    ensures session.coupon == old(session.coupon) && session.pendingOrderId == old(session.pendingOrderId)
  {
    RemoveKeys(session.cart, key);
    if Lookup(session.cart, key).Some? {
      session.cart := Remove(session.cart, key);
      return true;
    }
    return false;
  }

  /**
   * CheckoutController::buyNow: the cart and coupon are dropped first, so a
   * refused item leaves an empty cart; otherwise the cart is the one item.
   */
  method BuyNow(session: Session, t: ItemType, id: nat, catalog: Catalog, access: Access) returns (r: Result<bool, PurchaseError>)
    modifies session
    ensures session.Valid()
    ensures session.coupon.None? && session.pendingOrderId == old(session.pendingOrderId)
    ensures r.Err? <==> DirectPurchaseCheck(t, id, catalog, access).Err?
    ensures r.Err? ==> r.error == DirectPurchaseCheck(t, id, catalog, access).error && session.cart == []
    ensures r.Ok? ==>
      var (name, price) := DirectPurchaseCheck(t, id, catalog, access).value;
      session.cart == SingleItemCart(t, id, name, price)
  {
    session.cart, session.coupon := [], None;
    var check := DirectPurchaseCheck(t, id, catalog, access);
    if check.Err? {
      return Err(check.error);
    }
    var (name, price) := check.value;
    session.cart := SingleItemCart(t, id, name, price);
    assert KeysOf(session.cart[1..]) == {};
    return Ok(true);
  }

  /**
   * Checking out the buy-now cart without a coupon writes the same order and
   * the same single item as a direct purchase of that item.
   */
  lemma BuyNowCartMatchesDirectPurchase(oid: OrderId, user: UserId, t: ItemType, id: nat, name: string, price: int,
                                        method_: Option<string>, notes: Option<string>, svc: CouponService, number: string)
    ensures var cart := SingleItemCart(t, id, name, price);
      && CartOrder(oid, user, cart, None, method_, notes, svc, number) ==
         DirectOrder(oid, user, t, id, name, price, None, method_, notes, svc, number)
      && CartOrderItems(cart, oid) == [OrderItem(oid, t, id, name, 1, price)]
  {
    var cart := SingleItemCart(t, id, name, price);
    assert cart[..0] == [];
    assert Subtotal(cart) == price * 1 == price;
  }

  /**
   * CheckoutController::cancel: with a pending order id in the session, the
   * order and its items are deleted if the order exists and is still
   * pending, and the id is dropped from the session in any case. An id of 0
   * counts as absent, as PHP's truthiness test does.
   */
  method Cancel(session: Session, table: OrderTable)
    requires table.Valid()
    modifies session, table
    ensures table.Valid()
    ensures session.cart == old(session.cart) && session.coupon == old(session.coupon)
    ensures var pid := old(session.pendingOrderId);
      if pid.Some? && pid.value != 0 then
        && session.pendingOrderId.None?
        && (if pid.value in old(table.orders) && IsPending(old(table.orders)[pid.value]) then
              table.orders == old(table.orders) - {pid.value} && table.items == WithoutOrder(old(table.items), pid.value)
            else table.orders == old(table.orders) && table.items == old(table.items))
      else session.pendingOrderId == pid && table.orders == old(table.orders) && table.items == old(table.items)
    ensures table.nextId == old(table.nextId) && table.couponUsage == old(table.couponUsage)
  {
    var pid := session.pendingOrderId;
    if pid.Some? && pid.value != 0 {
      if pid.value in table.orders && table.orders[pid.value].paymentStatus == Pending {
        table.DeleteWithItems(pid.value);
      }
      session.pendingOrderId := None;
    }
  }

  /** After cancel no item of the cancelled order is left, and other orders keep their items. */
  lemma CancelRemovesOnlyThatOrder(items: seq<OrderItem>, id: OrderId)
    ensures forall it :: it in WithoutOrder(items, id) ==> it.orderId != id
    ensures forall it :: it in items && it.orderId != id ==> it in WithoutOrder(items, id)
  {
  }
}
