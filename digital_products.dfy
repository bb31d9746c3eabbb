/**
 * The customer's digital-product pages (User/DigitalProductController):
 * the list of purchased keys, the ownership branching of `show`, and
 * handing out a key to a subscriber. `User::hasAccessToDigitalProduct` is
 * not part of this model; its answer is a parameter.
 */
module DigitalProducts {
  import opened Basics
  import opened Keys

  /** index: the user's keys that were bought rather than assigned through a subscription. */
  function PurchasedKeys(keys: seq<ProductKey>, user: UserId): (r: seq<ProductKey>)
    ensures forall k :: k in r <==> k in keys && k.usedBy == Some(user) && !k.subscriptionAssigned
  {
    Select(keys, Where(None, None, Some(user), Some(false)))
  }

  /** What the subscription product page shows: a key (by row), or that none is left. */
  datatype SubscriptionPage = ShowKey(row: nat) | NoKeysAvailable

  /**
   * handleSubscriptionProduct: the user's subscription key of the product if
   * there is one; otherwise the first unused key, marked used by the user
   * with the subscription flag; otherwise none.
   */
  function AfterHandleSubscriptionProduct(p: PoolState, user: UserId, pid: ProductId, now: Time): (SubscriptionPage, PoolState)
  {
    match First(p.keys, SubscriptionHeldBy(pid, user))
    case Some(i) => (ShowKey(i), p)
    case None =>
      match First(p.keys, AvailableOf(pid))
      case Some(j) => (ShowKey(j), AfterMarkAsUsed(p, j, user, true, now).1)
      case None => (NoKeysAvailable, p)
  }

  /** DigitalProductController::handleSubscriptionProduct. */
  method HandleSubscriptionProduct(pool: KeyPool, user: UserId, pid: ProductId, now: Time) returns (page: SubscriptionPage)
    requires pool.Valid()
    modifies pool
    ensures pool.Valid()
    ensures (page, pool.State()) == AfterHandleSubscriptionProduct(old(pool.State()), user, pid, now)
  {
    var existing := First(pool.keys, SubscriptionHeldBy(pid, user));
    if existing.Some? {
      return ShowKey(existing.value);
    }
    var available := First(pool.keys, AvailableOf(pid));
    if available.Some? {
      var _ := pool.MarkAsUsed(available.value, user, true, now);
      return ShowKey(available.value);
    }
    return NoKeysAvailable;
  }

  /**
   * The page shows a key of the product that the user holds through the
   * subscription; when it shows none, the pool is unchanged and the product
   * has no unused key. Keys only move from unused to the user, and counts
   * stay accurate.
   */
  lemma HandleSubscriptionProductGrants(p: PoolState, user: UserId, pid: ProductId, now: Time)
    ensures var (page, q) := AfterHandleSubscriptionProduct(p, user, pid, now);
      && (page.ShowKey? ==> page.row < |q.keys| && Matches(SubscriptionHeldBy(pid, user), q.keys[page.row]))
      && (page.ShowKey? && AllConsistent(p.keys) ==> q.keys[page.row].isUsed)
      && (page.NoKeysAvailable? ==> q == p && SoldOut(p.keys, pid))
      && (First(p.keys, SubscriptionHeldBy(pid, user)).Some? ==> q == p)
      && OnlyClaimedBy(p.keys, q.keys, user)
      && (AllConsistent(p.keys) ==> AllConsistent(q.keys))
      && (CountsAccurate(p) ==> CountsAccurate(q))
  {
    match First(p.keys, SubscriptionHeldBy(pid, user))
    case Some(i) =>
      if AllConsistent(p.keys) {
        assert Consistent(p.keys[i]);
      }
    case None =>
      match First(p.keys, AvailableOf(pid))
      case Some(j) =>
        MarkAsUsedClaims(p, j, user, true, now);
        MarkAsUsedCounts(p, j, user, true, now);
      case None =>
        SoldOutIffFirst(p.keys, pid);
  }

  /**
   * Asking again for the same product returns the same key and changes
   * nothing: at most one key is handed out per user and product.
   */
  lemma HandleSubscriptionProductTwice(p: PoolState, user: UserId, pid: ProductId, now: Time, later: Time)
    ensures var (page, q) := AfterHandleSubscriptionProduct(p, user, pid, now);
      page.ShowKey? ==> AfterHandleSubscriptionProduct(q, user, pid, later) == (page, q)
  {
    var (page, q) := AfterHandleSubscriptionProduct(p, user, pid, now);
    if page.ShowKey? && First(p.keys, SubscriptionHeldBy(pid, user)).None? {
      var j := page.row;
      var w := SubscriptionHeldBy(pid, user);
      assert Matches(w, q.keys[j]);
      assert forall k :: 0 <= k < j ==> q.keys[k] == p.keys[k] && !Matches(w, q.keys[k]);
      FirstIsLeastMatch(q.keys, w, j);
    }
  }

  /** A matching row with no match before it is what `first()` returns. */
  lemma FirstIsLeastMatch(keys: seq<ProductKey>, w: Where, j: nat)
    requires j < |keys| && Matches(w, keys[j])
    requires forall k :: 0 <= k < j ==> !Matches(w, keys[k])
    ensures First(keys, w) == Some(j)
  {
  }

  /** The outcome of `show($id)`. */
  datatype ShowResult =
    | KeyPage(row: nat, viaSubscription: bool)    // the user's own key with that id
    | ProductPage(page: SubscriptionPage)         // the id read as a product the user may access
    | Forbidden                                   // 403

  /** `ProductKey::find($id)`: the row of the key with that id. */
  function FindKey(keys: seq<ProductKey>, id: KeyId): (r: Option<nat>)
    ensures r.Some? ==> r.value < |keys| && keys[r.value].id == id
    ensures r.None? ==> forall j :: 0 <= j < |keys| ==> keys[j].id != id
  {
    if keys == [] then None
    else if keys[0].id == id then Some(0)
    else match FindKey(keys[1..], id)
      case None => None
      case Some(j) => Some(j + 1)
  }

  /** The user holds the key with that id. */
  predicate OwnsKey(keys: seq<ProductKey>, user: UserId, id: KeyId)
  {
    var f := FindKey(keys, id);
    f.Some? && keys[f.value].usedBy == Some(user)
  }

  /**
   * show($id): the id is first read as a key id, then as a product id;
   * a product the user may access goes through handleSubscriptionProduct.
   * The products that exist are the domain of the count cache.
   */
  function AfterShow(p: PoolState, user: UserId, id: nat, hasAccess: bool, now: Time): (ShowResult, PoolState)
  {
    var f := FindKey(p.keys, id);
    if f.Some? && p.keys[f.value].usedBy == Some(user) then
      (KeyPage(f.value, p.keys[f.value].subscriptionAssigned), p)
    else if id in p.inventoryCount && hasAccess then
      var (page, q) := AfterHandleSubscriptionProduct(p, user, id, now);
      (ProductPage(page), q)
    else (Forbidden, p)
  }

  /** DigitalProductController::show. */
  method Show(pool: KeyPool, user: UserId, id: nat, hasAccess: bool, now: Time) returns (r: ShowResult)
    requires pool.Valid()
    modifies pool
    ensures pool.Valid()
    ensures (r, pool.State()) == AfterShow(old(pool.State()), user, id, hasAccess, now)
  {
    var f := FindKey(pool.keys, id);
    if f.Some? && pool.keys[f.value].usedBy == Some(user) {
      return KeyPage(f.value, pool.keys[f.value].subscriptionAssigned);
    }
    if id in pool.inventoryCount && hasAccess {
      var page := HandleSubscriptionProduct(pool, user, id, now);
      return ProductPage(page);
    }
    return Forbidden;
  }

  /**
   * show denies exactly when the user neither owns the key with that id nor
   * may access a product with that id; an owned key picks the subscription
   * view iff it was assigned through a subscription, and changes nothing.
   */
  lemma ShowDecision(p: PoolState, user: UserId, id: nat, hasAccess: bool, now: Time)
    ensures var (r, q) := AfterShow(p, user, id, hasAccess, now);
      && (r.Forbidden? <==> !OwnsKey(p.keys, user, id) && !(id in p.inventoryCount && hasAccess))
      && (r.Forbidden? ==> q == p)
      && (r.KeyPage? ==> r.row < |p.keys| && p.keys[r.row].id == id && p.keys[r.row].usedBy == Some(user)
                         && r.viaSubscription == p.keys[r.row].subscriptionAssigned && q == p)
      && (OwnsKey(p.keys, user, id) ==> r.KeyPage?)
  {
  }
}
