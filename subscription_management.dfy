/**
 * The subscriber's cancel action (User/SubscriptionController::cancel):
 * every key the user holds through a subscription goes back to the pool and
 * the subscription ends now. The Stripe cancellation call is not part of
 * this model; it is taken to succeed.
 */
module SubscriptionManagement {
  import opened Basics
  import opened Keys
  import opened Subscriptions

  /** The cancel action applies only to an active subscription that has a Stripe id. */
  predicate Cancellable(row: SubscriptionRow)
  {
    !IsBlank(row.stripeSubscriptionId)
  }

  /**
   * cancel as written. `sub` is the user's active subscription, if any.
   * The bulk update of product_keys runs no model hook, so no product's
   * `inventory_count` is recomputed.
   */
  method CancelAsWritten(user: UserId, sub: UserSubscription?, pool: KeyPool, now: Time) returns (canceled: bool)
    requires pool.Valid() && (sub != null ==> sub.userId == user)
    modifies pool, sub
    ensures pool.Valid()
    ensures canceled <==> sub != null && Cancellable(old(sub.Row()))
    ensures canceled ==>
      && pool.keys == ClearWhere(old(pool.keys), SubscriptionKeysOf(user))
      && pool.inventoryCount == old(pool.inventoryCount)
      && sub.Row() == CanceledAt(old(sub.Row()), now)
    ensures !canceled ==> pool.State() == old(pool.State()) && (sub != null ==> sub.Row() == old(sub.Row()))
  {
    if sub != null && !IsBlank(sub.stripeSubscriptionId) {
      pool.ClearAllWhere(SubscriptionKeysOf(user));
      sub.Update(CanceledAt(sub.Row(), now));
      return true;
    }
    return false;
  }

  /**
   * What the bulk release does to the key table: every key the user holds
   * through a subscription becomes unused with holder, time and flag
   * cleared; the user's purchased keys and other users' keys are untouched.
   */
  lemma ReleaseTouchesOnlySubscriptionKeys(keys: seq<ProductKey>, user: UserId)
    ensures var r := ClearWhere(keys, SubscriptionKeysOf(user));
      && |r| == |keys|
      && (forall j :: 0 <= j < |keys| && keys[j].usedBy == Some(user) && keys[j].subscriptionAssigned ==>
            !r[j].isUsed && r[j].usedBy.None? && r[j].usedAt.None? && !r[j].subscriptionAssigned &&
            r[j].productId == keys[j].productId && r[j].keyValue == keys[j].keyValue)
      && (forall j :: 0 <= j < |keys| && (keys[j].usedBy != Some(user) || !keys[j].subscriptionAssigned) ==>
            r[j] == keys[j])
      && Count(r, SubscriptionKeysOf(user)) == 0
  {
    var r := ClearWhere(keys, SubscriptionKeysOf(user));
    if Count(r, SubscriptionKeysOf(user)) != 0 {
      assert Select(r, SubscriptionKeysOf(user))[0] in r;
    }
  }

  /**
   * After the cancel action as written, each product's cached count lags its
   * real number of unused keys by exactly the keys the user had through the
   * subscription.
   */
  lemma CancelAsWrittenCountsLag(p: PoolState, user: UserId, pid: ProductId)
    requires AllConsistent(p.keys) && CountsAccurate(p) && pid in p.inventoryCount
    ensures AvailableCount(ClearWhere(p.keys, SubscriptionKeysOf(user)), pid) ==
      p.inventoryCount[pid] + Count(p.keys, SubscriptionHeldBy(pid, user))
  {
    ClearSubscriptionKeysCounts(p.keys, user, pid);
  }

  /** One subscriber, one product, one subscription key: after cancel the product shows 0 keys in stock while 1 is free. */
  lemma CancelAsWrittenLeavesStaleCount()
    ensures
      var k := ProductKey(1, 3, "KEY-A", true, Some(7), Some(100), true);
      var p := PoolState([k], map[3 := 0]);
      var keys := ClearWhere(p.keys, SubscriptionKeysOf(7));
      && AllConsistent(p.keys) && CountsAccurate(p)
      && AvailableCount(keys, 3) == 1
      && !CountsAccurate(PoolState(keys, p.inventoryCount))
  {
    var k := ProductKey(1, 3, "KEY-A", true, Some(7), Some(100), true);
    var keys := ClearWhere([k], SubscriptionKeysOf(7));
    assert [k][1..] == [];
    assert keys == [Cleared(k)];
    assert Select(keys, AvailableOf(3)) == [Cleared(k)];
  }

  /** Every existing product's count, recomputed from the key table. */
  function Recounted(keys: seq<ProductKey>, counts: map<ProductId, int>): (r: map<ProductId, int>)
    ensures r.Keys == counts.Keys && CountsAccurate(PoolState(keys, r))
  {
    map pid | pid in counts :: AvailableCount(keys, pid)
  }

  /** The cancel action as intended: after the release, the counts are recomputed. */
  method Cancel(user: UserId, sub: UserSubscription?, pool: KeyPool, now: Time) returns (canceled: bool)
    requires pool.Valid() && (sub != null ==> sub.userId == user)
    modifies pool, sub
    ensures pool.Valid()
    ensures canceled <==> sub != null && Cancellable(old(sub.Row()))
    ensures canceled ==>
      && pool.keys == ClearWhere(old(pool.keys), SubscriptionKeysOf(user))
      && pool.inventoryCount == Recounted(pool.keys, old(pool.inventoryCount))
      && sub.Row() == CanceledAt(old(sub.Row()), now)
    ensures !canceled ==> pool.State() == old(pool.State()) && (sub != null ==> sub.Row() == old(sub.Row()))
  {
    if sub != null && !IsBlank(sub.stripeSubscriptionId) {
      pool.ClearAllWhere(SubscriptionKeysOf(user));
      pool.inventoryCount := Recounted(pool.keys, pool.inventoryCount);
      sub.Update(CanceledAt(sub.Row(), now));
      return true;
    }
    return false;
  }

  /**
   * With the recount, cancelling keeps every cached count accurate, and each
   * product's count rises by the keys the user had through the subscription.
   */
  lemma CancelKeepsCountsAccurate(p: PoolState, user: UserId, pid: ProductId)
    requires AllConsistent(p.keys) && CountsAccurate(p) && pid in p.inventoryCount
    ensures var keys := ClearWhere(p.keys, SubscriptionKeysOf(user));
      var q := PoolState(keys, Recounted(keys, p.inventoryCount));
      && CountsAccurate(q) && AllConsistent(q.keys)
      && q.inventoryCount[pid] == p.inventoryCount[pid] + Count(p.keys, SubscriptionHeldBy(pid, user))
  {
    ClearSubscriptionKeysCounts(p.keys, user, pid);
  }
}
