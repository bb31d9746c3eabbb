/**
 * The key pool: the product_keys table and the inventory_count column of
 * digital products, with ProductKey's markAsUsed / release, its predicates
 * and its query scopes.
 */
module Keys {
  import opened Basics

  /** One row of product_keys. */
  datatype ProductKey = ProductKey(
    id: KeyId,
    productId: ProductId,
    keyValue: string,
    isUsed: bool,
    usedBy: Option<UserId>,
    usedAt: Option<Time>,
    subscriptionAssigned: bool)

  predicate IsAvailable(k: ProductKey) { !k.isUsed }

  predicate IsSubscriptionAssigned(k: ProductKey) { k.subscriptionAssigned }

  /**
   * The row invariant every operation keeps: an unused key names no holder,
   * no use time and no subscription flag; a used key names its holder.
   */
  predicate Consistent(k: ProductKey)
  {
    if k.isUsed then k.usedBy.Some?
    else k.usedBy.None? && k.usedAt.None? && !k.subscriptionAssigned
  }

  predicate AllConsistent(keys: seq<ProductKey>)
  {
    forall j :: 0 <= j < |keys| ==> Consistent(keys[j])
  }

  /**
   * A chain of Eloquent `where` clauses on product_keys: each present field
   * is one equality test on that column.
   */
  datatype Where = Where(
    productId: Option<ProductId>,
    isUsed: Option<bool>,
    usedBy: Option<UserId>,
    subscriptionAssigned: Option<bool>)

  predicate Matches(w: Where, k: ProductKey)
  {
    && (w.productId.Some? ==> k.productId == w.productId.value)
    && (w.isUsed.Some? ==> k.isUsed == w.isUsed.value)
    && (w.usedBy.Some? ==> k.usedBy == w.usedBy)
    && (w.subscriptionAssigned.Some? ==> k.subscriptionAssigned == w.subscriptionAssigned.value)
  }

  // The four query scopes of ProductKey.
  const ScopeAvailable := Where(None, Some(false), None, None)
  const ScopeUsed := Where(None, Some(true), None, None)
  const ScopeSubscriptionAssigned := Where(None, None, None, Some(true))
  const ScopePurchased := Where(None, Some(true), None, Some(false))

  /** `$product->availableKeys()`: the unused keys of one product. */
  function AvailableOf(pid: ProductId): Where { Where(Some(pid), Some(false), None, None) }

  /** Keys of one product whose `used_by` is the user. */
  function HeldBy(pid: ProductId, user: UserId): Where { Where(Some(pid), None, Some(user), None) }

  /** Keys of one product assigned to the user through a subscription. */
  function SubscriptionHeldBy(pid: ProductId, user: UserId): Where { Where(Some(pid), None, Some(user), Some(true)) }

  /** Every key the user holds through a subscription, whatever the product. */
  function SubscriptionKeysOf(user: UserId): Where { Where(None, None, Some(user), Some(true)) }

  /** `->get()`: the matching rows, in table order. */
  function Select(keys: seq<ProductKey>, w: Where): (r: seq<ProductKey>)
    ensures |r| <= |keys|
    ensures forall k :: k in r <==> k in keys && Matches(w, k)
  {
    if keys == [] then []
    else (if Matches(w, keys[0]) then [keys[0]] else []) + Select(keys[1..], w)
  }

  /** `->count()`. */
  function Count(keys: seq<ProductKey>, w: Where): nat
  {
    |Select(keys, w)|
  }

  /** `->first()`, as the index of the first matching row. */
  function First(keys: seq<ProductKey>, w: Where): (r: Option<nat>)
    ensures r.Some? ==> r.value < |keys| && Matches(w, keys[r.value])
    ensures r.Some? ==> forall j :: 0 <= j < r.value ==> !Matches(w, keys[j])
    ensures r.None? ==> forall j :: 0 <= j < |keys| ==> !Matches(w, keys[j])
  {
    if keys == [] then None
    else if Matches(w, keys[0]) then Some(0)
    else match First(keys[1..], w)
      case None => None
      case Some(j) => Some(j + 1)
  }

  /** The value the products table caches in `inventory_count`. */
  function AvailableCount(keys: seq<ProductKey>, pid: ProductId): nat
  {
    Count(keys, AvailableOf(pid))
  }

  /** The key table together with the products' cached counts; the domain of
      `inventoryCount` is the set of existing digital products. */
  datatype PoolState = PoolState(keys: seq<ProductKey>, inventoryCount: map<ProductId, int>)

  /** Every cached count equals the number of unused keys of its product. */
  predicate CountsAccurate(p: PoolState)
  {
    forall pid :: pid in p.inventoryCount ==> p.inventoryCount[pid] == AvailableCount(p.keys, pid)
  }

  /** The recount done after a key changes, when its product exists. */
  function Recount(counts: map<ProductId, int>, keys: seq<ProductKey>, pid: ProductId): map<ProductId, int>
  {
    if pid in counts then counts[pid := AvailableCount(keys, pid)] else counts
  }

  function MarkedUsed(k: ProductKey, user: UserId, viaSubscription: bool, now: Time): ProductKey
  {
    k.(isUsed := true, usedBy := Some(user), usedAt := Some(now), subscriptionAssigned := viaSubscription)
  }

  function Cleared(k: ProductKey): ProductKey
  {
    k.(isUsed := false, usedBy := None, usedAt := None, subscriptionAssigned := false)
  }

  /** `markAsUsed($userId, $isSubscriptionAssigned)` on row i: the returned flag and the new pool. */
  function AfterMarkAsUsed(p: PoolState, i: nat, user: UserId, viaSubscription: bool, now: Time): (r: (bool, PoolState))
    requires i < |p.keys|
    ensures r.0 <==> !p.keys[i].isUsed
    ensures !r.0 ==> r.1 == p
    ensures |r.1.keys| == |p.keys| && r.1.inventoryCount.Keys == p.inventoryCount.Keys
    ensures r.0 ==> var k := r.1.keys[i];
      k.isUsed && k.usedBy == Some(user) && k.usedAt == Some(now) &&
      k.subscriptionAssigned == viaSubscription && k.productId == p.keys[i].productId &&
      k.id == p.keys[i].id && k.keyValue == p.keys[i].keyValue
    ensures forall j :: 0 <= j < |p.keys| && j != i ==> r.1.keys[j] == p.keys[j]
    ensures forall pid :: pid in p.inventoryCount && pid != p.keys[i].productId ==>
      r.1.inventoryCount[pid] == p.inventoryCount[pid]
  {
    if p.keys[i].isUsed then (false, p)
    else
      var keys := p.keys[i := MarkedUsed(p.keys[i], user, viaSubscription, now)];
      (true, PoolState(keys, Recount(p.inventoryCount, keys, p.keys[i].productId)))
  }

  /** `release()` on row i: the returned flag and the new pool. */
  function AfterRelease(p: PoolState, i: nat): (r: (bool, PoolState))
    requires i < |p.keys|
    ensures r.0 <==> p.keys[i].isUsed
    ensures !r.0 ==> r.1 == p
    ensures |r.1.keys| == |p.keys| && r.1.inventoryCount.Keys == p.inventoryCount.Keys
    ensures r.0 ==> var k := r.1.keys[i];
      !k.isUsed && k.usedBy.None? && k.usedAt.None? && !k.subscriptionAssigned &&
      k.productId == p.keys[i].productId && k.id == p.keys[i].id && k.keyValue == p.keys[i].keyValue
    ensures forall j :: 0 <= j < |p.keys| && j != i ==> r.1.keys[j] == p.keys[j]
    ensures forall pid :: pid in p.inventoryCount && pid != p.keys[i].productId ==>
      r.1.inventoryCount[pid] == p.inventoryCount[pid]
  {
    if !p.keys[i].isUsed then (false, p)
    else
      var keys := p.keys[i := Cleared(p.keys[i])];
      (true, PoolState(keys, Recount(p.inventoryCount, keys, p.keys[i].productId)))
  }

  /** Changing one row changes a count by what that row contributes before and after. */
  lemma {:induction false} CountUpdate(keys: seq<ProductKey>, i: nat, x: ProductKey, w: Where)
    requires i < |keys|
    ensures Count(keys[i := x], w) ==
      Count(keys, w) - (if Matches(w, keys[i]) then 1 else 0) + (if Matches(w, x) then 1 else 0)
  {
    var keys' := keys[i := x];
    assert keys'[0] == if i == 0 then x else keys[0];
    if i == 0 {
      assert keys'[1..] == keys[1..];
    } else {
      assert keys'[1..] == keys[1..][i - 1 := x];
      CountUpdate(keys[1..], i - 1, x, w);
    }
  }

  /** Every key is either available or used. */
  lemma {:induction false} AvailablePlusUsed(keys: seq<ProductKey>)
    ensures Count(keys, ScopeAvailable) + Count(keys, ScopeUsed) == |keys|
  {
    if keys != [] {
      AvailablePlusUsed(keys[1..]);
    }
  }

  /** What each scope selects. */
  lemma ScopesSelect(keys: seq<ProductKey>, k: ProductKey)
    ensures k in Select(keys, ScopeAvailable) <==> k in keys && IsAvailable(k)
    ensures k in Select(keys, ScopeUsed) <==> k in keys && k.isUsed
    ensures k in Select(keys, ScopeSubscriptionAssigned) <==> k in keys && IsSubscriptionAssigned(k)
    ensures k in Select(keys, ScopePurchased) <==> k in keys && k.isUsed && !k.subscriptionAssigned
  {
  }

  /**
   * A successful markAsUsed lowers its product's unused-key count by one and
   * leaves every other product's count alone; an accurate cache stays accurate.
   */
  lemma MarkAsUsedCounts(p: PoolState, i: nat, user: UserId, viaSubscription: bool, now: Time)
    requires i < |p.keys| && !p.keys[i].isUsed
    ensures var q := AfterMarkAsUsed(p, i, user, viaSubscription, now).1;
      var pid := p.keys[i].productId;
      && AvailableCount(q.keys, pid) == AvailableCount(p.keys, pid) - 1
      && (forall other :: other != pid ==> AvailableCount(q.keys, other) == AvailableCount(p.keys, other))
      && (pid in q.inventoryCount ==> q.inventoryCount[pid] == AvailableCount(q.keys, pid))
      && (CountsAccurate(p) ==> CountsAccurate(q))
  {
    var q := AfterMarkAsUsed(p, i, user, viaSubscription, now).1;
    var x := MarkedUsed(p.keys[i], user, viaSubscription, now);
    assert q.keys == p.keys[i := x];
    forall other
      ensures AvailableCount(q.keys, other) ==
        AvailableCount(p.keys, other) - (if other == p.keys[i].productId then 1 else 0)
    {
      CountUpdate(p.keys, i, x, AvailableOf(other));
    }
  }

  /**
   * A successful release raises its product's unused-key count by one and
   * leaves every other product's count alone; an accurate cache stays accurate.
   */
  lemma ReleaseCounts(p: PoolState, i: nat)
    requires i < |p.keys| && p.keys[i].isUsed
    ensures var q := AfterRelease(p, i).1;
      var pid := p.keys[i].productId;
      && AvailableCount(q.keys, pid) == AvailableCount(p.keys, pid) + 1
      && (forall other :: other != pid ==> AvailableCount(q.keys, other) == AvailableCount(p.keys, other))
      && (pid in q.inventoryCount ==> q.inventoryCount[pid] == AvailableCount(q.keys, pid))
      && (CountsAccurate(p) ==> CountsAccurate(q))
  {
    var q := AfterRelease(p, i).1;
    var x := Cleared(p.keys[i]);
    assert q.keys == p.keys[i := x];
    forall other
      ensures AvailableCount(q.keys, other) ==
        AvailableCount(p.keys, other) + (if other == p.keys[i].productId then 1 else 0)
    {
      CountUpdate(p.keys, i, x, AvailableOf(other));
    }
  }

  /** Releasing a key just taken from an accurate pool restores the pool exactly. */
  lemma ReleaseUndoesMarkAsUsed(p: PoolState, i: nat, user: UserId, viaSubscription: bool, now: Time)
    requires i < |p.keys| && Consistent(p.keys[i]) && !p.keys[i].isUsed && CountsAccurate(p)
    ensures var (ok, q) := AfterMarkAsUsed(p, i, user, viaSubscription, now);
      ok && AfterRelease(q, i) == (true, p)
  {
    var q := AfterMarkAsUsed(p, i, user, viaSubscription, now).1;
    MarkAsUsedCounts(p, i, user, viaSubscription, now);
    ReleaseCounts(q, i);
    var r := AfterRelease(q, i).1;
    assert r.keys == p.keys;
    assert r.inventoryCount == p.inventoryCount;
  }

  /**
   * `after` differs from `before` only in keys that were unused and are now
   * held by `user`: no key changes hands between users.
   */
  predicate OnlyClaimedBy(before: seq<ProductKey>, after: seq<ProductKey>, user: UserId)
  {
    |after| == |before| &&
    forall j :: 0 <= j < |before| ==>
      after[j] == before[j] ||
      (!before[j].isUsed && after[j].isUsed && after[j].usedBy == Some(user) &&
       after[j].productId == before[j].productId)
  }

  /** Marking an available key keeps the pool consistent and only claims for the user. */
  lemma MarkAsUsedClaims(p: PoolState, i: nat, user: UserId, viaSubscription: bool, now: Time)
    requires i < |p.keys|
    ensures var q := AfterMarkAsUsed(p, i, user, viaSubscription, now).1;
      OnlyClaimedBy(p.keys, q.keys, user) && (AllConsistent(p.keys) ==> AllConsistent(q.keys))
  {
  }

  /** Claims by the same user compose. */
  lemma OnlyClaimedByTrans(a: seq<ProductKey>, b: seq<ProductKey>, c: seq<ProductKey>, user: UserId)
    requires OnlyClaimedBy(a, b, user) && OnlyClaimedBy(b, c, user)
    ensures OnlyClaimedBy(a, c, user)
  {
  }

  /** The user holds some key of the product, used or not. */
  predicate Holds(keys: seq<ProductKey>, user: UserId, pid: ProductId)
  {
    exists j :: 0 <= j < |keys| && keys[j].productId == pid && keys[j].usedBy == Some(user)
  }

  /** No unused key of the product is left. */
  predicate SoldOut(keys: seq<ProductKey>, pid: ProductId)
  {
    forall j :: 0 <= j < |keys| && keys[j].productId == pid ==> keys[j].isUsed
  }

  /** Claims for the user never take a held key away nor free a key. */
  lemma ClaimsKeepHoldsAndSoldOut(a: seq<ProductKey>, b: seq<ProductKey>, user: UserId, pid: ProductId)
    requires OnlyClaimedBy(a, b, user)
    ensures Holds(a, user, pid) ==> Holds(b, user, pid)
    ensures SoldOut(a, pid) ==> SoldOut(b, pid)
  {
    if Holds(a, user, pid) {
      var j :| 0 <= j < |a| && a[j].productId == pid && a[j].usedBy == Some(user);
      assert b[j].productId == pid && b[j].usedBy == Some(user);
    }
  }

  /** The `used_by` lookup finds a row exactly when the user holds a key of the product. */
  lemma HoldsIffFirst(keys: seq<ProductKey>, user: UserId, pid: ProductId)
    ensures Holds(keys, user, pid) <==> First(keys, HeldBy(pid, user)).Some?
  {
    if Holds(keys, user, pid) {
      var j :| 0 <= j < |keys| && keys[j].productId == pid && keys[j].usedBy == Some(user);
      assert Matches(HeldBy(pid, user), keys[j]);
    }
  }

  /** `availableKeys()->first()` finds nothing exactly when the product is sold out. */
  lemma SoldOutIffFirst(keys: seq<ProductKey>, pid: ProductId)
    ensures SoldOut(keys, pid) <==> First(keys, AvailableOf(pid)).None?
  {
    if !SoldOut(keys, pid) {
      var j :| 0 <= j < |keys| && keys[j].productId == pid && !keys[j].isUsed;
      assert Matches(AvailableOf(pid), keys[j]);
    }
  }

  /** The bulk `where(...)->update([...cleared...])`: every matching row is cleared. */
  function ClearWhere(keys: seq<ProductKey>, w: Where): (r: seq<ProductKey>)
    ensures |r| == |keys|
    ensures forall j :: 0 <= j < |keys| ==>
      r[j] == if Matches(w, keys[j]) then Cleared(keys[j]) else keys[j]
  {
    if keys == [] then []
    else [if Matches(w, keys[0]) then Cleared(keys[0]) else keys[0]] + ClearWhere(keys[1..], w)
  }

  /**
   * Clearing a user's subscription keys frees exactly those keys: each
   * product's unused count rises by the number of its keys the user held
   * through the subscription.
   */
  lemma {:induction false} ClearSubscriptionKeysCounts(keys: seq<ProductKey>, user: UserId, pid: ProductId)
    requires AllConsistent(keys)
    ensures AvailableCount(ClearWhere(keys, SubscriptionKeysOf(user)), pid) ==
      AvailableCount(keys, pid) + Count(keys, SubscriptionHeldBy(pid, user))
  {
    if keys != [] {
      var w := SubscriptionKeysOf(user);
      var r := ClearWhere(keys, w);
      assert r[1..] == ClearWhere(keys[1..], w);
      assert Consistent(keys[0]);
      ClearSubscriptionKeysCounts(keys[1..], user, pid);
    }
  }

  /** The key table and the cached counts, updated in place. */
  class KeyPool {
    var keys: seq<ProductKey>
    var inventoryCount: map<ProductId, int>

    function State(): PoolState
      reads this
    {
      PoolState(keys, inventoryCount)
    }

    ghost predicate Valid()
      reads this
    {
      AllConsistent(keys)
    }

    constructor (keys: seq<ProductKey>, inventoryCount: map<ProductId, int>)
      requires AllConsistent(keys)
      ensures Valid() && State() == PoolState(keys, inventoryCount)
    {
      this.keys := keys;
      this.inventoryCount := inventoryCount;
    }

    /** ProductKey::markAsUsed on the key at row i. */
    method MarkAsUsed(i: nat, user: UserId, viaSubscription: bool, now: Time) returns (ok: bool)
      requires Valid() && i < |keys|
      modifies this
      ensures Valid()
      ensures (ok, State()) == AfterMarkAsUsed(old(State()), i, user, viaSubscription, now)
    {
      if keys[i].isUsed {
        return false;
      }
      keys := keys[i := MarkedUsed(keys[i], user, viaSubscription, now)];
      var pid := keys[i].productId;
      if pid in inventoryCount {
        inventoryCount := inventoryCount[pid := AvailableCount(keys, pid)];
      }
      return true;
    }

    /** ProductKey::release on the key at row i. */
    method Release(i: nat) returns (ok: bool)
      requires Valid() && i < |keys|
      modifies this
      ensures Valid()
      ensures (ok, State()) == AfterRelease(old(State()), i)
    {
      if !keys[i].isUsed {
        return false;
      }
      keys := keys[i := Cleared(keys[i])];
      var pid := keys[i].productId;
      if pid in inventoryCount {
        inventoryCount := inventoryCount[pid := AvailableCount(keys, pid)];
      }
      return true;
    }

    /** A mass update that clears every matching row; no model hook runs, so no count is recomputed. */
    method ClearAllWhere(w: Where)
      requires Valid()
      modifies this
      ensures Valid()
      ensures keys == ClearWhere(old(keys), w) && inventoryCount == old(inventoryCount)
    {
      var i := 0;
      while i < |keys|
        invariant 0 <= i <= |keys| == |old(keys)|
        invariant inventoryCount == old(inventoryCount)
        invariant forall j :: 0 <= j < i ==>
          keys[j] == if Matches(w, old(keys)[j]) then Cleared(old(keys)[j]) else old(keys)[j]
        invariant forall j :: i <= j < |keys| ==> keys[j] == old(keys)[j]
      {
        if Matches(w, keys[i]) {
          keys := keys[i := Cleared(keys[i])];
        }
        i := i + 1;
      }
    }
  }
}
