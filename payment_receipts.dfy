/**
 * PaymentReceiptService: the administrator's manual verification or
 * rejection of bank-transfer payments for orders and subscriptions, the
 * bulk grant of a plan's content, and the checks and names for uploaded
 * receipts. Storage of the files and notifications are not part of this model.
 */
module PaymentReceipts {
  import opened Basics
  import opened Formats
  import opened Keys
  import opened UserCourses
  import opened Orders
  import opened OrderService
  import opened Subscriptions

  // ---------------------------------------------------------------- orders

  /** The error `verifyPayment` raises as written. */
  datatype VerifyError = ArgumentCountError

  /**
   * verifyPayment as written: the status update is saved, then
   * `completeOrder($order)` is called with one of its two required
   * arguments, which throws before anything is granted.
   */
  function VerifiedAsWritten(orders: map<OrderId, Order>, id: OrderId): (r: (Result<bool, VerifyError>, map<OrderId, Order>))
    requires id in orders
    ensures r.0.Err? && r.1.Keys == orders.Keys && IsCompleted(r.1[id])
  {
    (Err(ArgumentCountError), orders[id := orders[id].(paymentStatus := Completed)])
  }

  /** PaymentReceiptService::verifyPayment as written; only the orders table is touched. */
  method VerifyPaymentAsWritten(table: OrderTable, id: OrderId) returns (r: Result<bool, VerifyError>)
    requires table.Valid() && id in table.orders
    modifies table
    ensures table.Valid()
    ensures (r, table.orders) == VerifiedAsWritten(old(table.orders), id)
    ensures table.items == old(table.items) && table.nextId == old(table.nextId) && table.couponUsage == old(table.couponUsage)
  {
    table.SetStatus(id, Completed);
    r := Err(ArgumentCountError);
  }

  /**
   * verifyPayment as intended: the status update, then completeOrder with the
   * order's own payment reference, so the order's content is granted.
   */
  function AfterVerifyPayment(orders: map<OrderId, Order>, items: seq<OrderItem>, g: Grants, id: OrderId, now: Time)
    : Option<(map<OrderId, Order>, Grants)>
    requires id in orders
  {
    var o := orders[id];
    AfterCompleteOrder(orders[id := o.(paymentStatus := Completed)], items, g, id, o.paymentId, now)
  }

  /** PaymentReceiptService::verifyPayment, corrected. */
  method VerifyPayment(table: OrderTable, ledger: UserCourseTable, pool: KeyPool, id: OrderId, now: Time)
    returns (ok: bool)
    requires table.Valid() && pool.Valid() && id in table.orders
    modifies table, ledger, pool
    ensures table.Valid() && pool.Valid()
    ensures var r := AfterVerifyPayment(old(table.orders), old(table.items), Grants(old(pool.State()), old(ledger.rows)), id, now);
      && (ok <==> r.Some?)
      && (ok ==> table.orders == r.value.0 && pool.State() == r.value.1.pool && ledger.rows == r.value.1.rows)
    ensures !ok ==>
      table.orders == old(table.orders)[id := old(table.orders)[id].(paymentStatus := Completed)] &&
      pool.State() == old(pool.State()) && ledger.rows == old(ledger.rows)
    ensures table.items == old(table.items)
  {
    var paymentId := table.orders[id].paymentId;
    table.SetStatus(id, Completed);
    ok := CompleteOrder(table, ledger, pool, id, paymentId, now);
  }

  /**
   * A verified order is completed with its payment reference kept, every
   * course it contains is granted to its buyer, and keys only move from
   * unused to the buyer.
   */
  lemma VerifiedOrderIsGranted(orders: map<OrderId, Order>, items: seq<OrderItem>, g: Grants, id: OrderId, now: Time)
    requires id in orders && AfterVerifyPayment(orders, items, g, id, now).Some?
    ensures var (after, h) := AfterVerifyPayment(orders, items, g, id, now).value;
      var user := orders[id].userId;
      && IsCompleted(after[id]) && after[id].paymentId == orders[id].paymentId
      && (forall it :: it in items && it.orderId == id && it.itemType == Course ==>
            UserCourse(user, it.itemId, Some(id)) in h.rows)
      && OnlyClaimedBy(g.pool.keys, h.pool.keys, user)
      && (CountsAccurate(g.pool) ==> CountsAccurate(h.pool))
  {
    var user := orders[id].userId;
    var its := ItemsOf(items, id);
    GrantItemsEffect(g, its, user, id, now);
    var h := AfterVerifyPayment(orders, items, g, id, now).value.1;
    forall it | it in items && it.orderId == id && it.itemType == Course
      ensures UserCourse(user, it.itemId, Some(id)) in h.rows
    {
      assert it in its;
      var j :| 0 <= j < |its| && its[j] == it;
    }
  }

  /**
   * The discrepancy on a one-course order: as written the order ends up
   * completed while its buyer still has no access; as intended the course is granted.
   */
  lemma VerifyPaymentAsWrittenGrantsNothing()
    ensures
      var o := Order(1, 7, Some("CM-20250101-ABCDEF"), 50, 0, 50, Pending, "bank_transfer", None, None, None);
      var orders := map[1 := o];
      var items := [OrderItem(1, Course, 5, "Budgeting", 1, 50)];
      var g := Grants(PoolState([], map[]), []);
      && IsCompleted(VerifiedAsWritten(orders, 1).1[1]) && !HasCourse(g.rows, 7, 5)
      && AfterVerifyPayment(orders, items, g, 1, 1000).Some?
      && HasCourse(AfterVerifyPayment(orders, items, g, 1, 1000).value.1.rows, 7, 5)
  {
    var o := Order(1, 7, Some("CM-20250101-ABCDEF"), 50, 0, 50, Pending, "bank_transfer", None, None, None);
    var items := [OrderItem(1, Course, 5, "Budgeting", 1, 50)];
    var g := Grants(PoolState([], map[]), []);
    assert ItemsOf(items, 1) == items;
    assert items[..0] == [];
    var rows := AfterVerifyPayment(map[1 := o], items, g, 1, 1000).value.1.rows;
    assert rows == [UserCourse(7, 5, Some(1))];
    assert rows[0].userId == 7 && rows[0].courseId == 5;
  }

  /** PaymentReceiptService::rejectPayment: the order is marked failed. */
  method RejectPayment(table: OrderTable, id: OrderId)
    requires table.Valid() && id in table.orders
    modifies table
    ensures table.Valid()
    ensures table.orders == old(table.orders)[id := old(table.orders)[id].(paymentStatus := Failed)]
    ensures HasFailed(table.orders[id])
    ensures table.items == old(table.items) && table.nextId == old(table.nextId) && table.couponUsage == old(table.couponUsage)
  {
    table.SetStatus(id, Failed);
  }

  // --------------------------------------------------------- subscriptions

  /** The course half of grantSubscriptionContentAccess, over the plan's courses in order. */
  function GrantCourses(rows: seq<UserCourse>, user: UserId, courses: seq<CourseId>): seq<UserCourse>
  {
    if courses == [] then rows
    else AfterCreateIfAbsent(GrantCourses(rows, user, courses[..|courses| - 1]), user, courses[|courses| - 1])
  }

  /**
   * After the course grant the user has exactly one row for each plan course
   * they did not have, the rows of courses they had are not duplicated, and
   * nobody else's rows change.
   */
  lemma {:induction false} GrantCoursesRows(rows: seq<UserCourse>, user: UserId, courses: seq<CourseId>)
    ensures var r := GrantCourses(rows, user, courses);
      && rows <= r
      && (forall c :: c in courses ==> HasCourse(r, user, c))
      && (forall u, c :: RowsFor(r, u, c) ==
            if u != user || HasCourse(rows, u, c) then RowsFor(rows, u, c) else if c in courses then 1 else 0)
  {
    var r := GrantCourses(rows, user, courses);
    if courses == [] {
      forall u, c ensures RowsFor(r, u, c) == if u != user || HasCourse(rows, u, c) then RowsFor(rows, u, c) else 0 {
        if u == user && !HasCourse(rows, u, c) {
          NoRowsFor(rows, u, c);
        }
      }
    } else {
      var init := courses[..|courses| - 1];
      var last := courses[|courses| - 1];
      var m := GrantCourses(rows, user, init);
      GrantCoursesRows(rows, user, init);
      forall u, c
        ensures RowsFor(r, u, c) ==
          if u != user || HasCourse(rows, u, c) then RowsFor(rows, u, c) else if c in courses then 1 else 0
      {
        if u != user || c != last {
          CreateIfAbsentOthers(m, user, last, u, c);
          assert courses == init + [last];
        } else {
          HasCourseIffRows(m, user, last);
          HasCourseIffRows(rows, user, last);
        }
      }
      forall c | c in courses
        ensures HasCourse(r, user, c)
      {
        HasCourseIffRows(rows, user, c);
        HasCourseIffRows(r, user, c);
      }
    }
  }

  /**
   * The product half of grantSubscriptionContentAccess for one product: a
   * user who holds any key of it is skipped; otherwise its first unused key,
   * if any, is marked used with the subscription flag.
   */
  function GrantProduct(p: PoolState, user: UserId, pid: ProductId, now: Time): PoolState
  {
    if First(p.keys, HeldBy(pid, user)).Some? then p
    else match First(p.keys, AvailableOf(pid))
      case None => p
      case Some(j) => AfterMarkAsUsed(p, j, user, true, now).1
  }

  /** The product half over the plan's products in order. */
  function GrantProducts(p: PoolState, user: UserId, pids: seq<ProductId>, now: Time): PoolState
  {
    if pids == [] then p
    else GrantProduct(GrantProducts(p, user, pids[..|pids| - 1], now), user, pids[|pids| - 1], now)
  }

  /**
   * One product step: afterwards the user holds a key of it or none is
   * left; if the user held one, nothing changes; at most one key changes,
   * and it is an unused key of the product, newly flagged as a subscription
   * key; counts stay accurate.
   */
  lemma GrantProductStep(p: PoolState, user: UserId, pid: ProductId, now: Time)
    ensures var q := GrantProduct(p, user, pid, now);
      && OnlyClaimedBy(p.keys, q.keys, user)
      && q.inventoryCount.Keys == p.inventoryCount.Keys
      && (AllConsistent(p.keys) ==> AllConsistent(q.keys))
      && (CountsAccurate(p) ==> CountsAccurate(q))
      && (Holds(q.keys, user, pid) || SoldOut(q.keys, pid))
      && (Holds(p.keys, user, pid) ==> q == p)
      && (forall j :: 0 <= j < |p.keys| && q.keys[j] != p.keys[j] ==>
            q.keys[j].subscriptionAssigned && p.keys[j].productId == pid && !p.keys[j].isUsed)
      && |q.keys| == |p.keys|
      && (forall j, k ::
            0 <= j < |p.keys| && 0 <= k < |p.keys| && q.keys[j] != p.keys[j] && q.keys[k] != p.keys[k] ==>
            j == k)
  {
    var q := GrantProduct(p, user, pid, now);
    if First(p.keys, HeldBy(pid, user)).Some? {
      var j := First(p.keys, HeldBy(pid, user)).value;
      assert p.keys[j].productId == pid && p.keys[j].usedBy == Some(user);
    } else {
      assert !Holds(p.keys, user, pid);
      match First(p.keys, AvailableOf(pid))
      case None =>
        forall j | 0 <= j < |q.keys| && q.keys[j].productId == pid
          ensures q.keys[j].isUsed
        {
          assert !Matches(AvailableOf(pid), p.keys[j]);
        }
      case Some(i) =>
        MarkAsUsedClaims(p, i, user, true, now);
        MarkAsUsedCounts(p, i, user, true, now);
        assert q.keys[i].productId == pid && q.keys[i].usedBy == Some(user);
    }
  }

  /**
   * The whole product grant: keys only move from unused to the user, the
   * pool stays consistent and its counts accurate, afterwards the user holds
   * a key of every plan product that has one left, the keys of a product the
   * user already held a key of are untouched, every newly taken key
   * belongs to a plan product and carries the subscription flag, and no two
   * newly taken keys belong to the same product.
   */
  lemma {:induction false} GrantProductsEffect(p: PoolState, user: UserId, pids: seq<ProductId>, now: Time)
    ensures var q := GrantProducts(p, user, pids, now);
      && OnlyClaimedBy(p.keys, q.keys, user)
      && q.inventoryCount.Keys == p.inventoryCount.Keys
      && (AllConsistent(p.keys) ==> AllConsistent(q.keys))
      && (CountsAccurate(p) ==> CountsAccurate(q))
      && (forall pid :: pid in pids ==> Holds(q.keys, user, pid) || SoldOut(q.keys, pid))
      && (forall j :: 0 <= j < |p.keys| && Holds(p.keys, user, p.keys[j].productId) ==> q.keys[j] == p.keys[j])
      && (forall j :: 0 <= j < |p.keys| && q.keys[j] != p.keys[j] ==>
            q.keys[j].subscriptionAssigned && p.keys[j].productId in pids)
      && (forall j, k ::
            0 <= j < |p.keys| && 0 <= k < |p.keys| && j != k && q.keys[j] != p.keys[j] && q.keys[k] != p.keys[k] ==>
            p.keys[j].productId != p.keys[k].productId)
  {
    if pids != [] {
      var init := pids[..|pids| - 1];
      var last := pids[|pids| - 1];
      var m := GrantProducts(p, user, init, now);
      var q := GrantProduct(m, user, last, now);
      GrantProductsEffect(p, user, init, now);
      GrantProductStep(m, user, last, now);
      OnlyClaimedByTrans(p.keys, m.keys, q.keys, user);
      forall pid | pid in pids
        ensures Holds(q.keys, user, pid) || SoldOut(q.keys, pid)
      {
        if pid != last {
          assert pid in init;
          ClaimsKeepHoldsAndSoldOut(m.keys, q.keys, user, pid);
        }
      }
      forall j | 0 <= j < |p.keys| && Holds(p.keys, user, p.keys[j].productId)
        ensures q.keys[j] == p.keys[j]
      {
        ClaimsKeepHoldsAndSoldOut(p.keys, m.keys, user, p.keys[j].productId);
      }
      forall j | 0 <= j < |p.keys| && q.keys[j] != p.keys[j]
        ensures q.keys[j].subscriptionAssigned && p.keys[j].productId in pids
      {
        if m.keys[j] == p.keys[j] {
          assert q.keys[j] != m.keys[j];
        } else {
          assert m.keys[j].isUsed;
        }
      }
      forall j, k | 0 <= j < |p.keys| && 0 <= k < |p.keys| && j != k &&
          q.keys[j] != p.keys[j] && q.keys[k] != p.keys[k]
        ensures p.keys[j].productId != p.keys[k].productId
      {
        if m.keys[j] != p.keys[j] && m.keys[k] != p.keys[k] {
        } else if m.keys[j] == p.keys[j] {
          assert m.keys[k] != p.keys[k];
          TakenDuringPrefixBlocksLast(p, m, q, user, last, now, j, k);
        } else {
          TakenDuringPrefixBlocksLast(p, m, q, user, last, now, k, j);
        }
      }
    }
  }

  /**
   * In the inductive step of GrantProductsEffect: when key `k` was taken
   * during the earlier products and key `j` by the last one, the two belong
   * to different products, because holding `k` makes the last step skip.
   */
  lemma TakenDuringPrefixBlocksLast(p: PoolState, m: PoolState, q: PoolState, user: UserId, last: ProductId,
                                    now: Time, j: nat, k: nat)
    requires OnlyClaimedBy(p.keys, m.keys, user)
    requires q == GrantProduct(m, user, last, now)
    requires j < |p.keys| && k < |p.keys|
    requires m.keys[j] == p.keys[j] && q.keys[j] != p.keys[j]
    requires m.keys[k] != p.keys[k]
    ensures p.keys[j].productId != p.keys[k].productId
  {
    GrantProductStep(m, user, last, now);
    assert m.keys[k].usedBy == Some(user) && m.keys[k].productId == p.keys[k].productId;
    assert p.keys[j].productId == last;
  }

  /** PaymentReceiptService::grantSubscriptionContentAccess. */
  method GrantSubscriptionContentAccess(user: UserId, plan: SubscriptionPlan, ledger: UserCourseTable, pool: KeyPool, now: Time)
    requires pool.Valid()
    modifies ledger, pool
    ensures pool.Valid()
    ensures ledger.rows == GrantCourses(old(ledger.rows), user, plan.courseIds)
    ensures pool.State() == GrantProducts(old(pool.State()), user, plan.productIds, now)
  {
    GrantPlanCourses(user, plan.courseIds, ledger);
    GrantPlanProducts(user, plan.productIds, pool, now);
  }

  /** The plan's courses loop: firstOrCreate one subscription row per course. */
  method GrantPlanCourses(user: UserId, courses: seq<CourseId>, ledger: UserCourseTable)
    modifies ledger
    ensures ledger.rows == GrantCourses(old(ledger.rows), user, courses)
  {
    var i := 0;
    while i < |courses|
      invariant 0 <= i <= |courses|
      invariant ledger.rows == GrantCourses(old(ledger.rows), user, courses[..i])
    {
      assert courses[..i + 1][..i] == courses[..i];
      ledger.CreateIfAbsent(user, courses[i]);
      i := i + 1;
    }
    assert courses[..|courses|] == courses;
  }

  /** One product of the plan: skip it when the user holds a key, else claim the first unused key. */
  method GrantPlanProduct(user: UserId, pid: ProductId, pool: KeyPool, now: Time)
    requires pool.Valid()
    modifies pool
    ensures pool.Valid()
    ensures pool.State() == GrantProduct(old(pool.State()), user, pid, now)
  {
    var existing := First(pool.keys, HeldBy(pid, user));
    if existing.None? {
      var available := First(pool.keys, AvailableOf(pid));
      if available.Some? {
        var _ := pool.MarkAsUsed(available.value, user, true, now);
      }
    }
  }

  /** The plan's products loop: a product the user holds no key of gets the first unused key. */
  method GrantPlanProducts(user: UserId, pids: seq<ProductId>, pool: KeyPool, now: Time)
    requires pool.Valid()
    modifies pool
    ensures pool.Valid()
    ensures pool.State() == GrantProducts(old(pool.State()), user, pids, now)
  {
    var i := 0;
    while i < |pids|
      invariant 0 <= i <= |pids|
      invariant pool.State() == GrantProducts(old(pool.State()), user, pids[..i], now) && pool.Valid()
    {
      assert pids[..i + 1][..i] == pids[..i];
      GrantPlanProduct(user, pids[i], pool, now);
      i := i + 1;
    }
    assert pids[..|pids|] == pids;
  }

  /** PaymentReceiptService::verifySubscriptionPayment. */
  method VerifySubscriptionPayment(sub: UserSubscription, plan: SubscriptionPlan, ledger: UserCourseTable, pool: KeyPool,
                                   now: Time, addMonth: Time -> Time, addYear: Time -> Time)
    requires pool.Valid() && plan.id == sub.planId
    modifies sub, ledger, pool
    ensures pool.Valid()
    ensures sub.Row() == Activated(old(sub.Row()), now, addMonth, addYear)
    ensures ledger.rows == GrantCourses(old(ledger.rows), sub.userId, plan.courseIds)
    ensures pool.State() == GrantProducts(old(pool.State()), sub.userId, plan.productIds, now)
  {
    var startsAt := now;
    var endsAt := if sub.billingCycle == "yearly" then addYear(startsAt) else addMonth(startsAt);
    sub.Update(sub.Row().(paymentStatus := Completed, startsAt := Some(startsAt), endsAt := Some(endsAt), isActive := true));
    GrantSubscriptionContentAccess(sub.userId, plan, ledger, pool, now);
  }

  /** PaymentReceiptService::rejectSubscriptionPayment: the subscription is marked failed. */
  method RejectSubscriptionPayment(sub: UserSubscription)
    modifies sub
    ensures sub.Row() == old(sub.Row()).(paymentStatus := Failed)
  {
    sub.Update(sub.Row().(paymentStatus := Failed));
  }

  // --------------------------------------------------------------- receipts

  const MaxReceiptBytes: nat := 5 * 1024 * 1024

  const AllowedMimes: seq<string> := ["image/jpeg", "image/png", "image/jpg", "application/pdf"]

  datatype ReceiptError = FileTooLarge | UnsupportedType

  /** validateReceiptFile: the size limit is checked first, then the MIME type. */
  function ValidateReceiptFile(size: nat, mime: string): (r: Result<bool, ReceiptError>)
    ensures r.Ok? <==> size <= 5242880 && mime in AllowedMimes
    ensures r.Ok? ==> r.value
    ensures size > 5242880 ==> r == Err(FileTooLarge)
    ensures size <= 5242880 && mime !in AllowedMimes ==> r == Err(UnsupportedType)
  {
    if size > MaxReceiptBytes then Err(FileTooLarge)
    else if mime !in AllowedMimes then Err(UnsupportedType)
    else Ok(true)
  }

  /** generateFilename: `{type}_{id}_{timestamp}_{random}.{ext}`. */
  function GenerateFilename(kind: string, id: nat, at: DateTime, random: string, ext: string): string
  {
    kind + "_" + Decimal(id) + "_" + YmdHis(at) + "_" + random + "." + ext
  }

  /** The middle of a three-part concatenation. */
  lemma MiddleOfConcat(a: string, b: string, c: string)
    ensures (a + b + c)[|a|..|a| + |b|] == b
    ensures (a + b + c)[..|a|] == a
    ensures (a + b + c)[|a| + |b|..] == c
  {
    assert (a + b + c)[..|a|] == a;
  }

  /**
   * A receipt name can be split back into its parts from the end, given the
   * six-character random part and the extension: the extension, the random
   * part, a 14-digit stamp that reads back as the upload instant, and the
   * record id in decimal between the type and the stamp.
   */
  lemma FilenameFields(kind: string, id: nat, at: DateTime, random: string, ext: string)
    requires ValidDateTime(at) && |random| == 6
    ensures var f := GenerateFilename(kind, id, at, random, ext);
      var n := |f| - |ext| - 1;
      var stamp := f[n - 21..n - 7];
      && n == |kind| + |Decimal(id)| + 23
      && f[n - 7..] == "_" + random + "." + ext
      && f[n - 22] == '_' && IsDigits(stamp)
      && DecimalValue(stamp[..4]) == at.year && DecimalValue(stamp[4..6]) == at.month
      && DecimalValue(stamp[6..8]) == at.day && DecimalValue(stamp[8..10]) == at.hour
      && DecimalValue(stamp[10..12]) == at.minute && DecimalValue(stamp[12..]) == at.second
      && f[..|kind| + 1] == kind + "_"
      && DecimalValue(f[|kind| + 1..n - 22]) == id
  {
    var d := Decimal(id);
    var pre := kind + "_" + d + "_";
    var post := "_" + random + "." + ext;
    var f := GenerateFilename(kind, id, at, random, ext);
    assert f == pre + YmdHis(at) + post;
    MiddleOfConcat(pre, YmdHis(at), post);
    MiddleOfConcat(kind + "_", d, "_");
    assert f[..|pre|] == pre;
    assert f[|kind| + 1..|pre| - 1] == pre[|kind| + 1..|pre| - 1];
    assert f[..|kind| + 1] == pre[..|kind| + 1];
    YmdHisRoundTrip(at);
    DecimalRoundTrip(id);
  }
}
