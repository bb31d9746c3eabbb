/**
 * UserSubscription: a user's subscription to a plan, its billing cycle,
 * its dates and its activity flag, and the two expiry predicates.
 */
module Subscriptions {
  import opened Basics

  const SecondsPerDay: int := 86400

  /** The plan's course and product lists, in relation order. */
  datatype SubscriptionPlan = SubscriptionPlan(id: nat, courseIds: seq<CourseId>, productIds: seq<ProductId>)

  /** The mutable columns of a user_subscriptions row. */
  datatype SubscriptionRow = SubscriptionRow(
    stripeSubscriptionId: Option<string>,
    startsAt: Option<Time>,
    endsAt: Option<Time>,
    isActive: bool,
    paymentStatus: PaymentStatus,
    billingCycle: string)

  class UserSubscription {
    const id: nat
    const userId: UserId
    const planId: nat
    var stripeSubscriptionId: Option<string>
    var startsAt: Option<Time>
    var endsAt: Option<Time>
    var isActive: bool
    var paymentStatus: PaymentStatus
    var billingCycle: string

    constructor (id: nat, userId: UserId, planId: nat, row: SubscriptionRow)
      ensures this.id == id && this.userId == userId && this.planId == planId && Row() == row
    {
      this.id, this.userId, this.planId := id, userId, planId;
      stripeSubscriptionId, startsAt, endsAt := row.stripeSubscriptionId, row.startsAt, row.endsAt;
      isActive, paymentStatus, billingCycle := row.isActive, row.paymentStatus, row.billingCycle;
    }

    function Row(): SubscriptionRow
      reads this
    {
      SubscriptionRow(stripeSubscriptionId, startsAt, endsAt, isActive, paymentStatus, billingCycle)
    }

    /** `$subscription->update([...])` with the row's new columns. */
    method Update(row: SubscriptionRow)
      modifies this
      ensures Row() == row
    {
      stripeSubscriptionId, startsAt, endsAt := row.stripeSubscriptionId, row.startsAt, row.endsAt;
      isActive, paymentStatus, billingCycle := row.isActive, row.paymentStatus, row.billingCycle;
    }
  }

  /** `isExpired`: the end date is set and already past. */
  predicate IsExpired(endsAt: Option<Time>, now: Time)
  {
    endsAt.Some? && endsAt.value < now
  }

  /** Carbon's `diffInDays`: whole days between two instants, whichever comes first. */
  function DiffInDays(a: Time, b: Time): nat
  {
    (if a >= b then a - b else b - a) / SecondsPerDay
  }

  /** `isExpiringSoon`: the end date is set and at most seven whole days away, before or after. */
  predicate IsExpiringSoon(endsAt: Option<Time>, now: Time)
  {
    endsAt.Some? && DiffInDays(endsAt.value, now) <= 7
  }

  /** Without an end date a subscription is neither expired nor expiring. */
  lemma NoEndDateNeverExpires(now: Time)
    ensures !IsExpired(None, now) && !IsExpiringSoon(None, now)
  {
  }

  /** Once expired, a subscription stays expired. */
  lemma ExpiredStaysExpired(endsAt: Option<Time>, now: Time, later: Time)
    requires IsExpired(endsAt, now) && now <= later
    ensures IsExpired(endsAt, later)
  {
  }

  /**
   * The seven-day window in seconds: "expiring soon" holds exactly when the
   * end date lies less than eight days before or after now, so it also holds
   * for a subscription that ended up to a week ago.
   */
  lemma ExpiringSoonWindow(e: Time, now: Time)
    ensures IsExpiringSoon(Some(e), now) <==> now - 8 * SecondsPerDay < e < now + 8 * SecondsPerDay
  {
    var d := if e >= now then e - now else now - e;
    assert DiffInDays(e, now) == d / SecondsPerDay;
    if d < 8 * SecondsPerDay {
      assert d / SecondsPerDay <= 7;
    } else {
      assert d / SecondsPerDay >= 8;
    }
  }

  /** verifySubscriptionPayment's end date: a year on for "yearly", otherwise a month on. */
  function EndsAtFor(billingCycle: string, start: Time, addMonth: Time -> Time, addYear: Time -> Time): Time
  {
    if billingCycle == "yearly" then addYear(start) else addMonth(start)
  }

  /** The columns verifySubscriptionPayment writes. */
  function Activated(r: SubscriptionRow, now: Time, addMonth: Time -> Time, addYear: Time -> Time): SubscriptionRow
  {
    r.(paymentStatus := Completed, startsAt := Some(now),
       endsAt := Some(EndsAtFor(r.billingCycle, now, addMonth, addYear)), isActive := true)
  }

  /** The columns the cancel action writes. */
  function CanceledAt(r: SubscriptionRow, now: Time): SubscriptionRow
  {
    r.(isActive := false, endsAt := Some(now), paymentStatus := Canceled)
  }

  /**
   * An activated subscription is active, completed, starts now and ends a
   * year or a month later by its billing cycle; when the calendar moves
   * forward it is not expired at activation.
   */
  lemma ActivatedPeriod(r: SubscriptionRow, now: Time, addMonth: Time -> Time, addYear: Time -> Time)
    requires addMonth(now) > now && addYear(now) > now
    ensures var a := Activated(r, now, addMonth, addYear);
      && a.isActive && a.paymentStatus == Completed && a.startsAt == Some(now)
      && (r.billingCycle == "yearly" ==> a.endsAt == Some(addYear(now)))
      && (r.billingCycle != "yearly" ==> a.endsAt == Some(addMonth(now)))
      && !IsExpired(a.endsAt, now) && a.startsAt.value < a.endsAt.value
      && a.stripeSubscriptionId == r.stripeSubscriptionId && a.billingCycle == r.billingCycle
  {
  }

  /**
   * Cancelling ends the period at once: the subscription is inactive and
   * expired at every later instant, whatever its billing cycle had left.
   */
  lemma CanceledHasNoGracePeriod(r: SubscriptionRow, now: Time, later: Time)
    requires now < later
    ensures var c := CanceledAt(r, now);
      !c.isActive && c.paymentStatus == Canceled && IsExpired(c.endsAt, later) && !IsExpired(c.endsAt, now)
  {
  }
}
