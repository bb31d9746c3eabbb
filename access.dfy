/**
 * The CheckSubscription middleware: a request to subscription content passes
 * only for a logged-in user with an active subscription, and only to a
 * course or product that is in the plan or that the user bought.
 * `User::activeSubscription` is not part of this model; its plan is a parameter.
 */
module Access {
  import opened Basics
  import opened Keys
  import opened UserCourses
  import opened Subscriptions

  /** The parts of a request the middleware looks at: the user and the bound route models. */
  datatype Request = Request(user: Option<UserId>, course: Option<CourseId>, product: Option<ProductId>)

  datatype Decision =
    | RedirectLogin
    | RedirectPlans
    | RedirectCourse(course: CourseId)
    | RedirectProduct(product: ProductId)
    | Pass

  /** CheckSubscription::handle; `activePlan` is the plan of the user's active subscription, if any. */
  function CheckSubscription(req: Request, activePlan: Option<SubscriptionPlan>, rows: seq<UserCourse>, keys: seq<ProductKey>): (r: Decision)
    ensures r == RedirectLogin <==> req.user.None?
    ensures r == RedirectPlans <==> req.user.Some? && activePlan.None?
    ensures r.RedirectCourse? ==>
      req.user.Some? && activePlan.Some? && req.course == Some(r.course) &&
      !CourseAllowed(activePlan.value, rows, req.user.value, r.course)
    ensures r.RedirectProduct? ==>
      req.user.Some? && activePlan.Some? && req.product == Some(r.product) &&
      !ProductAllowed(activePlan.value, keys, req.user.value, r.product) &&
      (req.course.Some? ==> CourseAllowed(activePlan.value, rows, req.user.value, req.course.value))
  {
    if req.user.None? then RedirectLogin
    else if activePlan.None? then RedirectPlans
    else
      var user := req.user.value;
      var plan := activePlan.value;
      if req.course.Some? && req.course.value !in plan.courseIds && !HasCourse(rows, user, req.course.value) then
        RedirectCourse(req.course.value)
      else if req.product.Some? && req.product.value !in plan.productIds && !Holds(keys, user, req.product.value) then
        RedirectProduct(req.product.value)
      else Pass
  }

  /** May the user reach this course: in the plan or bought on its own. */
  predicate CourseAllowed(plan: SubscriptionPlan, rows: seq<UserCourse>, user: UserId, course: CourseId)
  {
    course in plan.courseIds || HasCourse(rows, user, course)
  }

  /** May the user reach this product: in the plan or any key of it held. */
  predicate ProductAllowed(plan: SubscriptionPlan, keys: seq<ProductKey>, user: UserId, product: ProductId)
  {
    product in plan.productIds || Holds(keys, user, product)
  }

  /**
   * The request passes iff the user is logged in, has an active subscription,
   * and may reach the requested course and product; a logged-out request goes
   * to login, and without a subscription purchases do not help.
   */
  lemma CheckSubscriptionPasses(req: Request, activePlan: Option<SubscriptionPlan>, rows: seq<UserCourse>, keys: seq<ProductKey>)
    ensures var d := CheckSubscription(req, activePlan, rows, keys);
      && (d == Pass <==>
            req.user.Some? && activePlan.Some? &&
            (req.course.Some? ==> CourseAllowed(activePlan.value, rows, req.user.value, req.course.value)) &&
            (req.product.Some? ==> ProductAllowed(activePlan.value, keys, req.user.value, req.product.value)))
      && (req.user.None? <==> d == RedirectLogin)
      && (req.user.Some? && activePlan.None? <==> d == RedirectPlans)
      && (req.user.Some? && activePlan.Some? && req.course.None? && req.product.None? ==> d == Pass)
  {
  }

  /** The course is checked first: a refused course redirects to the course even when the product is refused too. */
  lemma CourseCheckedFirst(req: Request, plan: SubscriptionPlan, rows: seq<UserCourse>, keys: seq<ProductKey>)
    requires req.user.Some? && req.course.Some? && !CourseAllowed(plan, rows, req.user.value, req.course.value)
    ensures CheckSubscription(req, Some(plan), rows, keys) == RedirectCourse(req.course.value)
  {
  }

  /**
   * A product bought on its own stays reachable for a subscriber after the
   * grants of completeOrder or a plan, since those only add holders.
   */
  lemma ProductAccessSurvivesClaims(plan: SubscriptionPlan, before: seq<ProductKey>, after: seq<ProductKey>,
                                    user: UserId, other: UserId, product: ProductId)
    requires AllConsistent(before) && OnlyClaimedBy(before, after, other) && ProductAllowed(plan, before, user, product)
    ensures ProductAllowed(plan, after, user, product)
  {
    if product !in plan.productIds {
      var j :| 0 <= j < |before| && before[j].productId == product && before[j].usedBy == Some(user);
      assert Consistent(before[j]);
      assert after[j].productId == product && after[j].usedBy == Some(user);
    }
  }
}
