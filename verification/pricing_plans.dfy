/**
  * The pricing-plan selection shared by the landing selector, the
  * subscriptions landing page and the dashboard's plans page: keep the
  * active prices of active subscription products whose recurring
  * interval is a month or a year, split them by interval, and sort each
  * list stably by the plan's `order`. Also the viewer's subscription
  * context those pages show next to the plans.
  */
module PricingPlans {
  import opened Wrappers
  import opened Seqs
  import opened Billing
  import opened Accounts

  /** A price's `recurring` data: falsy, or a mapping whose `interval` entry is given or not. */
  datatype Recurring = NoRecurring | RecurringWith(interval: Option<string>)

  datatype PlanPrice = PlanPrice(id: string, active: bool, recurring: Recurring)

  /** A synced product with its prices, in the order the prefetch yields them. */
  datatype Product = Product(id: ProductId, active: bool, prices: seq<PlanPrice>)

  /** One entry of a plan list: the plan's order, the price and the product's plan metadata. */
  datatype Plan = Plan(order: int, price: PlanPrice, metadata: PlanMetadata)

  datatype PricingPlans = PricingPlans(monthly: seq<Plan>, yearly: seq<Plan>)

  /** The two billing periods a plan list is kept for. */
  datatype Period = Month | Year
  {
    function Name(): string
    {
      match this
      case Month => "month"
      case Year => "year"
    }
  }

  function ListOf(plans: PricingPlans, period: Period): seq<Plan>
  {
    match period
    case Month => plans.monthly
    case Year => plans.yearly
  }

  /** `price.recurring.get("interval") if price.recurring else None`. */
  function PriceInterval(price: PlanPrice): (r: Option<string>)
    ensures price.recurring.NoRecurring? ==> r.None?
    ensures price.recurring.RecurringWith? ==> r == price.recurring.interval
  {
    match price.recurring
    case NoRecurring => None
    case RecurringWith(interval) => interval
  }

  /**
    * Whether `product` contributes `x` to the list for `period`: the
    * product is active and has plan metadata, `x` carries that metadata
    * and its order, and `x`'s price is one of the product's active prices
    * with the period's interval.
    */
  predicate ProductOffers(product: Product, x: Plan, period: Period)
  {
    && product.active
    && SubscriptionMetadata(product.id).Some?
    && x.metadata == SubscriptionMetadata(product.id).value
    && x.order == x.metadata.order
    && x.price in product.prices
    && x.price.active
    && PriceInterval(x.price) == Some(period.Name())
  }

  ghost predicate Offered(products: seq<Product>, x: Plan, period: Period)
  {
    exists k :: 0 <= k < |products| && ProductOffers(products[k], x, period)
  }

  // ---------------------------------------------------------------------
  // Collecting, in query order
  // ---------------------------------------------------------------------

  const NoPlans := PricingPlans([], [])

  /** The plans of one product's prices, in price order, before sorting. */
  function PricePlans(prices: seq<PlanPrice>, md: PlanMetadata): (r: PricingPlans)
  {
    if prices == [] then NoPlans
    else
      var rest := PricePlans(prices[1..], md);
      var price := prices[0];
      var plan := Plan(md.order, price, md);
      if !price.active then rest
      else if PriceInterval(price) == Some("month") then rest.(monthly := [plan] + rest.monthly)
      else if PriceInterval(price) == Some("year") then rest.(yearly := [plan] + rest.yearly)
      else rest
  }

  /** The plans one product contributes: none unless it is active and has plan metadata. */
  function ProductPlans(product: Product): PricingPlans
  {
    if !product.active then NoPlans
    else match SubscriptionMetadata(product.id)
      case None => NoPlans
      case Some(md) => PricePlans(product.prices, md)
  }

  /** The loop over the active products: each product's plans appended in turn. */
  function Gather(products: seq<Product>): PricingPlans
  {
    if products == [] then NoPlans
    else
      var a := ProductPlans(products[0]);
      var b := Gather(products[1..]);
      PricingPlans(a.monthly + b.monthly, a.yearly + b.yearly)
  }

  lemma {:induction false} PricePlansMembers(prices: seq<PlanPrice>, md: PlanMetadata, period: Period, x: Plan)
    ensures x in ListOf(PricePlans(prices, md), period) <==>
      x.price in prices && x.price.active && PriceInterval(x.price) == Some(period.Name()) &&
      x == Plan(md.order, x.price, md)
  {
    if prices != [] {
      PricePlansMembers(prices[1..], md, period, x);
      assert prices == [prices[0]] + prices[1..];
    }
  }

  lemma ProductPlansMembers(product: Product, period: Period, x: Plan)
    ensures x in ListOf(ProductPlans(product), period) <==> ProductOffers(product, x, period)
  {
    if product.active && SubscriptionMetadata(product.id).Some? {
      PricePlansMembers(product.prices, SubscriptionMetadata(product.id).value, period, x);
    }
  }

  lemma {:induction false} GatherMembers(products: seq<Product>, period: Period, x: Plan)
    ensures x in ListOf(Gather(products), period) <==> Offered(products, x, period)
  {
    if products != [] {
      GatherMembers(products[1..], period, x);
      ProductPlansMembers(products[0], period, x);
      if Offered(products, x, period) && !ProductOffers(products[0], x, period) {
        var k :| 0 <= k < |products| && ProductOffers(products[k], x, period);
        assert ProductOffers(products[1..][k - 1], x, period);
      }
      if Offered(products[1..], x, period) {
        var k :| 0 <= k < |products[1..]| && ProductOffers(products[1..][k], x, period);
        assert ProductOffers(products[k + 1], x, period);
      }
    }
  }

  // ---------------------------------------------------------------------
  // Stable sort by order
  // ---------------------------------------------------------------------

  predicate SortedByOrder(xs: seq<Plan>)
  {
    forall i, j :: 0 <= i < j < |xs| ==> xs[i].order <= xs[j].order
  }

  /** The plans whose order is `k`. */
  function OrderIs(k: int): Plan -> bool
  {
    (x: Plan) => x.order == k
  }

  /** `x` placed before the first element whose order is not below its own. */
  function Insert(x: Plan, ys: seq<Plan>): (r: seq<Plan>)
    ensures multiset(r) == multiset(ys) + multiset{x}
  {
    if ys == [] then [x]
    else if x.order <= ys[0].order then [x] + ys
    else
      assert ys == [ys[0]] + ys[1..];
      [ys[0]] + Insert(x, ys[1..])
  }

  lemma {:induction false} InsertSorted(x: Plan, ys: seq<Plan>)
    requires SortedByOrder(ys)
    ensures SortedByOrder(Insert(x, ys))
  {
    if ys != [] && x.order > ys[0].order {
      var rest := Insert(x, ys[1..]);
      InsertSorted(x, ys[1..]);
      assert forall e :: e in rest ==> ys[0].order <= e.order by {
        forall e | e in rest ensures ys[0].order <= e.order {
          assert e in multiset(rest);
          assert e == x || e in multiset(ys[1..]);
        }
      }
      var r := [ys[0]] + rest;
      forall i, j | 0 <= i < j < |r| ensures r[i].order <= r[j].order {
        assert r[j] == rest[j - 1];
        if i > 0 {
          assert r[i] == rest[i - 1];
        }
      }
    }
  }

  /**
    * `list.sort(key=order)`: insertion of each element, last first, so an
    * element goes before the equal-order elements that followed it.
    */
  function SortByOrder(xs: seq<Plan>): (r: seq<Plan>)
    ensures multiset(r) == multiset(xs)
    ensures SortedByOrder(r)
  {
    if xs == [] then []
    else
      assert xs == [xs[0]] + xs[1..];
      InsertSorted(xs[0], SortByOrder(xs[1..]));
      Insert(xs[0], SortByOrder(xs[1..]))
  }

  /** Inserting `x` puts it ahead of every element with the same order. */
  lemma {:induction false} InsertKeepsEqualOrder(x: Plan, ys: seq<Plan>, k: int)
    ensures Filter(Insert(x, ys), OrderIs(k)) == (if x.order == k then [x] else []) + Filter(ys, OrderIs(k))
  {
    var p := OrderIs(k);
    if ys == [] {
      assert Filter([x], p) == (if p(x) then [x] else []) + Filter([x][1..], p);
    } else if x.order <= ys[0].order {
      assert ([x] + ys)[1..] == ys;
      assert Filter([x] + ys, p) == (if p(x) then [x] else []) + Filter(ys, p);
    } else {
      var rest := Insert(x, ys[1..]);
      InsertKeepsEqualOrder(x, ys[1..], k);
      assert ([ys[0]] + rest)[1..] == rest;
      assert Filter([ys[0]] + rest, p) == (if p(ys[0]) then [ys[0]] else []) + Filter(rest, p);
      assert Filter(ys, p) == (if p(ys[0]) then [ys[0]] else []) + Filter(ys[1..], p);
    }
  }

  /** The sort is stable: the plans of each order keep their relative order. */
  lemma {:induction false} SortIsStable(xs: seq<Plan>, k: int)
    ensures Filter(SortByOrder(xs), OrderIs(k)) == Filter(xs, OrderIs(k))
  {
    if xs != [] {
      SortIsStable(xs[1..], k);
      InsertKeepsEqualOrder(xs[0], SortByOrder(xs[1..]), k);
    }
  }

  // ---------------------------------------------------------------------
  // get_pricing_plans
  // ---------------------------------------------------------------------

  /**
    * `get_pricing_plans` over the products in query order: each list holds
    * exactly the plans offered for its period, once per offering, sorted
    * by order.
    */
  function GetPricingPlans(products: seq<Product>): (r: PricingPlans)
    ensures forall period :: SortedByOrder(ListOf(r, period))
    ensures forall period :: multiset(ListOf(r, period)) == multiset(ListOf(Gather(products), period))
    ensures forall period, x :: x in ListOf(r, period) <==> Offered(products, x, period)
  {
    var g := Gather(products);
    var r := PricingPlans(SortByOrder(g.monthly), SortByOrder(g.yearly));
    assert forall period :: multiset(ListOf(r, period)) == multiset(ListOf(g, period));
    assert forall period, x :: x in ListOf(r, period) <==> x in ListOf(g, period) by {
      forall period, x ensures x in ListOf(r, period) <==> x in ListOf(g, period) {
        assert x in ListOf(r, period) <==> x in multiset(ListOf(r, period));
        assert x in ListOf(g, period) <==> x in multiset(ListOf(g, period));
      }
    }
    assert forall period, x :: x in ListOf(g, period) <==> Offered(products, x, period) by {
      forall period, x ensures x in ListOf(g, period) <==> Offered(products, x, period) {
        GatherMembers(products, period, x);
      }
    }
    r
  }

  /**
    * Each plan in a list has the list's interval, an active price, and
    * its metadata's order; so no plan is in both lists, and products
    * without plan metadata contribute nothing.
    */
  lemma PlansPartition(products: seq<Product>, period: Period, x: Plan)
    requires x in ListOf(GetPricingPlans(products), period)
    ensures PriceInterval(x.price) == Some(period.Name()) && x.price.active
    ensures x.order == x.metadata.order && x.metadata in {Premium, Standard, Starter}
    ensures x !in ListOf(GetPricingPlans(products), if period == Month then Year else Month)
    ensures exists k :: 0 <= k < |products| && products[k].active && products[k].id == x.metadata.stripeId
  {
    var k :| 0 <= k < |products| && ProductOffers(products[k], x, period);
  }

  /** Plans of equal order appear in the order the products and prices were read. */
  lemma PlansStable(products: seq<Product>, period: Period, k: int)
    ensures Filter(ListOf(GetPricingPlans(products), period), OrderIs(k)) ==
            Filter(ListOf(Gather(products), period), OrderIs(k))
  {
    SortIsStable(ListOf(Gather(products), period), k);
  }

  // ---------------------------------------------------------------------
  // The viewer's subscription context
  // ---------------------------------------------------------------------

  /** The requesting user, or an anonymous visitor. */
  datatype Viewer = Anonymous | SignedIn(user: User)

  datatype SubscriptionContext = SubscriptionContext(subscription: Option<Subscription>, productId: Option<ProductId>)

  /** The product id shown for a subscription: its product's, or `None`. */
  function ProductIdOf(sub: Option<Subscription>): (r: Option<ProductId>)
    ensures sub.None? ==> r.None?
    ensures sub.Some? ==> r == SubscriptionProduct(sub.value)
  {
    match sub
    case None => None
    case Some(s) => SubscriptionProduct(s)
  }

  /**
    * The query `get_user_subscription_context` evidently intends: for a
    * signed-in user with a customer, the newest of the customer's
    * subscriptions with status in ["active", "trialing"] and its product
    * id; otherwise nothing.
    */
  function IntendedSelectorContext(viewer: Viewer, subs: seq<Subscription>): (r: SubscriptionContext)
    ensures viewer.Anonymous? || viewer.user.customer.None? ==> r == SubscriptionContext(None, None)
    ensures r.subscription.None? ==> r.productId.None?
    ensures r.subscription.Some? ==>
      && viewer.SignedIn?
      && r.subscription.value in subs
      && r.subscription.value.customer == viewer.user.customer
      && r.subscription.value.status in ["active", "trialing"]
      && r.productId == SubscriptionProduct(r.subscription.value)
  {
    match viewer
    case Anonymous => SubscriptionContext(None, None)
    case SignedIn(user) =>
      match user.customer
      case None => SubscriptionContext(None, None)
      case Some(c) =>
        var sub := Newest(Filter(subs, (s: Subscription) => s.customer == Some(c) && s.status in ["active", "trialing"]),
                          (s: Subscription) => s.created);
        SubscriptionContext(sub, ProductIdOf(sub))
  }

  /**
    * `get_user_subscription_context` as written. For an anonymous user or
    * one without a customer it gives nothing. Otherwise `.first()`
    * evaluates a query that asks `select_related` to join `product`. That
    * is not a relation of the provider's subscription model but a
    * property attached at start-up in `src/apps/subscriptions/apps.py`, so
    * Django raises `FieldError`, whatever the subscriptions are. The model
    * records the raise as `None`.
    */
  function SelectorContext(viewer: Viewer, subs: seq<Subscription>): (r: Option<SubscriptionContext>)
    ensures r.None? <==> viewer.SignedIn? && viewer.user.customer.Some?
    ensures r.Some? ==> r.value == SubscriptionContext(None, None)
  {
    match viewer
    case Anonymous => Some(SubscriptionContext(None, None))
    case SignedIn(user) => if user.customer.None? then Some(SubscriptionContext(None, None)) else None
  }

  /**
    * The landing page's own context: nothing for an anonymous visitor,
    * otherwise the user's `active_subscription` and its product id.
    */
  function PageContext(viewer: Viewer, subs: seq<Subscription>): (r: SubscriptionContext)
    ensures viewer.Anonymous? ==> r == SubscriptionContext(None, None)
    ensures viewer.SignedIn? ==> r.subscription == ActiveSubscription(viewer.user, subs)
    ensures r.productId.Some? <==> r.subscription.Some? && SubscriptionProduct(r.subscription.value).Some?
  {
    match viewer
    case Anonymous => SubscriptionContext(None, None)
    case SignedIn(user) =>
      var sub := ActiveSubscription(user, subs);
      SubscriptionContext(sub, ProductIdOf(sub))
  }

  lemma {:induction false} FilterSamePredicate<T>(xs: seq<T>, p: T -> bool, q: T -> bool)
    requires forall x :: p(x) == q(x)
    ensures Filter(xs, p) == Filter(xs, q)
  {
    if xs != [] {
      FilterSamePredicate(xs[1..], p, q);
    }
  }

  /** The intended selector query and the subscriptions page's inline lookup give the same context. */
  lemma ContextsAgree(viewer: Viewer, subs: seq<Subscription>)
    ensures IntendedSelectorContext(viewer, subs) == PageContext(viewer, subs)
  {
    if viewer.SignedIn? && viewer.user.customer.Some? {
      var c := viewer.user.customer.value;
      FilterSamePredicate(subs, (s: Subscription) => s.customer == Some(c) && s.status in ["active", "trialing"],
                          (s: Subscription) => s.customer == Some(c) && IsLive(s.status));
    }
  }

  /** The context a plans page renders: the plan lists and the viewer's subscription. */
  datatype PlansPage = PlansPage(plans: PricingPlans, context: SubscriptionContext)

  /**
    * The subscriptions landing page (`index` of the subscriptions views):
    * the plan lists of `get_pricing_plans`, computed inline, and the
    * user's `active_subscription` with its product id, which is the
    * context the selector's query intends.
    */
  function SubscriptionsIndex(products: seq<Product>, viewer: Viewer, subs: seq<Subscription>): (r: PlansPage)
    ensures r.plans == GetPricingPlans(products)
    ensures r.context == IntendedSelectorContext(viewer, subs)
    ensures viewer.SignedIn? ==> r.context.subscription == ActiveSubscription(viewer.user, subs)
  {
    ContextsAgree(viewer, subs);
    PlansPage(GetPricingPlans(products), PageContext(viewer, subs))
  }

  /**
    * The site's landing page (`index` of the landing views) as written:
    * the selector's plan lists, and the selector's context or, when the
    * selector raises, the page's fallback of no subscription. The plan
    * selection never raises in the model, so its fallback is not taken.
    */
  function LandingIndex(products: seq<Product>, viewer: Viewer, subs: seq<Subscription>): (r: PlansPage)
    ensures r.plans == GetPricingPlans(products)
    ensures r.context == SubscriptionContext(None, None)
  {
    var context := match SelectorContext(viewer, subs)
      case None => SubscriptionContext(None, None)
      case Some(c) => c;
    PlansPage(GetPricingPlans(products), context)
  }

  /**
    * The discrepancy: a signed-in customer with an active subscription to
    * the Starter plan sees it marked on the subscriptions page, but the
    * landing page, whose selector raises, shows no subscription at all.
    */
  lemma LandingIndexHidesSubscription()
    ensures var sub := Subscription("sub_1", Some("cus_1"), "active", 1,
                                    [SubscriptionItem(Some(ItemPrice("price_1", Starter.stripeId)))]);
      var viewer := SignedIn(User("u1", Some("cus_1"), None));
      && SubscriptionsIndex([], viewer, [sub]).context == SubscriptionContext(Some(sub), Some(Starter.stripeId))
      && LandingIndex([], viewer, [sub]).context == SubscriptionContext(None, None)
  {
    var sub := Subscription("sub_1", Some("cus_1"), "active", 1,
                            [SubscriptionItem(Some(ItemPrice("price_1", Starter.stripeId)))]);
    var live := LiveSubscriptionsOf([sub], "cus_1");
    assert live == [sub];
  }

  /** The landing page with the intended selector query. */
  function CorrectedLandingIndex(products: seq<Product>, viewer: Viewer, subs: seq<Subscription>): (r: PlansPage)
    ensures r.plans == GetPricingPlans(products)
    ensures viewer.SignedIn? ==> r.context.subscription == ActiveSubscription(viewer.user, subs)
  {
    ContextsAgree(viewer, subs);
    PlansPage(GetPricingPlans(products), IntendedSelectorContext(viewer, subs))
  }

  /** With the intended query, the landing page and the subscriptions page render the same context. */
  lemma CorrectedLandingMatchesSubscriptionsPage(products: seq<Product>, viewer: Viewer, subs: seq<Subscription>)
    ensures CorrectedLandingIndex(products, viewer, subs) == SubscriptionsIndex(products, viewer, subs)
  {
  }
}
