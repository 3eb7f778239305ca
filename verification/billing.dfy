/**
  * The payment provider's subscription objects as the application reads
  * them, and the static plan metadata attached to subscription products:
  * the three plan constants, the lookup map, and the two properties the
  * application adds to the provider's models (`Subscription.product` and
  * `Product.subscription_metadata`).
  */
module Billing {
  import opened Wrappers

  type UserId = string
  type CustomerId = string
  type SubscriptionId = string
  type ProductId = string

  /** The feature constants the plans grant. */
  datatype Feature = UnlimitedWidgets | LudicrousMode | PrioritySupport

  /** `SubscriptionProductMetadata`. */
  datatype PlanMetadata = PlanMetadata(
    stripeId: ProductId,
    order: int,
    features: seq<Feature>,
    description: string,
    isPopular: bool)

  const Premium: PlanMetadata := PlanMetadata(
    "prod_THltnX3hll17Wp", 3, [UnlimitedWidgets, LudicrousMode, PrioritySupport],
    "For small businesses and teams", false)

  const Standard: PlanMetadata := PlanMetadata(
    "prod_THlvv4H2DsGKlo", 2, [UnlimitedWidgets, PrioritySupport],
    "For growing businesses", true)

  const Starter: PlanMetadata := PlanMetadata(
    "prod_THlqKyB01JLmKC", 1, [UnlimitedWidgets],
    "For individuals and small teams", false)

  /** `METADATA_MAP`: each plan under its product id. */
  const MetadataMap: map<ProductId, PlanMetadata> :=
    map[Premium.stripeId := Premium, Starter.stripeId := Starter, Standard.stripeId := Standard]

  /** `Product.subscription_metadata`: the map's entry for the product id, if any. */
  function SubscriptionMetadata(productId: ProductId): (r: Option<PlanMetadata>)
    ensures r.Some? <==> productId in MetadataMap
    ensures r.Some? ==> r.value.stripeId == productId && r.value in {Premium, Standard, Starter}
  {
    if productId in MetadataMap then Some(MetadataMap[productId]) else None
  }

  /** The map holds exactly the three plans, each under its own product id. */
  lemma MetadataMapKeys()
    ensures MetadataMap.Keys == {Premium.stripeId, Standard.stripeId, Starter.stripeId}
    ensures forall k :: k in MetadataMap ==> MetadataMap[k].stripeId == k
    ensures SubscriptionMetadata("prod_unknown").None?
  {
  }

  /** Plans are ordered Starter, Standard, Premium; only Standard is popular. */
  lemma PlanOrdering()
    ensures Starter.order < Standard.order < Premium.order
    ensures Standard.isPopular && !Starter.isPopular && !Premium.isPopular
  {
  }

  /** Each plan's features include those of the plans below it. */
  lemma FeaturesNested()
    ensures forall f :: f in Starter.features ==> f in Standard.features
    ensures forall f :: f in Standard.features ==> f in Premium.features
    ensures LudicrousMode !in Standard.features && PrioritySupport !in Starter.features
  {
  }

  // ---------------------------------------------------------------------
  // Subscriptions
  // ---------------------------------------------------------------------

  /** A subscription item's price: its id and the product it belongs to. */
  datatype ItemPrice = ItemPrice(id: string, product: ProductId)

  datatype SubscriptionItem = SubscriptionItem(price: Option<ItemPrice>)

  /**
    * A synced subscription: its customer (if any), its status string, its
    * creation time and its items, first item first.
    */
  datatype Subscription = Subscription(
    id: SubscriptionId,
    customer: Option<CustomerId>,
    status: string,
    created: int,
    items: seq<SubscriptionItem>)

  /** The statuses that make a subscription the user's active one. */
  predicate IsLive(status: string)
  {
    status == "active" || status == "trialing"
  }

  /** The statuses after which the cached subscription is cleared. */
  predicate IsEnded(status: string)
  {
    status == "canceled" || status == "incomplete_expired" || status == "unpaid"
  }

  /** `Subscription.product`: the first item's price's product; `None` without items or price. */
  function SubscriptionProduct(sub: Subscription): (r: Option<ProductId>)
    ensures sub.items == [] ==> r.None?
    ensures sub.items != [] && sub.items[0].price.None? ==> r.None?
    ensures r.Some? <==> sub.items != [] && sub.items[0].price.Some?
    ensures r.Some? ==> r.value == sub.items[0].price.value.product
  {
    if sub.items == [] then None
    else match sub.items[0].price
      case None => None
      case Some(price) => Some(price.product)
  }

  /** The plan metadata of a subscription's product, when both exist. */
  function SubscriptionPlan(sub: Subscription): (r: Option<PlanMetadata>)
    ensures r.Some? <==> SubscriptionProduct(sub).Some? && SubscriptionProduct(sub).value in MetadataMap
    ensures r.Some? ==> r.value.stripeId == SubscriptionProduct(sub).value
  {
    match SubscriptionProduct(sub)
    case None => None
    case Some(p) => SubscriptionMetadata(p)
  }

  /**
    * A subscription to a plan's product has that plan, and only such a
    * subscription does: the product property and the metadata lookup
    * invert each other on the three plans, and a subscription whose first
    * item has no price, or whose product is not a plan, has no plan.
    */
  lemma SubscriptionPlanRoundTrip(sub: Subscription, plan: PlanMetadata)
    requires plan in {Premium, Standard, Starter}
    ensures SubscriptionPlan(sub) == Some(plan) <==>
      sub.items != [] && sub.items[0].price.Some? && sub.items[0].price.value.product == plan.stripeId
    ensures SubscriptionPlan(sub).Some? ==> SubscriptionPlan(sub).value in {Premium, Standard, Starter}
  {
  }
}
