/**
  * The user record and its subscription queries: the active subscription
  * (read from the synced subscriptions, not from the cached field), its
  * status, and the features the user's plan grants.
  */
module Accounts {
  import opened Wrappers
  import opened Seqs
  import opened Billing

  /** A user: id, linked customer, and the cached subscription field. */
  datatype User = User(id: UserId, customer: Option<CustomerId>, subscription: Option<SubscriptionId>)

  /** The synced subscriptions of customer `c` whose status is active or trialing, in table order. */
  function LiveSubscriptionsOf(subs: seq<Subscription>, c: CustomerId): seq<Subscription>
  {
    Filter(subs, (s: Subscription) => s.customer == Some(c) && IsLive(s.status))
  }

  /**
    * `active_subscription`: among the customer's subscriptions, newest
    * first, the first that is active or trialing; `None` without a
    * customer or without such a subscription.
    */
  function ActiveSubscription(user: User, subs: seq<Subscription>): (r: Option<Subscription>)
    ensures user.customer.None? ==> r.None?
    ensures r.Some? ==> r.value in subs && r.value.customer == user.customer && IsLive(r.value.status)
    ensures r.Some? ==> forall j :: 0 <= j < |subs| && subs[j].customer == user.customer && IsLive(subs[j].status) ==>
      subs[j].created <= r.value.created
    ensures r.None? <==>
      user.customer.None? || forall j :: 0 <= j < |subs| ==> !(subs[j].customer == user.customer && IsLive(subs[j].status))
  {
    match user.customer
    case None => None
    case Some(c) =>
      var live := LiveSubscriptionsOf(subs, c);
      var r := Newest(live, (s: Subscription) => s.created);
      assert forall j :: 0 <= j < |subs| && subs[j].customer == Some(c) && IsLive(subs[j].status) ==> subs[j] in live;
      r
  }

  /** `subscription_status`: the active subscription's status, else `None`. */
  function SubscriptionStatus(user: User, subs: seq<Subscription>): (r: Option<string>)
    ensures r.None? <==>
      user.customer.None? || forall j :: 0 <= j < |subs| ==> !(subs[j].customer == user.customer && IsLive(subs[j].status))
    ensures r.Some? ==> IsLive(r.value)
    ensures r.Some? ==>
      exists j :: 0 <= j < |subs| && subs[j].customer == user.customer && subs[j].status == r.value &&
                  (forall k :: 0 <= k < |subs| && subs[k].customer == user.customer && IsLive(subs[k].status) ==>
                                subs[k].created <= subs[j].created)
  {
    match ActiveSubscription(user, subs)
    case None => None
    case Some(sub) => Some(sub.status)
  }

  /** Whatever the subscriptions, the status is "active", "trialing" or absent. */
  lemma StatusIsLiveOrAbsent(user: User, subs: seq<Subscription>)
    ensures SubscriptionStatus(user, subs) in {None, Some("active"), Some("trialing")}
  {
  }

  /** The plan of the active subscription, when there is one with a known product. */
  function ActivePlan(user: User, subs: seq<Subscription>): (r: Option<PlanMetadata>)
    ensures ActiveSubscription(user, subs).None? ==> r.None?
    ensures r.Some? <==>
      && ActiveSubscription(user, subs).Some?
      && SubscriptionProduct(ActiveSubscription(user, subs).value).Some?
      && SubscriptionProduct(ActiveSubscription(user, subs).value).value in MetadataMap
    ensures r.Some? ==> r.value in {Premium, Standard, Starter}
    ensures r.Some? ==> r.value.stripeId == SubscriptionProduct(ActiveSubscription(user, subs).value).value
  {
    match ActiveSubscription(user, subs)
    case None => None
    case Some(sub) => SubscriptionPlan(sub)
  }

  /** `get_subscription_features`: the plan's features; `[]` without subscription, product or plan. */
  function SubscriptionFeatures(user: User, subs: seq<Subscription>): (r: seq<Feature>)
    ensures ActiveSubscription(user, subs).None? ==> r == []
    ensures ActiveSubscription(user, subs).Some? && SubscriptionProduct(ActiveSubscription(user, subs).value).None? ==> r == []
    ensures ActivePlan(user, subs).None? ==> r == []
    ensures ActivePlan(user, subs).Some? ==> r == ActivePlan(user, subs).value.features
    ensures r != [] <==> ActivePlan(user, subs).Some?
  {
    match ActivePlan(user, subs)
    case None => []
    case Some(plan) => plan.features
  }

  /** `has_feature`: whether the active subscription's plan lists the feature. */
  function HasFeature(user: User, subs: seq<Subscription>, feature: Feature): (r: bool)
    ensures r <==> feature in SubscriptionFeatures(user, subs)
  {
    var sub := ActiveSubscription(user, subs);
    if sub.Some? && SubscriptionProduct(sub.value).Some? && SubscriptionMetadata(SubscriptionProduct(sub.value).value).Some?
    then feature in SubscriptionMetadata(SubscriptionProduct(sub.value).value).value.features
    else false
  }

  /** Every feature granted comes from one of the three plans; ludicrous mode only from Premium. */
  lemma FeatureImpliesPlan(user: User, subs: seq<Subscription>, feature: Feature)
    requires HasFeature(user, subs, feature)
    ensures ActivePlan(user, subs).Some?
    ensures feature == LudicrousMode ==> ActivePlan(user, subs) == Some(Premium)
    ensures feature == PrioritySupport ==> ActivePlan(user, subs) in {Some(Standard), Some(Premium)}
  {
  }

  /** Every live plan grants unlimited widgets. */
  lemma EveryPlanGrantsWidgets(user: User, subs: seq<Subscription>)
    requires ActivePlan(user, subs).Some?
    ensures HasFeature(user, subs, UnlimitedWidgets)
  {
  }
}
