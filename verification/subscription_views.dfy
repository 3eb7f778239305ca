/**
  * The guard chains of the subscription views: starting a subscription
  * checkout, confirming it when the provider redirects back, and opening
  * the billing portal. Every provider call is an input (its reply), and
  * every branch that ends in a redirect back to a page is an outcome.
  */
module SubscriptionViews {
  import opened Wrappers
  import opened Seqs
  import opened Billing
  import opened Accounts
  import opened Gateway
  import opened SubscriptionSignals

  // ---------------------------------------------------------------------
  // create_checkout_session
  // ---------------------------------------------------------------------

  datatype SubscribeOutcome =
    | ToBillingPortal
    | SubscribeToIndex
    | SubscribeAtGateway(request: SessionRequest, url: string)

  /**
    * `create_checkout_session`: a user with an active subscription goes to
    * the billing portal; a missing price id, a failing customer lookup or
    * a failing creation call go back to the plans; otherwise a one-item
    * subscription checkout for the price, referenced by the user's id.
    * `customer` is the customer id the provider library returns, `None`
    * when it raises.
    */
  function CreateSubscriptionCheckout(user: User, subs: seq<Subscription>, priceId: Option<string>,
                                      customer: Option<CustomerId>, reply: CreateReply)
    : (r: SubscribeOutcome)
    ensures r == ToBillingPortal <==> ActiveSubscription(user, subs).Some?
    ensures r == SubscribeToIndex <==>
      ActiveSubscription(user, subs).None? && (!Present(priceId) || customer.None? || reply.CreateRaised?)
    ensures r.SubscribeAtGateway? ==>
      && ActiveSubscription(user, subs).None?
      && Present(priceId) && customer.Some?
      && r.request == SessionRequest(customer.value, [LineItem(priceId.value, 1)], SubscriptionMode, user.id, NoMetadata)
      && reply == Created(r.url)
  {
    if ActiveSubscription(user, subs).Some? then ToBillingPortal
    else if !Present(priceId) then SubscribeToIndex
    else match customer
      case None => SubscribeToIndex
      case Some(cid) =>
        match reply
        case CreateRaised => SubscribeToIndex
        case Created(url) =>
          SubscribeAtGateway(SessionRequest(cid, [LineItem(priceId.value, 1)], SubscriptionMode, user.id, NoMetadata), url)
  }

  // ---------------------------------------------------------------------
  // subscription_confirm
  // ---------------------------------------------------------------------

  /** The session's `client_reference_id`: falsy, not a UUID, or a user id. */
  datatype ClientRef = NoClientRef | MalformedClientRef | ClientRefTo(id: UserId)

  /** A retrieved subscription checkout session, or the exception its retrieval raised. */
  datatype SessionReply = SessionRetrieved(clientRef: ClientRef) | SessionRaised

  /** The subscription retrieved and synced for the session, or the exception that raised. */
  datatype SyncReply = Synced(sub: Subscription) | SyncRaised

  datatype ConfirmPage = ConfirmToIndex | Subscribed

  /**
    * `subscription_confirm` for the signed-in user `me`: with a session id,
    * a session referencing an existing user who is `me`, and a synced
    * subscription, that user's subscription and customer are set from the
    * synced subscription. Every other branch redirects and writes nothing.
    */
  function SubscriptionConfirm(users: seq<User>, me: UserId, sessionId: Option<string>,
                               session: SessionReply, sync: SyncReply)
    : (r: (seq<User>, ConfirmPage))
    ensures !Present(sessionId) || session.SessionRaised? ==> r == (users, ConfirmToIndex)
    ensures session.SessionRetrieved? && !session.clientRef.ClientRefTo? ==> r == (users, ConfirmToIndex)
    ensures session.SessionRetrieved? && session.clientRef.ClientRefTo? && session.clientRef.id != me ==>
      r == (users, ConfirmToIndex)
    ensures sync.SyncRaised? ==> r == (users, ConfirmToIndex)
    ensures r.1 == ConfirmToIndex ==> r.0 == users
    ensures r.1 == Subscribed <==>
      && Present(sessionId)
      && session == SessionRetrieved(ClientRefTo(me))
      && UserWithId(users, me).Some?
      && sync.Synced?
    ensures r.1 == Subscribed ==>
      var i := UserWithId(users, me).value;
      && OnlyChanged(users, r.0, i)
      && r.0[i] == User(me, sync.sub.customer, Some(sync.sub.id))
  {
    if !Present(sessionId) then (users, ConfirmToIndex)
    else match session
      case SessionRaised => (users, ConfirmToIndex)
      case SessionRetrieved(ref) =>
        match ref
        case NoClientRef => (users, ConfirmToIndex)
        case MalformedClientRef => (users, ConfirmToIndex)
        case ClientRefTo(id) =>
          match UserWithId(users, id)
          case None => (users, ConfirmToIndex)
          case Some(i) =>
            if users[i].id != me then (users, ConfirmToIndex)
            else match sync
              case SyncRaised => (users, ConfirmToIndex)
              case Synced(sub) =>
                (users[i := users[i].(subscription := Some(sub.id), customer := sub.customer)], Subscribed)
  }

  /** Reloading the confirmation page with the same replies changes nothing more. */
  lemma ConfirmIdempotent(users: seq<User>, me: UserId, sessionId: Option<string>, session: SessionReply, sync: SyncReply)
    ensures var r := SubscriptionConfirm(users, me, sessionId, session, sync);
      SubscriptionConfirm(r.0, me, sessionId, session, sync) == r
  {
    var r := SubscriptionConfirm(users, me, sessionId, session, sync);
    if r.1 == Subscribed {
      var i := UserWithId(users, me).value;
      SoleMatchAfterUpdate(users, (u: User) => u.id == me, i, r.0[i]);
      assert r.0 == users[i := r.0[i]];
      assert UserWithId(r.0, me) == Some(i);
      var sub := sync.sub;
      assert r.0[i := r.0[i].(subscription := Some(sub.id), customer := sub.customer)] == r.0;
    }
  }

  /**
    * Once a confirmation has stored a live subscription that is among the
    * synced subscriptions, starting another checkout sends the user to
    * the billing portal instead.
    */
  lemma ConfirmedUserGoesToPortal(users: seq<User>, me: UserId, sessionId: Option<string>, session: SessionReply,
                                  sync: SyncReply, subs: seq<Subscription>, priceId: Option<string>,
                                  customer: Option<CustomerId>, reply: CreateReply)
    requires SubscriptionConfirm(users, me, sessionId, session, sync).1 == Subscribed
    requires sync.sub in subs && sync.sub.customer.Some? && IsLive(sync.sub.status)
    ensures var users' := SubscriptionConfirm(users, me, sessionId, session, sync).0;
      var i := UserWithId(users, me).value;
      CreateSubscriptionCheckout(users'[i], subs, priceId, customer, reply) == ToBillingPortal
  {
    var users' := SubscriptionConfirm(users, me, sessionId, session, sync).0;
    var i := UserWithId(users, me).value;
    var k :| 0 <= k < |subs| && subs[k] == sync.sub;
    assert subs[k].customer == users'[i].customer && IsLive(subs[k].status);
  }

  // ---------------------------------------------------------------------
  // billing_portal
  // ---------------------------------------------------------------------

  datatype PortalOutcome = PortalToIndex | PortalToManagement | AtPortal(customer: CustomerId, url: string)

  /**
    * `billing_portal`: no customer sends the user back to the plans
    * without a provider call; a failing call sends them to subscription
    * management; otherwise to the portal session for their customer.
    */
  function BillingPortal(user: User, reply: CreateReply): (r: PortalOutcome)
    ensures r == PortalToIndex <==> user.customer.None?
    ensures r == PortalToManagement <==> user.customer.Some? && reply.CreateRaised?
    ensures r.AtPortal? ==> user.customer == Some(r.customer) && reply == Created(r.url)
  {
    match user.customer
    case None => PortalToIndex
    case Some(c) =>
      match reply
      case CreateRaised => PortalToManagement
      case Created(url) => AtPortal(c, url)
  }

  /**
    * A user the subscription checkout sends to the billing portal has a
    * customer, so the portal never sends them back to the plans: they
    * reach the portal for their own customer, or management when the
    * provider call raises.
    */
  lemma CheckoutPortalReachable(user: User, subs: seq<Subscription>, priceId: Option<string>,
                                customer: Option<CustomerId>, reply: CreateReply, portalReply: CreateReply)
    requires CreateSubscriptionCheckout(user, subs, priceId, customer, reply) == ToBillingPortal
    ensures BillingPortal(user, portalReply) != PortalToIndex
    ensures portalReply.Created? ==> BillingPortal(user, portalReply) == AtPortal(user.customer.value, portalReply.url)
  {
  }
}
