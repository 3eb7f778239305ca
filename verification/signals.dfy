/**
  * The webhook handlers that keep the user's cached subscription and
  * customer fields in step with the payment provider. Each handler is a
  * transition of the user table; each catches every exception it could
  * raise, which here means every function is total and an input it
  * cannot use leaves the table unchanged.
  */
module SubscriptionSignals {
  import opened Wrappers
  import opened Seqs
  import opened Billing
  import opened Accounts

  /**
    * The `object` of an event's data: falsy (missing, null or empty), or
    * an object whose `id` is given or not.
    */
  datatype EventObject = NoObject | EventObject(id: Option<string>)

  /** The id an event is about, when its object and the object's id are both present. */
  function EventId(ev: EventObject): (r: Option<string>)
    ensures r.Some? <==> ev.EventObject? && Present(ev.id)
    ensures r.Some? ==> r == ev.id
  {
    if ev.EventObject? && Present(ev.id) then ev.id else None
  }

  /** A synced customer and the user it is linked to by the provider library, if any. */
  datatype Customer = Customer(id: CustomerId, subscriber: Option<UserId>)

  /** `users` and `users'` agree everywhere except possibly at position `i`. */
  predicate OnlyChanged(users: seq<User>, users': seq<User>, i: nat)
  {
    |users'| == |users| && forall j :: 0 <= j < |users| && j != i ==> users'[j] == users[j]
  }

  // ---------------------------------------------------------------------
  // customer.subscription.created / customer.subscription.updated
  // ---------------------------------------------------------------------

  /** The user that `get(customer=c)` finds, if exactly one user is linked to `c`. */
  function UserOfCustomer(users: seq<User>, c: CustomerId): (r: Option<nat>)
    ensures r.Some? ==> r.value < |users| && users[r.value].customer == Some(c)
    ensures r.Some? ==> forall j :: 0 <= j < |users| && j != r.value ==> users[j].customer != Some(c)
  {
    SoleMatch(users, (u: User) => u.customer == Some(c))
  }

  /** The synced subscription with id `id`, if there is exactly one. */
  function FindSubscription(subs: seq<Subscription>, id: SubscriptionId): (r: Option<Subscription>)
    ensures r.Some? ==> r.value in subs && r.value.id == id
  {
    match SoleMatch(subs, (s: Subscription) => s.id == id)
    case None => None
    case Some(k) => Some(subs[k])
  }

  /**
    * `sync_user_subscription`: for a known subscription whose customer is
    * linked to exactly one user, an active or trialing status makes it
    * that user's subscription, and a canceled, incomplete-expired or
    * unpaid status clears the user's subscription if it is this one.
    * Every other case changes nothing.
    */
  function SyncUserSubscription(users: seq<User>, subs: seq<Subscription>, ev: EventObject): (r: seq<User>)
    ensures EventId(ev).None? ==> r == users
    ensures EventId(ev).Some? && FindSubscription(subs, EventId(ev).value).None? ==> r == users
    ensures |r| == |users|
    ensures forall j :: 0 <= j < |users| ==> r[j].id == users[j].id && r[j].customer == users[j].customer
    ensures r != users ==>
      var sub := FindSubscription(subs, EventId(ev).value).value;
      && sub.customer.Some?
      && UserOfCustomer(users, sub.customer.value).Some?
      && var i := UserOfCustomer(users, sub.customer.value).value;
      && OnlyChanged(users, r, i)
      && (IsLive(sub.status) ==> r[i].subscription == Some(sub.id))
      && (IsEnded(sub.status) ==> users[i].subscription == Some(sub.id) && r[i].subscription == None)
      && (IsLive(sub.status) || IsEnded(sub.status))
  {
    match EventId(ev)
    case None => users
    case Some(id) =>
      match FindSubscription(subs, id)
      case None => users
      case Some(sub) =>
        match sub.customer
        case None => users
        case Some(c) =>
          match UserOfCustomer(users, c)
          case None => users
          case Some(i) =>
            if IsLive(sub.status) then users[i := users[i].(subscription := Some(sub.id))]
            else if IsEnded(sub.status) && users[i].subscription == Some(sub.id) then
              users[i := users[i].(subscription := None)]
            else users
  }

  /**
    * For a subscription whose customer is linked to exactly one user, the
    * status decides the outcome: active or trialing always sets it, an
    * ended status clears it only where it is held, anything else is a
    * no-op.
    */
  lemma SyncByStatus(users: seq<User>, subs: seq<Subscription>, ev: EventObject)
    requires EventId(ev).Some? && FindSubscription(subs, EventId(ev).value).Some?
    requires FindSubscription(subs, EventId(ev).value).value.customer.Some?
    ensures var sub := FindSubscription(subs, EventId(ev).value).value;
      var holder := UserOfCustomer(users, sub.customer.value);
      var r := SyncUserSubscription(users, subs, ev);
      && (holder.None? ==> r == users)
      && (holder.Some? && IsLive(sub.status) ==>
            r == users[holder.value := users[holder.value].(subscription := Some(sub.id))])
      && (holder.Some? && IsEnded(sub.status) ==>
            (r == users <==> users[holder.value].subscription != Some(sub.id)))
      && (!IsLive(sub.status) && !IsEnded(sub.status) ==> r == users)
  {
  }

  /** Delivering the same event twice has the effect of delivering it once. */
  lemma SyncIdempotent(users: seq<User>, subs: seq<Subscription>, ev: EventObject)
    ensures SyncUserSubscription(SyncUserSubscription(users, subs, ev), subs, ev) ==
            SyncUserSubscription(users, subs, ev)
  {
    var r := SyncUserSubscription(users, subs, ev);
    if r != users {
      var sub := FindSubscription(subs, EventId(ev).value).value;
      var c := sub.customer.value;
      var i := UserOfCustomer(users, c).value;
      SoleMatchAfterUpdate(users, (u: User) => u.customer == Some(c), i, r[i]);
      assert r == users[i := r[i]];
      assert UserOfCustomer(r, c) == Some(i);
    }
  }

  // ---------------------------------------------------------------------
  // customer.subscription.deleted
  // ---------------------------------------------------------------------

  /** The user that `get(subscription__id=id)` finds, if exactly one user holds `id`. */
  function HolderOf(users: seq<User>, id: SubscriptionId): (r: Option<nat>)
    ensures r.Some? ==> r.value < |users| && users[r.value].subscription == Some(id)
    ensures r.Some? ==> forall j :: 0 <= j < |users| && j != r.value ==> users[j].subscription != Some(id)
    ensures r.None? ==>
      || (forall j :: 0 <= j < |users| ==> users[j].subscription != Some(id))
      || (exists a, b :: 0 <= a < b < |users| && users[a].subscription == Some(id) && users[b].subscription == Some(id))
  {
    SoleMatch(users, (u: User) => u.subscription == Some(id))
  }

  /**
    * `clear_user_subscription`: the single user holding the deleted
    * subscription loses it; with no holder, or several, nothing changes.
    */
  function ClearUserSubscription(users: seq<User>, ev: EventObject): (r: seq<User>)
    ensures EventId(ev).None? ==> r == users
    ensures EventId(ev).Some? && HolderOf(users, EventId(ev).value).None? ==> r == users
    ensures EventId(ev).Some? && HolderOf(users, EventId(ev).value).Some? ==>
      var i := HolderOf(users, EventId(ev).value).value;
      OnlyChanged(users, r, i) && r[i] == users[i].(subscription := None)
  {
    match EventId(ev)
    case None => users
    case Some(id) =>
      match HolderOf(users, id)
      case None => users
      case Some(i) => users[i := users[i].(subscription := None)]
  }

  /** After a deletion event that found the subscription's single holder, no user holds it. */
  lemma ClearLeavesNoHolder(users: seq<User>, ev: EventObject)
    requires EventId(ev).Some? && HolderOf(users, EventId(ev).value).Some?
    ensures forall j :: 0 <= j < |users| ==> ClearUserSubscription(users, ev)[j].subscription != EventId(ev)
  {
  }

  /** Delivering a deletion event twice has the effect of delivering it once. */
  lemma ClearIdempotent(users: seq<User>, ev: EventObject)
    ensures ClearUserSubscription(ClearUserSubscription(users, ev), ev) == ClearUserSubscription(users, ev)
  {
    var r := ClearUserSubscription(users, ev);
    if EventId(ev).Some? && HolderOf(users, EventId(ev).value).Some? {
      ClearLeavesNoHolder(users, ev);
      assert HolderOf(r, EventId(ev).value).None?;
    }
  }

  // ---------------------------------------------------------------------
  // customer.created / customer.updated
  // ---------------------------------------------------------------------

  /** The user with primary key `id`, if there is exactly one. */
  function UserWithId(users: seq<User>, id: UserId): (r: Option<nat>)
    ensures r.Some? ==> r.value < |users| && users[r.value].id == id
  {
    SoleMatch(users, (u: User) => u.id == id)
  }

  function FindCustomer(customers: seq<Customer>, id: CustomerId): (r: Option<Customer>)
    ensures r.Some? ==> r.value in customers && r.value.id == id
  {
    match SoleMatch(customers, (c: Customer) => c.id == id)
    case None => None
    case Some(k) => Some(customers[k])
  }

  /**
    * `link_customer_to_user`: a known customer with a subscriber is
    * linked to that user, written only when the user's customer differs.
    */
  function LinkCustomerToUser(users: seq<User>, customers: seq<Customer>, ev: EventObject): (r: seq<User>)
    ensures EventId(ev).None? ==> r == users
    ensures r != users ==>
      && EventId(ev).Some?
      && FindCustomer(customers, EventId(ev).value).Some?
      && FindCustomer(customers, EventId(ev).value).value.subscriber.Some?
      && UserWithId(users, FindCustomer(customers, EventId(ev).value).value.subscriber.value).Some?
      && var customer := FindCustomer(customers, EventId(ev).value).value;
      var i := UserWithId(users, customer.subscriber.value).value;
      && OnlyChanged(users, r, i)
      && users[i].customer != Some(customer.id)
      && r[i] == users[i].(customer := Some(customer.id))
    ensures forall j :: 0 <= j < |r| ==> r[j].id == users[j].id && r[j].subscription == users[j].subscription
    ensures
      && EventId(ev).Some?
      && FindCustomer(customers, EventId(ev).value).Some?
      && FindCustomer(customers, EventId(ev).value).value.subscriber.Some?
      && UserWithId(users, FindCustomer(customers, EventId(ev).value).value.subscriber.value).Some?
      ==>
      var customer := FindCustomer(customers, EventId(ev).value).value;
      var i := UserWithId(users, customer.subscriber.value).value;
      r == users[i := users[i].(customer := Some(customer.id))]
  {
    match EventId(ev)
    case None => users
    case Some(id) =>
      match FindCustomer(customers, id)
      case None => users
      case Some(customer) =>
        match customer.subscriber
        case None => users
        case Some(uid) =>
          match UserWithId(users, uid)
          case None => users
          case Some(i) =>
            if users[i].customer != Some(customer.id) then users[i := users[i].(customer := Some(customer.id))]
            else
              assert users[i := users[i].(customer := Some(customer.id))] == users;
              users
  }

  /** A second identical customer event is a no-op. */
  lemma LinkIdempotent(users: seq<User>, customers: seq<Customer>, ev: EventObject)
    ensures LinkCustomerToUser(LinkCustomerToUser(users, customers, ev), customers, ev) ==
            LinkCustomerToUser(users, customers, ev)
  {
    var r := LinkCustomerToUser(users, customers, ev);
    if r != users {
      var customer := FindCustomer(customers, EventId(ev).value).value;
      var uid := customer.subscriber.value;
      var i := UserWithId(users, uid).value;
      SoleMatchAfterUpdate(users, (u: User) => u.id == uid, i, r[i]);
      assert r == users[i := r[i]];
      assert UserWithId(r, uid) == Some(i);
    }
  }
}
