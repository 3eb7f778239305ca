/**
  * The user dashboard's projections and small transitions: the sidebar
  * state kept in the session, removing an email address and resending its
  * verification, the product lines of an order, and the subscription
  * pages' flags.
  */
module Dashboard {
  import opened Wrappers
  import opened Seqs
  import opened ShopStore
  import OrderProjections
  import opened Billing
  import opened Accounts
  import opened PricingPlans

  // ---------------------------------------------------------------------
  // Sidebar state (the context processor and the view that stores it)
  // ---------------------------------------------------------------------

  /** A JSON value as the session stores it. */
  datatype Json =
    | JNull
    | JBool(b: bool)
    | JNum(n: int)
    | JStr(s: string)
    | JArr(elems: seq<Json>)
    | JObj(fields: map<string, Json>)

  /** Python's `bool(...)` of a decoded JSON value. */
  predicate Truthy(v: Json)
  {
    match v
    case JNull => false
    case JBool(b) => b
    case JNum(n) => n != 0
    case JStr(s) => s != ""
    case JArr(elems) => elems != []
    case JObj(fields) => fields != map[]
  }

  /** `d.get(key, default)` on a JSON object. */
  function GetOr(fields: map<string, Json>, key: string, default: Json): (v: Json)
    ensures key in fields ==> v == fields[key]
    ensures key !in fields ==> v == default
  {
    if key in fields then fields[key] else default
  }

  const SidebarKey := "user_sidebar_state"

  /**
    * The context the processor injects: nothing for an anonymous request,
    * otherwise the two flags. `.get` on a stored value that is not an
    * object raises, which the model records as a crash.
    */
  datatype SidebarContext = NoContext | Flags(detailsAccount: bool, detailsSubscription: bool) | SidebarCrashed

  /** The flag stored under `details.<key>`, or a crash if `state` or `details` is not an object. */
  function DetailFlag(state: Json, key: string): (r: Option<bool>)
    ensures r.Some? <==> state.JObj? && GetOr(state.fields, "details", JObj(map[])).JObj?
    ensures r.Some? ==>
      var details := GetOr(state.fields, "details", JObj(map[])).fields;
      r.value == (key in details && Truthy(details[key]))
  {
    match state
    case JObj(fields) =>
      (match GetOr(fields, "details", JObj(map[]))
       case JObj(details) => Some(Truthy(GetOr(details, key, JNull)))
       case _ => None)
    case _ => None
  }

  /** `user_sidebar_state`. */
  function SidebarState(authenticated: bool, session: map<string, Json>): (r: SidebarContext)
    ensures !authenticated <==> r == NoContext
    ensures authenticated && SidebarKey !in session ==> r == Flags(false, false)
    ensures r.Flags? ==>
      var state := GetOr(session, SidebarKey, JObj(map[]));
      && DetailFlag(state, "account") == Some(r.detailsAccount)
      && DetailFlag(state, "subscription") == Some(r.detailsSubscription)
    ensures r == SidebarCrashed <==> authenticated && DetailFlag(GetOr(session, SidebarKey, JObj(map[])), "account").None?
  {
    if !authenticated then NoContext
    else
      var state := GetOr(session, SidebarKey, JObj(map[]));
      match DetailFlag(state, "account")
      case None => SidebarCrashed
      case Some(account) =>
        Flags(account, DetailFlag(state, "subscription").value)
  }

  /** `store_user_sidebar_state`: the request's signals replace the stored state. */
  function StoreSidebarState(session: map<string, Json>, signals: Json): (r: map<string, Json>)
    ensures SidebarKey in r && r[SidebarKey] == signals
    ensures forall k :: k in session && k != SidebarKey ==> k in r && r[k] == session[k]
    ensures forall k :: k in r ==> k in session || k == SidebarKey
  {
    session[SidebarKey := signals]
  }

  /** The signals a sidebar sends: `{"details": {"account": a, "subscription": s}}`. */
  function SidebarSignals(account: bool, subscription: bool): Json
  {
    JObj(map["details" := JObj(map["account" := JBool(account), "subscription" := JBool(subscription)])])
  }

  /** What the sidebar stores is what every later page renders. */
  lemma SidebarRoundTrip(session: map<string, Json>, account: bool, subscription: bool)
    ensures SidebarState(true, StoreSidebarState(session, SidebarSignals(account, subscription))) ==
            Flags(account, subscription)
  {
    var details := map["account" := JBool(account), "subscription" := JBool(subscription)];
    assert "account" in details && details["account"] == JBool(account);
    assert "subscription" in details && details["subscription"] == JBool(subscription);
  }

  // ---------------------------------------------------------------------
  // Email addresses: remove and resend verification
  // ---------------------------------------------------------------------

  datatype EmailAddress = EmailAddress(id: int, owner: UserId, email: string, primary: bool, verified: bool)

  /**
    * The posted `email_id`: absent (a `pk=None` lookup, which matches no
    * row), an integer, or a value the integer primary key rejects.
    */
  datatype EmailIdField = IdAbsent | IdGiven(n: int) | IdMalformed

  /** The row `EmailAddress.objects.get(pk=email_id, user=user)` looks for. */
  predicate IsOwnedEmail(e: EmailAddress, user: UserId, n: int)
  {
    e.id == n && e.owner == user
  }

  /** The result of that `get`: no row, one row, or several (which raises uncaught). */
  datatype EmailLookup = NoSuchEmail | EmailAt(i: nat) | SeveralEmails

  function LookupEmail(emails: seq<EmailAddress>, user: UserId, field: EmailIdField): (r: EmailLookup)
    requires !field.IdMalformed?
    ensures r.EmailAt? ==>
      && field.IdGiven? && r.i < |emails| && IsOwnedEmail(emails[r.i], user, field.n)
      && forall j :: 0 <= j < |emails| && j != r.i ==> !IsOwnedEmail(emails[j], user, field.n)
    ensures r == NoSuchEmail <==>
      field.IdAbsent? || forall j :: 0 <= j < |emails| ==> !IsOwnedEmail(emails[j], user, field.n)
    ensures r == SeveralEmails ==>
      exists a, b :: 0 <= a < b < |emails| && IsOwnedEmail(emails[a], user, field.n) && IsOwnedEmail(emails[b], user, field.n)
  {
    match field
    case IdAbsent => NoSuchEmail
    case IdGiven(n) =>
      var owned := (e: EmailAddress) => IsOwnedEmail(e, user, n);
      match SoleMatch(emails, owned)
      case Some(i) => EmailAt(i)
      case None =>
        if forall j :: 0 <= j < |emails| ==> !IsOwnedEmail(emails[j], user, n) then NoSuchEmail else SeveralEmails
  }

  datatype RemoveOutcome = PrimaryKept | Removed(email: string) | RemoveNotFound | RemoveCrashed

  /** `emails` without position `i`. */
  function Delete(emails: seq<EmailAddress>, i: nat): (r: seq<EmailAddress>)
    requires i < |emails|
    ensures |r| == |emails| - 1
    ensures multiset(r) + multiset{emails[i]} == multiset(emails)
    ensures forall j :: 0 <= j < i ==> r[j] == emails[j]
    ensures forall j :: i <= j < |r| ==> r[j] == emails[j + 1]
  {
    assert emails == emails[..i] + [emails[i]] + emails[i + 1..];
    emails[..i] + emails[i + 1..]
  }

  /**
    * `account_email_remove`: the user's own non-primary address with the
    * posted id is deleted; a primary one is kept, and an id that matches
    * none of the user's addresses deletes nothing.
    */
  function RemoveEmail(emails: seq<EmailAddress>, user: UserId, field: EmailIdField)
    : (r: (seq<EmailAddress>, RemoveOutcome))
    ensures !r.1.Removed? ==> r.0 == emails
    ensures r.1 == RemoveCrashed <==> field.IdMalformed? || LookupEmail(emails, user, field) == SeveralEmails
    ensures r.1 == RemoveNotFound <==> !field.IdMalformed? && LookupEmail(emails, user, field) == NoSuchEmail
    ensures r.1 == PrimaryKept <==>
      !field.IdMalformed? && LookupEmail(emails, user, field).EmailAt? && emails[LookupEmail(emails, user, field).i].primary
    ensures r.1.Removed? ==>
      && !field.IdMalformed? && LookupEmail(emails, user, field).EmailAt?
      && var i := LookupEmail(emails, user, field).i;
         && !emails[i].primary && r.1.email == emails[i].email
         && r.0 == Delete(emails, i)
    ensures forall j :: 0 <= j < |emails| && emails[j].primary ==> emails[j] in r.0
    ensures forall j :: 0 <= j < |emails| && emails[j].owner != user ==> emails[j] in r.0
  {
    if field.IdMalformed? then (emails, RemoveCrashed)
    else match LookupEmail(emails, user, field)
      case NoSuchEmail => (emails, RemoveNotFound)
      case SeveralEmails => (emails, RemoveCrashed)
      case EmailAt(i) =>
        if emails[i].primary then (emails, PrimaryKept)
        else
          var r := Delete(emails, i);
          assert forall j :: 0 <= j < |emails| && j != i ==> emails[j] in r by {
            forall j | 0 <= j < |emails| && j != i ensures emails[j] in r {
              if j < i { assert r[j] == emails[j]; } else { assert r[j - 1] == emails[j]; }
            }
          }
          (r, Removed(emails[i].email))
  }

  /** Primary keys are unique. */
  predicate UniqueEmailIds(emails: seq<EmailAddress>)
  {
    forall a, b :: 0 <= a < b < |emails| ==> emails[a].id != emails[b].id
  }

  /** Removing the same address twice: the second request finds nothing and deletes nothing. */
  lemma RemoveTwice(emails: seq<EmailAddress>, user: UserId, field: EmailIdField)
    requires UniqueEmailIds(emails)
    requires RemoveEmail(emails, user, field).1.Removed?
    ensures var once := RemoveEmail(emails, user, field).0;
      RemoveEmail(once, user, field) == (once, RemoveNotFound)
  {
    var once := RemoveEmail(emails, user, field).0;
    var i := LookupEmail(emails, user, field).i;
    forall j | 0 <= j < |once| ensures !IsOwnedEmail(once[j], user, field.n) {
      if j < i {
        assert once[j] == emails[j];
      } else {
        assert once[j] == emails[j + 1];
      }
    }
  }

  datatype ResendOutcome = AlreadyVerified | ConfirmationSent(email: string) | ResendNotFound | ResendCrashed

  /**
    * `account_email_resend_verification`: a confirmation goes to the
    * user's own unverified address with the posted id, and to no other.
    */
  function ResendVerification(emails: seq<EmailAddress>, user: UserId, field: EmailIdField): (r: ResendOutcome)
    ensures r == ResendCrashed <==> field.IdMalformed? || LookupEmail(emails, user, field) == SeveralEmails
    ensures r == ResendNotFound <==> !field.IdMalformed? && LookupEmail(emails, user, field) == NoSuchEmail
    ensures r == AlreadyVerified <==>
      !field.IdMalformed? && LookupEmail(emails, user, field).EmailAt? && emails[LookupEmail(emails, user, field).i].verified
    ensures r.ConfirmationSent? ==>
      exists i :: 0 <= i < |emails| && IsOwnedEmail(emails[i], user, field.n) && !emails[i].verified &&
                  r.email == emails[i].email
  {
    if field.IdMalformed? then ResendCrashed
    else match LookupEmail(emails, user, field)
      case NoSuchEmail => ResendNotFound
      case SeveralEmails => ResendCrashed
      case EmailAt(i) => if emails[i].verified then AlreadyVerified else ConfirmationSent(emails[i].email)
  }

  /**
    * Both views look the address up the same way: one finds nothing, or
    * crashes, exactly when the other does, and a removal and a resend
    * concern the same address.
    */
  lemma RemoveAndResendAgree(emails: seq<EmailAddress>, user: UserId, field: EmailIdField)
    ensures RemoveEmail(emails, user, field).1 == RemoveNotFound <==> ResendVerification(emails, user, field) == ResendNotFound
    ensures RemoveEmail(emails, user, field).1 == RemoveCrashed <==> ResendVerification(emails, user, field) == ResendCrashed
    ensures RemoveEmail(emails, user, field).1.Removed? && ResendVerification(emails, user, field).ConfirmationSent? ==>
      RemoveEmail(emails, user, field).1.email == ResendVerification(emails, user, field).email
  {
  }

  // ---------------------------------------------------------------------
  // order_detail
  // ---------------------------------------------------------------------

  /** One row of the order page: the basket item, its shop metadata and its quantity. */
  datatype ProductLine<M> = ProductLine(item: Item, shopProduct: M, quantity: int)

  function ProductLines<M>(items: seq<Item>, shopMetadata: ProductId -> M): (r: seq<ProductLine<M>>)
    ensures |r| == |items|
    ensures forall i :: 0 <= i < |items| ==>
      r[i] == ProductLine(items[i], shopMetadata(items[i].product), items[i].quantity)
  {
    if items == [] then []
    else [ProductLine(items[0], shopMetadata(items[0].product), items[0].quantity)] + ProductLines(items[1..], shopMetadata)
  }

  /**
    * `order_detail`: `None` (the 404) unless exactly one order has the id
    * and belongs to the user; otherwise one line per item of the order's
    * basket in item order, none without a basket. `shopMetadata` is the
    * product's shop metadata lookup.
    */
  function OrderDetail<M>(s: Store, user: UserId, orderId: Id, shopMetadata: ProductId -> M)
    : (r: Option<seq<ProductLine<M>>>)
    ensures r.Some? ==> exists k :: 0 <= k < |s.orders| && s.orders[k].id == orderId && s.orders[k].user == user
    ensures Valid(s) ==>
      (r.None? <==> forall k :: 0 <= k < |s.orders| ==> !(s.orders[k].id == orderId && s.orders[k].user == user))
    ensures r.Some? ==>
      exists k :: 0 <= k < |s.orders| && s.orders[k].id == orderId && s.orders[k].user == user &&
        match s.orders[k].basket
        case None => r.value == []
        case Some(b) =>
          |r.value| == |ItemsOf(s.items, b)| &&
          forall i :: 0 <= i < |r.value| ==>
            r.value[i].item == ItemsOf(s.items, b)[i] && r.value[i].quantity == ItemsOf(s.items, b)[i].quantity
  {
    match SoleMatch(s.orders, (o: Order) => o.id == orderId && o.user == user)
    case None =>
      assert Valid(s) ==> forall k :: 0 <= k < |s.orders| ==> !(s.orders[k].id == orderId && s.orders[k].user == user);
      None
    case Some(k) =>
      match s.orders[k].basket
      case None => Some([])
      case Some(b) => Some(ProductLines(ItemsOf(s.items, b), shopMetadata))
  }

  /** The order page lists exactly the order's `products`, line by line. */
  lemma OrderDetailListsProducts<M>(s: Store, user: UserId, orderId: Id, shopMetadata: ProductId -> M, k: nat)
    requires Valid(s) && k < |s.orders| && s.orders[k].id == orderId && s.orders[k].user == user
    ensures OrderDetail(s, user, orderId, shopMetadata).Some?
    ensures var lines := OrderDetail(s, user, orderId, shopMetadata).value;
      var products := OrderProjections.Products(s.orders[k], s);
      |lines| == |products| && forall i :: 0 <= i < |lines| ==> lines[i].item.product == products[i]
  {
    var r := OrderDetail(s, user, orderId, shopMetadata);
    var k' :| 0 <= k' < |s.orders| && s.orders[k'].id == orderId && s.orders[k'].user == user &&
      match s.orders[k'].basket
      case None => r.value == []
      case Some(b) =>
        |r.value| == |ItemsOf(s.items, b)| &&
        forall i :: 0 <= i < |r.value| ==>
          r.value[i].item == ItemsOf(s.items, b)[i] && r.value[i].quantity == ItemsOf(s.items, b)[i].quantity;
    assert k' == k;
  }

  // ---------------------------------------------------------------------
  // subscription_management and subscription_plans
  // ---------------------------------------------------------------------

  /**
    * The management page's flags, or a crash when the active subscription
    * has no product (`.product.name` on `None`).
    */
  datatype ManagementPage =
    | Management(hasSubscription: bool, subscription: Option<Subscription>, planName: string)
    | ManagementCrashed

  /**
    * `subscription_management`; `nameOf` is the product's name. Without an
    * active subscription the view puts `""` in the `subscription` slot; the
    * model writes `None`, which the template treats the same way, since
    * both are falsy.
    */
  function SubscriptionManagement(user: User, subs: seq<Subscription>, nameOf: ProductId -> string): (r: ManagementPage)
    ensures r == ManagementCrashed <==>
      ActiveSubscription(user, subs).Some? && SubscriptionProduct(ActiveSubscription(user, subs).value).None?
    ensures r.Management? ==>
      && (r.hasSubscription <==> ActiveSubscription(user, subs).Some?)
      && r.subscription == ActiveSubscription(user, subs)
      && (!r.hasSubscription ==> r.planName == "")
      && (r.hasSubscription ==> r.planName == nameOf(SubscriptionProduct(r.subscription.value).value))
  {
    match ActiveSubscription(user, subs)
    case None => Management(false, None, "")
    case Some(sub) =>
      match SubscriptionProduct(sub)
      case None => ManagementCrashed
      case Some(p) => Management(true, Some(sub), nameOf(p))
  }

  /**
    * The management page names the plan of the same product the
    * subscriptions page marks as the user's current one.
    */
  lemma ManagementMatchesPlans(user: User, subs: seq<Subscription>, nameOf: ProductId -> string)
    requires SubscriptionManagement(user, subs, nameOf).Management?
    ensures var page := SubscriptionManagement(user, subs, nameOf);
      var context := IntendedSelectorContext(SignedIn(user), subs);
      && (page.hasSubscription <==> context.subscription.Some?)
      && (page.hasSubscription ==> context.productId.Some? && page.planName == nameOf(context.productId.value))
  {
    ContextsAgree(SignedIn(user), subs);
  }

  /**
    * `subscription_plans`: the dashboard's copy of the plan selection and
    * the user's subscription context; it renders what the subscriptions
    * page renders for the same signed-in user.
    */
  function SubscriptionPlans(products: seq<Product>, user: User, subs: seq<Subscription>): (r: PlansPage)
    ensures r == SubscriptionsIndex(products, SignedIn(user), subs)
    ensures r.context.subscription == ActiveSubscription(user, subs)
  {
    ContextsAgree(SignedIn(user), subs);
    var sub := ActiveSubscription(user, subs);
    PlansPage(GetPricingPlans(products), SubscriptionContext(sub, ProductIdOf(sub)))
  }
}
