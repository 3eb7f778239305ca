/**
  * The shop's state-changing views as store transitions: adding to,
  * updating and removing from the basket, starting a checkout, and
  * confirming an order on return from the payment provider.
  *
  * Each view is a function from the store (and the provider's replies) to
  * the new store and an outcome naming the branch taken. Every exception
  * the views catch becomes an outcome with the store as it was when the
  * exception was raised; there is no enclosing transaction.
  */
module ShopViews {
  import opened Wrappers
  import opened ShopStore
  import opened Gateway

  /** The `quantity` form field: absent, an integer, or text `int()` rejects. */
  datatype QuantityField = QuantityAbsent | QuantityGiven(n: int) | QuantityMalformed

  /** `int(request.POST.get("quantity", 1))`; `None` is the uncaught `ValueError`. */
  function ParseQuantity(f: QuantityField): (q: Option<int>)
    ensures f.QuantityAbsent? ==> q == Some(1)
    ensures f.QuantityGiven? ==> q == Some(f.n)
    ensures f.QuantityMalformed? <==> q.None?
  {
    match f
    case QuantityAbsent => Some(1)
    case QuantityGiven(n) => Some(n)
    case QuantityMalformed => None
  }

  // ---------------------------------------------------------------------
  // add_to_basket
  // ---------------------------------------------------------------------

  datatype AddOutcome =
    | AddCrashed            // int() raised before any check: an error response, nothing written
    | AddMissingField       // price_id or stripe_product_id missing or empty
    | AddFailed             // an exception caught by the view's broad handler
    | AddProductNotFound    // no synced product with that id
    | AddedNew(item: Id)    // a new basket row with the requested quantity
    | AddedMore(item: Id)   // an existing row's quantity increased

  datatype AddResult = AddResult(store: Store, outcome: AddOutcome)

  /** The store with a fresh active basket for `user` created in front. */
  function NewBasket(s: Store, user: UserId): (r: Store)
    ensures r.baskets == [Basket(s.nextId, user, false)] + s.baskets
    ensures r.items == s.items && r.orders == s.orders && r.nextId == s.nextId + 1
  {
    s.(baskets := [Basket(s.nextId, user, false)] + s.baskets, nextId := s.nextId + 1)
  }

  /** The basket `add_to_basket` puts the product into: the active one, else a new one. */
  function AddTarget(s: Store, user: UserId): Id
  {
    var active := ActiveBaskets(s.baskets, user);
    if |active| == 1 then active[0].id else s.nextId
  }

  /**
    * `Basket.objects.get_or_create(user=user, checked_out=False)` when at
    * most one such basket exists: the store with `user`'s active basket,
    * which is `AddTarget(s, user)`.
    */
  function OpenBasket(s: Store, user: UserId): (r: Store)
    requires |ActiveBaskets(s.baskets, user)| <= 1
    ensures r.items == s.items && r.orders == s.orders
    ensures r == s || r == NewBasket(s, user)
    ensures ActiveBaskets(r.baskets, user) == [Basket(AddTarget(s, user), user, false)]
    ensures HasBasket(r.baskets, AddTarget(s, user))
  {
    var active := ActiveBaskets(s.baskets, user);
    if |active| == 1 then
      assert active[0] in s.baskets;
      s
    else
      var r := NewBasket(s, user);
      NoActiveBaskets(s.baskets, user);
      assert r.baskets[1..] == s.baskets;
      assert r.baskets[0].id == AddTarget(s, user);
      r
  }

  /**
    * The product's row in basket `b`: created with quantity `q` when the
    * basket does not hold the product, otherwise increased by `q`.
    */
  function PutProduct(s: Store, b: Id, p: ProductId, q: int): (r: AddResult)
    ensures r.store.baskets == s.baskets && r.store.orders == s.orders
    ensures r.outcome.AddedNew? <==> FindItem(s.items, b, p).None?
    ensures r.outcome.AddedMore? <==> FindItem(s.items, b, p).Some?
  {
    match FindItem(s.items, b, p)
    case Some(i) =>
      var item := s.items[i];
      AddResult(s.(items := s.items[i := item.(quantity := item.quantity + q)]), AddedMore(item.id))
    case None =>
      AddResult(s.(items := [Item(s.nextId, b, p, q)] + s.items, nextId := s.nextId + 1), AddedNew(s.nextId))
  }

  /**
    * `add_to_basket`. The quantity is parsed first, with no lower bound;
    * the two ids must be present; the active basket is fetched or created
    * BEFORE the product is looked up, so an unknown product can leave a new
    * empty basket behind; then the product's row in that basket is created
    * with the requested quantity or has its quantity increased by it.
    * `price_id` is only checked for presence.
    */
  function AddToBasket(s: Store, catalog: Catalog, user: UserId,
                       priceId: Option<string>, productId: Option<string>, quantity: QuantityField)
    : (r: AddResult)
    ensures quantity.QuantityMalformed? ==> r == AddResult(s, AddCrashed)
    ensures !quantity.QuantityMalformed? && (!Present(priceId) || !Present(productId)) ==>
      r == AddResult(s, AddMissingField)
    ensures r.outcome.AddFailed? <==>
      !quantity.QuantityMalformed? && Present(priceId) && Present(productId) && |ActiveBaskets(s.baskets, user)| > 1
    ensures r.outcome.AddFailed? ==> r.store == s
    ensures r.store.orders == s.orders
    ensures !quantity.QuantityMalformed? && Present(priceId) && Present(productId) &&
            |ActiveBaskets(s.baskets, user)| <= 1 ==>
      && (productId.value in catalog <==> r.outcome.AddedNew? || r.outcome.AddedMore?)
      && (productId.value !in catalog <==> r.outcome.AddProductNotFound?)
    ensures r.outcome.AddProductNotFound? ==>
      && r.store.items == s.items
      && |ActiveBaskets(s.baskets, user)| <= 1
      && r.store == OpenBasket(s, user)
      && (r.store == NewBasket(s, user) <==> ActiveBaskets(s.baskets, user) == [])
    ensures r.outcome.AddedNew? || r.outcome.AddedMore? ==>
      && Present(productId) && productId.value in catalog
      && |ActiveBaskets(s.baskets, user)| <= 1
      && ActiveBaskets(r.store.baskets, user) == [Basket(AddTarget(s, user), user, false)]
      && r == PutProduct(OpenBasket(s, user), AddTarget(s, user), productId.value, ParseQuantity(quantity).value)
  {
    match ParseQuantity(quantity)
    case None => AddResult(s, AddCrashed)
    case Some(q) =>
      if !Present(priceId) || !Present(productId) then AddResult(s, AddMissingField)
      else if |ActiveBaskets(s.baskets, user)| > 1 then AddResult(s, AddFailed)
      else
        var s1 := OpenBasket(s, user);
        if productId.value !in catalog then AddResult(s1, AddProductNotFound)
        else PutProduct(s1, AddTarget(s, user), productId.value, q)
  }

  // ---------------------------------------------------------------------
  // update_basket_item / remove_basket_item
  // ---------------------------------------------------------------------

  /**
    * The position of item `itemId` if it lies in a basket of `user` that is
    * not checked out: the scoped `get_object_or_404`.
    */
  function OwnedOpenItem(s: Store, user: UserId, itemId: Id): (r: Option<nat>)
    ensures r.Some? ==> r.value < |s.items| && s.items[r.value].id == itemId
    ensures r.Some? ==> (exists k :: 0 <= k < |s.baskets| && s.baskets[k].id == s.items[r.value].basket &&
                                     IsActiveFor(s.baskets[k], user))
    ensures r.None? <==>
      forall i :: 0 <= i < |s.items| ==> !(s.items[i].id == itemId && InOpenBasketOf(s.baskets, s.items[i], user))
  {
    ScopedItem(s.items, s.baskets, user, itemId)
  }

  function ScopedItem(items: seq<Item>, baskets: seq<Basket>, user: UserId, itemId: Id): (r: Option<nat>)
    ensures r.Some? ==> r.value < |items| && items[r.value].id == itemId
    ensures r.Some? ==> InOpenBasketOf(baskets, items[r.value], user)
    ensures r.Some? ==> (exists k :: 0 <= k < |baskets| && baskets[k].id == items[r.value].basket &&
                                     IsActiveFor(baskets[k], user))
    ensures r.None? <==>
      forall i :: 0 <= i < |items| ==> !(items[i].id == itemId && InOpenBasketOf(baskets, items[i], user))
  {
    if items == [] then None
    else if items[0].id == itemId && InOpenBasketOf(baskets, items[0], user) then Some(0)
    else match ScopedItem(items[1..], baskets, user, itemId)
      case None => None
      case Some(k) => Some(k + 1)
  }

  predicate InOpenBasketOf(baskets: seq<Basket>, item: Item, user: UserId)
  {
    match BasketIndex(baskets, item.basket)
    case None => false
    case Some(k) => IsActiveFor(baskets[k], user)
  }

  datatype UpdateOutcome = UpdateCrashed | QuantityTooLow | UpdateNotFound | Updated(item: Id)

  /**
    * `update_basket_item`: a quantity below 1 is rejected before any
    * lookup; otherwise the caller's own item in an open basket gets exactly
    * the given quantity, and any other id is reported as not found.
    */
  function UpdateBasketItem(s: Store, user: UserId, itemId: Id, quantity: QuantityField)
    : (r: (Store, UpdateOutcome))
    ensures quantity.QuantityMalformed? ==> r == (s, UpdateCrashed)
    ensures ParseQuantity(quantity).Some? && ParseQuantity(quantity).value < 1 ==> r == (s, QuantityTooLow)
    ensures OwnedOpenItem(s, user, itemId).None? ==> r.0 == s
    ensures r.1 == UpdateCrashed <==> quantity.QuantityMalformed?
    ensures r.1 == QuantityTooLow <==> ParseQuantity(quantity).Some? && ParseQuantity(quantity).value < 1
    ensures r.1 == UpdateNotFound <==>
      (ParseQuantity(quantity).Some? && ParseQuantity(quantity).value >= 1 && OwnedOpenItem(s, user, itemId).None?)
    ensures r.1.Updated? <==>
      (ParseQuantity(quantity).Some? && ParseQuantity(quantity).value >= 1 && OwnedOpenItem(s, user, itemId).Some?)
    ensures r.1.Updated? ==>
      var i := OwnedOpenItem(s, user, itemId).value;
      && r.0 == s.(items := s.items[i := s.items[i].(quantity := ParseQuantity(quantity).value)])
      && r.1.item == itemId
  {
    match ParseQuantity(quantity)
    case None => (s, UpdateCrashed)
    case Some(q) =>
      if q < 1 then (s, QuantityTooLow)
      else match OwnedOpenItem(s, user, itemId)
        case None => (s, UpdateNotFound)
        case Some(i) => (s.(items := s.items[i := s.items[i].(quantity := q)]), Updated(itemId))
  }

  datatype RemoveOutcome = RemoveNotFound | Removed(item: Id)

  /** `remove_basket_item`: deletes the caller's own item in an open basket, and nothing else. */
  function RemoveBasketItem(s: Store, user: UserId, itemId: Id): (r: (Store, RemoveOutcome))
    ensures OwnedOpenItem(s, user, itemId).None? <==> r == (s, RemoveNotFound)
    ensures r.1.Removed? ==>
      && r.1.item == itemId
      && r.0 == s.(items := Without(s.items, OwnedOpenItem(s, user, itemId).value))
  {
    match OwnedOpenItem(s, user, itemId)
    case None => (s, RemoveNotFound)
    case Some(i) => (s.(items := Without(s.items, i)), Removed(itemId))
  }

  // ---------------------------------------------------------------------
  // create_checkout_session
  // ---------------------------------------------------------------------

  /** The line items sent to the provider: one per priced item, in basket order, unmerged. */
  function CheckoutLineItems(catalog: Catalog, items: seq<Item>): (r: seq<LineItem>)
    ensures |r| <= |items|
    ensures r == [] <==> forall j :: 0 <= j < |items| ==> DefaultPrice(catalog, items[j]).None?
  {
    if items == [] then []
    else
      (match DefaultPrice(catalog, items[0])
       case None => []
       case Some(price) => [LineItem(price.id, items[0].quantity)])
      + CheckoutLineItems(catalog, items[1..])
  }

  datatype CheckoutOutcome =
    | NoActiveBasket
    | BasketEmpty
    | NoValidItems
    | CheckoutFailed
    | RedirectToGateway(request: SessionRequest, url: string)

  /**
    * `create_checkout_session` for the shop. `customer` is the provider's
    * customer id for the user, `None` when looking it up raised; `reply` is
    * the provider's answer to the creation call. The store never changes.
    */
  function CreateCheckoutSession(s: Store, catalog: Catalog, user: UserId,
                                 customer: Option<string>, reply: CreateReply)
    : (r: CheckoutOutcome)
    ensures |ActiveBaskets(s.baskets, user)| == 0 <==> r == NoActiveBasket
    ensures var active := ActiveBaskets(s.baskets, user);
      var items := if |active| == 1 then ItemsOf(s.items, active[0].id) else [];
      && (r == BasketEmpty <==> |active| == 1 && IsEmpty(items))
      && (r == NoValidItems <==>
            |active| == 1 && !IsEmpty(items) && customer.Some? && CheckoutLineItems(catalog, items) == [])
      && (r == CheckoutFailed <==>
            || |active| > 1
            || (|active| == 1 && !IsEmpty(items) &&
                (customer.None? || (CheckoutLineItems(catalog, items) != [] && reply.CreateRaised?))))
      && (r.RedirectToGateway? <==>
            |active| == 1 && !IsEmpty(items) && customer.Some? && CheckoutLineItems(catalog, items) != [] &&
            reply.Created?)
    ensures r.RedirectToGateway? ==>
      var basket := ActiveBaskets(s.baskets, user)[0];
      && |ActiveBaskets(s.baskets, user)| == 1
      && !IsEmpty(ItemsOf(s.items, basket.id))
      && r.request.customer == customer.value
      && r.request.lineItems == CheckoutLineItems(catalog, ItemsOf(s.items, basket.id))
      && r.request.lineItems != []
      && r.request.mode == Payment
      && r.request.clientReferenceId == user
      && r.request.metadata == BasketMetadata(basket.id, user)
      && reply == Created(r.url)
  {
    var active := ActiveBaskets(s.baskets, user);
    if |active| == 0 then NoActiveBasket
    else if |active| > 1 then CheckoutFailed
    else
      var basket := active[0];
      var items := ItemsOf(s.items, basket.id);
      if IsEmpty(items) then BasketEmpty
      else match customer
        case None => CheckoutFailed
        case Some(cid) =>
          var lineItems := CheckoutLineItems(catalog, items);
          if lineItems == [] then NoValidItems
          else match reply
            case CreateRaised => CheckoutFailed
            case Created(url) =>
              RedirectToGateway(SessionRequest(cid, lineItems, Payment, user, BasketMetadata(basket.id, user)), url)
  }

  // ---------------------------------------------------------------------
  // order_confirm
  // ---------------------------------------------------------------------

  /** The `basket_id` entry of the session metadata. */
  datatype BasketRef = NoBasketRef | BasketRefTo(id: Id) | BasketRefMalformed

  /** The fields of a retrieved checkout session that the confirmation reads. */
  datatype PaidSession = PaidSession(id: SessionId, clientReferenceId: Option<string>, basketRef: BasketRef)

  /** The provider's answer to a retrieval (and the local sync that follows it). */
  datatype RetrieveReply = Retrieved(session: PaidSession) | RetrieveRaised

  datatype ConfirmOutcome = InvalidConfirmation | ConfirmFailed | Confirmed(order: Order, created: bool)

  /** The basket the metadata names, looked up among `user`'s baskets (checked out or not). */
  function ReferencedBasket(s: Store, user: UserId, ref: BasketRef): (r: Option<nat>)
    ensures r.Some? ==>
      (r.value < |s.baskets| && ref.BasketRefTo? && s.baskets[r.value].id == ref.id && s.baskets[r.value].owner == user)
  {
    match ref
    case BasketRefTo(id) =>
      (match BasketIndex(s.baskets, id)
       case Some(k) => if s.baskets[k].owner == user then Some(k) else None
       case None => None)
    case _ => None
  }

  /**
    * `order_confirm`: the session id must be present and the session's
    * client reference must be the caller; then the order is fetched or
    * created keyed ONLY by the session (an existing order keeps its user
    * and basket), and the caller's referenced basket is marked checked out
    * whether or not the order was new.
    */
  function OrderConfirm(s: Store, user: UserId, sessionId: Option<string>, reply: RetrieveReply)
    : (r: (Store, ConfirmOutcome))
    ensures !Present(sessionId) ==> r == (s, InvalidConfirmation)
    ensures Present(sessionId) && reply.Retrieved? && reply.session.clientReferenceId != Some(user) ==>
      r == (s, InvalidConfirmation)
    ensures Present(sessionId) && reply.Retrieved? && reply.session.clientReferenceId == Some(user) ==>
      (r.1.Confirmed? <==> !reply.session.basketRef.BasketRefMalformed?)
    ensures r.1 == ConfirmFailed <==>
      Present(sessionId) &&
      (reply.RetrieveRaised? ||
       (reply.session.clientReferenceId == Some(user) && reply.session.basketRef.BasketRefMalformed?))
    ensures !r.1.Confirmed? ==> r.0 == s
    ensures r.0.items == s.items && |r.0.baskets| == |s.baskets|
    ensures r.1.Confirmed? && r.1.created ==>
      r.1.order.user == user &&
      r.1.order.basket ==
        (if ReferencedBasket(s, user, reply.session.basketRef).Some?
         then Some(reply.session.basketRef.id) else None)
  {
    if !Present(sessionId) then (s, InvalidConfirmation)
    else match reply
      case RetrieveRaised => (s, ConfirmFailed)
      case Retrieved(session) =>
        if session.clientReferenceId != Some(user) then (s, InvalidConfirmation)
        else if session.basketRef.BasketRefMalformed? then (s, ConfirmFailed)
        else
          var found := ReferencedBasket(s, user, session.basketRef);
          var basketId := if found.Some? then Some(s.baskets[found.value].id) else None;
          var (s1, order, created) :=
            match FindOrder(s.orders, session.id)
            case Some(k) => (s, s.orders[k], false)
            case None =>
              var o := Order(s.nextId, user, session.id, basketId);
              (s.(orders := [o] + s.orders, nextId := s.nextId + 1), o, true);
          var s2 :=
            if found.Some? && !s1.baskets[found.value].checkedOut
            then s1.(baskets := s1.baskets[found.value := s1.baskets[found.value].(checkedOut := true)])
            else s1;
          (s2, Confirmed(order, created))
  }

  // ---------------------------------------------------------------------
  // Properties of add_to_basket
  // ---------------------------------------------------------------------

  /** Changing a row without changing its (basket, product) pair leaves every lookup where it was. */
  lemma {:induction false} FindAfterReplace(items: seq<Item>, i: nat, x: Item, b: Id, p: ProductId)
    requires i < |items| && x.basket == items[i].basket && x.product == items[i].product
    ensures FindItem(items[i := x], b, p) == FindItem(items, b, p)
  {
    assert items[i := x][1..] == if i == 0 then items[1..] else items[1..][i - 1 := x];
    if i > 0 {
      FindAfterReplace(items[1..], i - 1, x, b, p);
    }
  }

  /**
    * `after` holds exactly `q` more of product `p` in basket `b` than
    * `before`: the product's row holds the old quantity (0 when there was
    * no row) plus `q`, the basket's total is `q` higher, and no other
    * basket's items differ.
    */
  ghost predicate AddedExactly(before: seq<Item>, after: seq<Item>, b: Id, p: ProductId, q: int)
  {
    && QuantityOf(after, b, p) == Some(QuantityOf(before, b, p).GetOr(0) + q)
    && TotalItems(ItemsOf(after, b)) == TotalItems(ItemsOf(before, b)) + q
    && (forall c :: c != b ==> ItemsOf(after, c) == ItemsOf(before, c))
  }

  /** Putting a product into basket `b` adds exactly `q` of it there and nothing elsewhere. */
  lemma PutProductEffect(s: Store, b: Id, p: ProductId, q: int)
    ensures AddedExactly(s.items, PutProduct(s, b, p, q).store.items, b, p, q)
  {
    var r := PutProduct(s, b, p, q);
    match FindItem(s.items, b, p)
    case Some(i) =>
      var x := s.items[i].(quantity := s.items[i].quantity + q);
      assert r.store.items == s.items[i := x];
      FindAfterReplace(s.items, i, x, b, p);
      forall c ensures TotalItems(ItemsOf(r.store.items, c)) ==
        TotalItems(ItemsOf(s.items, c)) + (if c == b then q else 0)
        && (c != b ==> ItemsOf(r.store.items, c) == ItemsOf(s.items, c))
      {
        TotalAfterReplace(s.items, i, x, c);
      }
    case None =>
      var x := Item(s.nextId, b, p, q);
      assert r.store.items == [x] + s.items;
      forall c ensures TotalItems(ItemsOf(r.store.items, c)) ==
        TotalItems(ItemsOf(s.items, c)) + (if c == b then q else 0)
        && (c != b ==> ItemsOf(r.store.items, c) == ItemsOf(s.items, c))
      {
        TotalAfterInsert(s.items, x, c);
      }
  }

  /** Putting a product into an existing basket keeps the store valid. */
  lemma PutProductValid(s: Store, b: Id, p: ProductId, q: int)
    requires Valid(s) && HasBasket(s.baskets, b)
    ensures Valid(PutProduct(s, b, p, q).store)
  {
    match FindItem(s.items, b, p)
    case Some(i) =>
      ReplaceItemValid(s, i, s.items[i].(quantity := s.items[i].quantity + q));
    case None =>
      InsertItemValid(s, Item(s.nextId, b, p, q));
  }

  /**
    * A successful add puts exactly `quantity` more of the product into the
    * user's active basket: its row holds the old quantity (0 when there was
    * no row) plus `quantity`, the basket's total rises by `quantity`, and
    * no other basket's items change. A new row is created exactly when the
    * basket did not hold the product.
    */
  lemma AddEffect(s: Store, catalog: Catalog, user: UserId,
                  priceId: Option<string>, productId: Option<string>, quantity: QuantityField)
    requires AddToBasket(s, catalog, user, priceId, productId, quantity).outcome.AddedNew? ||
             AddToBasket(s, catalog, user, priceId, productId, quantity).outcome.AddedMore?
    ensures var r := AddToBasket(s, catalog, user, priceId, productId, quantity);
      && AddedExactly(s.items, r.store.items, AddTarget(s, user), productId.value, ParseQuantity(quantity).value)
      && (r.outcome.AddedNew? <==> QuantityOf(s.items, AddTarget(s, user), productId.value).None?)
  {
    var r := AddToBasket(s, catalog, user, priceId, productId, quantity);
    var q := ParseQuantity(quantity).value;
    var s1 := OpenBasket(s, user);
    var b := AddTarget(s, user);
    var p := productId.value;
    assert r == PutProduct(s1, b, p, q);
    PutProductEffect(s1, b, p, q);
    assert s1.items == s.items;
  }

  /** The unit amount `line_total` charges for product `p`: its default price's, or 0 without one. */
  function UnitAmount(catalog: Catalog, p: ProductId): nat
  {
    if p in catalog && catalog[p].Some? then catalog[p].value.unitAmount else 0
  }

  /**
    * A successful add raises the target basket's `total_amount` by the
    * product's unit amount times the added quantity (nothing for a product
    * without a default price), and leaves every other basket's amount as
    * it was: the line totals and the basket total agree on the change.
    */
  lemma AddRaisesTotalAmount(s: Store, catalog: Catalog, user: UserId,
                             priceId: Option<string>, productId: Option<string>, quantity: QuantityField, c: Id)
    requires AddToBasket(s, catalog, user, priceId, productId, quantity).outcome.AddedNew? ||
             AddToBasket(s, catalog, user, priceId, productId, quantity).outcome.AddedMore?
    ensures var r := AddToBasket(s, catalog, user, priceId, productId, quantity);
      var b := AddTarget(s, user);
      SumLineTotals(catalog, ItemsOf(r.store.items, c)) ==
        SumLineTotals(catalog, ItemsOf(s.items, c)) +
        (if c == b then UnitAmount(catalog, productId.value) * ParseQuantity(quantity).value else 0)
  {
    var r := AddToBasket(s, catalog, user, priceId, productId, quantity);
    var s1 := OpenBasket(s, user);
    assert r == PutProduct(s1, AddTarget(s, user), productId.value, ParseQuantity(quantity).value);
    PutProductAmount(s1, catalog, AddTarget(s, user), productId.value, ParseQuantity(quantity).value, c);
  }

  lemma PutProductAmount(s: Store, catalog: Catalog, b: Id, p: ProductId, q: int, c: Id)
    ensures SumLineTotals(catalog, ItemsOf(PutProduct(s, b, p, q).store.items, c)) ==
      SumLineTotals(catalog, ItemsOf(s.items, c)) + (if c == b then UnitAmount(catalog, p) * q else 0)
  {
    var delta := UnitAmount(catalog, p) * q;
    match FindItem(s.items, b, p)
    case Some(i) =>
      var prev := s.items[i];
      var x := prev.(quantity := prev.quantity + q);
      assert PutProduct(s, b, p, q).store.items == s.items[i := x];
      AmountAfterReplace(catalog, s.items, i, x, c);
      LineTotalGrows(catalog, prev, q);
      assert LineTotal(catalog, x) - LineTotal(catalog, prev) == delta;
    case None =>
      var x := Item(s.nextId, b, p, q);
      assert PutProduct(s, b, p, q).store.items == [x] + s.items;
      AmountAfterInsert(catalog, s.items, x, c);
      LineTotalGrows(catalog, x.(quantity := 0), q);
      assert LineTotal(catalog, x) == delta;
  }

  /** Raising an item's quantity by `q` raises its line total by the unit amount times `q`. */
  lemma LineTotalGrows(catalog: Catalog, x: Item, q: int)
    ensures LineTotal(catalog, x.(quantity := x.quantity + q)) ==
            LineTotal(catalog, x) + UnitAmount(catalog, x.product) * q
  {
    var u := UnitAmount(catalog, x.product);
    assert u * (x.quantity + q) == u * x.quantity + u * q;
  }

  /** Every outcome of `add_to_basket` leaves a valid store valid. */
  lemma AddPreservesValid(s: Store, catalog: Catalog, user: UserId,
                          priceId: Option<string>, productId: Option<string>, quantity: QuantityField)
    requires Valid(s)
    ensures Valid(AddToBasket(s, catalog, user, priceId, productId, quantity).store)
  {
    var r := AddToBasket(s, catalog, user, priceId, productId, quantity);
    AtMostOneActiveBasket(s, user);
    if ActiveBaskets(s.baskets, user) == [] {
      NewBasketValid(s, user);
    }
    if r.outcome.AddedNew? || r.outcome.AddedMore? {
      PutProductValid(OpenBasket(s, user), AddTarget(s, user), productId.value, ParseQuantity(quantity).value);
    }
  }

  /** Creating a basket for a user with no active basket keeps the store valid. */
  lemma NewBasketValid(s: Store, user: UserId)
    requires Valid(s) && ActiveBaskets(s.baskets, user) == []
    ensures Valid(NewBasket(s, user))
  {
    var t := NewBasket(s, user);
    forall j | 0 <= j < |s.baskets| ensures !IsActiveFor(s.baskets[j], user) {
      assert s.baskets[j] !in ActiveBaskets(s.baskets, user);
    }
    forall id | HasBasket(s.baskets, id) ensures HasBasket(t.baskets, id) {
      var j :| 0 <= j < |s.baskets| && s.baskets[j].id == id;
      assert t.baskets[j + 1].id == id;
    }
    forall i, j | 0 <= i < j < |t.baskets|
      ensures t.baskets[i].id != t.baskets[j].id
      ensures !(IsActiveFor(t.baskets[i], t.baskets[j].owner) && IsActiveFor(t.baskets[j], t.baskets[j].owner))
    {
      assert t.baskets[j] == s.baskets[j - 1];
      if i > 0 { assert t.baskets[i] == s.baskets[i - 1]; }
    }
  }

  // ---------------------------------------------------------------------
  // Properties of update_basket_item and remove_basket_item
  // ---------------------------------------------------------------------

  /**
    * A successful update sets the item's quantity to the requested one, so
    * its basket's total changes by the difference, no other basket's items
    * change, and the store stays valid.
    */
  lemma UpdateEffect(s: Store, user: UserId, itemId: Id, quantity: QuantityField)
    requires Valid(s)
    requires UpdateBasketItem(s, user, itemId, quantity).1.Updated?
    ensures var r := UpdateBasketItem(s, user, itemId, quantity);
      var i := OwnedOpenItem(s, user, itemId).value;
      var b := s.items[i].basket;
      var q := ParseQuantity(quantity).value;
      && Valid(r.0)
      && r.0.items[i].id == itemId && r.0.items[i].quantity == q
      && TotalItems(ItemsOf(r.0.items, b)) == TotalItems(ItemsOf(s.items, b)) - s.items[i].quantity + q
      && (forall c :: c != b ==> ItemsOf(r.0.items, c) == ItemsOf(s.items, c))
  {
    var i := OwnedOpenItem(s, user, itemId).value;
    var x := s.items[i].(quantity := ParseQuantity(quantity).value);
    ReplaceItemValid(s, i, x);
    forall c ensures TotalItems(ItemsOf(s.items[i := x], c)) ==
      TotalItems(ItemsOf(s.items, c)) + (if c == x.basket then x.quantity - s.items[i].quantity else 0)
      && (c != x.basket ==> ItemsOf(s.items[i := x], c) == ItemsOf(s.items, c))
    {
      TotalAfterReplace(s.items, i, x, c);
    }
  }

  /**
    * A successful removal deletes the item: no row with its id remains,
    * its basket's total drops by its quantity, no other basket's items
    * change, and the store stays valid.
    */
  lemma RemoveEffect(s: Store, user: UserId, itemId: Id)
    requires Valid(s)
    requires RemoveBasketItem(s, user, itemId).1.Removed?
    ensures var r := RemoveBasketItem(s, user, itemId);
      var i := OwnedOpenItem(s, user, itemId).value;
      var b := s.items[i].basket;
      && Valid(r.0)
      && (forall j :: 0 <= j < |r.0.items| ==> r.0.items[j].id != itemId)
      && TotalItems(ItemsOf(r.0.items, b)) == TotalItems(ItemsOf(s.items, b)) - s.items[i].quantity
      && (forall c :: c != b ==> ItemsOf(r.0.items, c) == ItemsOf(s.items, c))
  {
    var i := OwnedOpenItem(s, user, itemId).value;
    DeleteItemValid(s, i);
    var w := Without(s.items, i);
    forall j | 0 <= j < |w| ensures w[j].id != itemId {
      if j < i { assert w[j] == s.items[j]; } else { assert w[j] == s.items[j + 1]; }
    }
    forall c ensures TotalItems(ItemsOf(w, c)) ==
      TotalItems(ItemsOf(s.items, c)) - (if c == s.items[i].basket then s.items[i].quantity else 0)
      && (c != s.items[i].basket ==> ItemsOf(w, c) == ItemsOf(s.items, c))
    {
      TotalAfterDelete(s.items, i, c);
    }
  }

  // ---------------------------------------------------------------------
  // Properties of create_checkout_session
  // ---------------------------------------------------------------------

  /** Line items are built item by item: the list for a concatenation is the concatenation of the lists. */
  lemma {:induction false} LineItemsAppend(catalog: Catalog, a: seq<Item>, b: seq<Item>)
    ensures CheckoutLineItems(catalog, a + b) == CheckoutLineItems(catalog, a) + CheckoutLineItems(catalog, b)
  {
    if a == [] {
      assert a + b == b;
    } else {
      assert (a + b)[1..] == a[1..] + b;
      LineItemsAppend(catalog, a[1..], b);
    }
  }

  /** The basket items whose product has a default price, in basket order. */
  function PricedItems(catalog: Catalog, items: seq<Item>): (r: seq<Item>)
    ensures |r| <= |items|
    ensures forall x :: x in r <==> x in items && DefaultPrice(catalog, x).Some?
  {
    if items == [] then []
    else (if DefaultPrice(catalog, items[0]).Some? then [items[0]] else []) + PricedItems(catalog, items[1..])
  }

  /** Every item is priced exactly when no item is dropped from the priced list. */
  lemma {:induction false} PricedItemsAll(catalog: Catalog, items: seq<Item>)
    ensures |PricedItems(catalog, items)| == |items| <==>
      forall x :: x in items ==> DefaultPrice(catalog, x).Some?
  {
    if items != [] {
      PricedItemsAll(catalog, items[1..]);
      assert forall x :: x in items <==> x == items[0] || x in items[1..];
    }
  }

  /**
    * The line items correspond one to one, in order, with the priced
    * basket items: the k-th line carries the default price id and the
    * quantity of the k-th priced item, and nothing is merged or dropped.
    */
  lemma {:induction false} LineItemsArePricedItems(catalog: Catalog, items: seq<Item>)
    ensures |CheckoutLineItems(catalog, items)| == |PricedItems(catalog, items)|
    ensures forall k :: 0 <= k < |PricedItems(catalog, items)| ==>
      var x := PricedItems(catalog, items)[k];
      DefaultPrice(catalog, x).Some? &&
      CheckoutLineItems(catalog, items)[k] == LineItem(DefaultPrice(catalog, x).value.id, x.quantity)
  {
    if items != [] {
      var tail := items[1..];
      LineItemsArePricedItems(catalog, tail);
      var lines, priced := CheckoutLineItems(catalog, items), PricedItems(catalog, items);
      var tailLines, tailPriced := CheckoutLineItems(catalog, tail), PricedItems(catalog, tail);
      if DefaultPrice(catalog, items[0]).Some? {
        var price := DefaultPrice(catalog, items[0]).value;
        assert lines == [LineItem(price.id, items[0].quantity)] + tailLines;
        assert priced == [items[0]] + tailPriced;
        forall k | 0 <= k < |priced|
          ensures DefaultPrice(catalog, priced[k]).Some? &&
                  lines[k] == LineItem(DefaultPrice(catalog, priced[k]).value.id, priced[k].quantity)
        {
          if k > 0 {
            assert priced[k] == tailPriced[k - 1] && lines[k] == tailLines[k - 1];
          }
        }
      } else {
        assert lines == tailLines;
        assert priced == tailPriced;
      }
    }
  }

  // ---------------------------------------------------------------------
  // Properties of order_confirm
  // ---------------------------------------------------------------------

  /** Basket lookups read only ids, so marking a basket checked out does not move them. */
  lemma {:induction false} BasketIndexAfterCheckOut(baskets: seq<Basket>, k: nat, id: Id)
    requires k < |baskets|
    ensures BasketIndex(baskets[k := baskets[k].(checkedOut := true)], id) == BasketIndex(baskets, id)
  {
    var t := baskets[k := baskets[k].(checkedOut := true)];
    assert t[1..] == if k == 0 then baskets[1..] else baskets[1..][k - 1 := baskets[k].(checkedOut := true)];
    if k > 0 {
      BasketIndexAfterCheckOut(baskets[1..], k - 1, id);
    }
  }

  /**
    * A successful confirmation leaves the order for the session in the
    * store, and the basket the session names, when it is the caller's,
    * checked out. An order that already existed for the session is
    * returned as it was, with `created` false, and the orders are not
    * touched.
    */
  lemma ConfirmEffect(s: Store, user: UserId, sessionId: Option<string>, reply: RetrieveReply)
    requires OrderConfirm(s, user, sessionId, reply).1.Confirmed?
    ensures var r := OrderConfirm(s, user, sessionId, reply);
      var session := reply.session;
      && reply.Retrieved? && session.clientReferenceId == Some(user)
      && r.1.order.session == session.id
      && FindOrder(r.0.orders, session.id) == Some(if r.1.created then 0 else FindOrder(s.orders, session.id).value)
      && r.0.orders[FindOrder(r.0.orders, session.id).value] == r.1.order
      && (r.1.created <==> FindOrder(s.orders, session.id).None?)
      && (!r.1.created ==> r.0.orders == s.orders && r.1.order == s.orders[FindOrder(s.orders, session.id).value])
      && (r.1.created ==>
            (r.0.orders == [r.1.order] + s.orders && r.1.order.user == user &&
             r.1.order.id == s.nextId && r.0.nextId == s.nextId + 1 &&
             r.1.order.basket ==
               (if ReferencedBasket(s, user, session.basketRef).Some?
                then Some(s.baskets[ReferencedBasket(s, user, session.basketRef).value].id) else None)))
      && (ReferencedBasket(s, user, session.basketRef).Some? ==>
            var k := ReferencedBasket(s, user, session.basketRef).value;
            r.0.baskets == s.baskets[k := s.baskets[k].(checkedOut := true)])
      && (ReferencedBasket(s, user, session.basketRef).None? ==> r.0.baskets == s.baskets)
  {
  }

  /**
    * Confirming the same session twice is harmless: the second call
    * returns the order of the first with `created` false and changes
    * nothing.
    */
  lemma ConfirmIdempotent(s: Store, user: UserId, sessionId: Option<string>, reply: RetrieveReply)
    requires OrderConfirm(s, user, sessionId, reply).1.Confirmed?
    ensures var r1 := OrderConfirm(s, user, sessionId, reply);
      var r2 := OrderConfirm(r1.0, user, sessionId, reply);
      r2 == (r1.0, Confirmed(r1.1.order, false))
  {
    ConfirmEffect(s, user, sessionId, reply);
    var r1 := OrderConfirm(s, user, sessionId, reply);
    var ref := reply.session.basketRef;
    match ReferencedBasket(s, user, ref)
    case None =>
      assert r1.0.baskets == s.baskets;
    case Some(k) =>
      BasketIndexAfterCheckOut(s.baskets, k, ref.id);
      assert ReferencedBasket(r1.0, user, ref) == Some(k);
  }

  /** Confirmation keeps a valid store valid: in particular there is still at most one order per session. */
  lemma ConfirmPreservesValid(s: Store, user: UserId, sessionId: Option<string>, reply: RetrieveReply)
    requires Valid(s)
    ensures Valid(OrderConfirm(s, user, sessionId, reply).0)
  {
    var r := OrderConfirm(s, user, sessionId, reply);
    if r.1.Confirmed? {
      ConfirmEffect(s, user, sessionId, reply);
      var session := reply.session;
      var found := ReferencedBasket(s, user, session.basketRef);
      var s1 := s;
      if r.1.created {
        if found.Some? {
          assert HasBasket(s.baskets, s.baskets[found.value].id);
        }
        InsertOrderValid(s, r.1.order);
        s1 := s.(orders := [r.1.order] + s.orders, nextId := s.nextId + 1);
      }
      if found.Some? {
        CheckOutValid(s1, found.value);
      }
    }
  }
}
