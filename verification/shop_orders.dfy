/**
  * The read-only projections of an order: amount, currency, status, line
  * items, products and receipt. They read the order's checkout session as
  * cached from the payment provider, and the order's basket in the store.
  */
module OrderProjections {
  import opened Wrappers
  import opened ShopStore
  import opened Seqs
  import opened Gateway
  import ShopViews

  /** A charge of a payment intent, with its creation timestamp. */
  datatype Charge = Charge(id: string, created: int)

  /** A cached payment intent: the raw `status` of its provider data, and its charges. */
  datatype PaymentIntent = PaymentIntent(rawStatus: Option<string>, charges: seq<Charge>)

  /** A cached purchased line item of a checkout session. */
  datatype SessionLineItem = SessionLineItem(price: string, quantity: int)

  /**
    * A cached checkout session. `lineItems` is `None` when the provider
    * data has no `line_items` entry or that entry has no `data` list.
    */
  datatype CachedSession = CachedSession(
    amountTotal: Option<int>,
    currency: string,
    paymentIntent: Option<PaymentIntent>,
    lineItems: Option<seq<SessionLineItem>>)

  /** The cached sessions by id; an order whose session is not here has none. */
  type Sessions = map<SessionId, CachedSession>

  function SessionOf(order: Order, sessions: Sessions): Option<CachedSession>
  {
    if order.session in sessions then Some(sessions[order.session]) else None
  }

  // ---------------------------------------------------------------------
  // amount, currency
  // ---------------------------------------------------------------------

  /** `amount`: the session's total in cents, `None` without a session. */
  function Amount(order: Order, sessions: Sessions): (r: Option<int>)
    ensures SessionOf(order, sessions).None? ==> r.None?
    ensures SessionOf(order, sessions).Some? ==> r == sessions[order.session].amountTotal
  {
    match SessionOf(order, sessions)
    case None => None
    case Some(session) => session.amountTotal
  }

  function UpperChar(c: char): (u: char)
    ensures 'a' <= c <= 'z' ==> 'A' <= u <= 'Z'
    ensures !('a' <= c <= 'z') ==> u == c
  {
    if 'a' <= c <= 'z' then (c as int - 32) as char else c
  }

  /** `str.upper()` on ASCII text. */
  function Upper(s: string): (r: string)
    ensures |r| == |s|
    ensures forall i :: 0 <= i < |s| ==> r[i] == UpperChar(s[i])
  {
    if s == [] then [] else [UpperChar(s[0])] + Upper(s[1..])
  }

  /** `currency`: the session's currency code upper-cased, `None` without a session. */
  function Currency(order: Order, sessions: Sessions): (r: Option<string>)
    ensures SessionOf(order, sessions).None? <==> r.None?
    ensures r.Some? ==> |r.value| == |sessions[order.session].currency|
    ensures r.Some? ==> forall i :: 0 <= i < |r.value| ==> r.value[i] == UpperChar(sessions[order.session].currency[i])
    ensures r.Some? ==> forall i :: 0 <= i < |r.value| ==> !('a' <= r.value[i] <= 'z')
  {
    match SessionOf(order, sessions)
    case None => None
    case Some(session) => Some(Upper(session.currency))
  }

  /**
    * Upper-casing is idempotent, so a currency code already in upper case
    * is shown unchanged.
    */
  lemma UpperIdempotent(a: string)
    ensures Upper(Upper(a)) == Upper(a)
    ensures (forall i :: 0 <= i < |a| ==> !('a' <= a[i] <= 'z')) ==> Upper(a) == a
  {
    var ua := Upper(a);
    forall i | 0 <= i < |a| ensures Upper(ua)[i] == ua[i] {
      assert ua[i] == UpperChar(a[i]);
    }
    assert Upper(ua) == ua;
    if forall i :: 0 <= i < |a| ==> !('a' <= a[i] <= 'z') {
      forall i | 0 <= i < |a| ensures ua[i] == a[i] {
        assert ua[i] == UpperChar(a[i]);
      }
    }
  }

  /** Two codes are shown alike exactly when they differ at most in the case of their letters. */
  lemma UpperSameExactly(a: string, b: string)
    ensures Upper(a) == Upper(b) <==> |a| == |b| && forall i :: 0 <= i < |a| ==> UpperChar(a[i]) == UpperChar(b[i])
  {
    if Upper(a) == Upper(b) {
      forall i | 0 <= i < |a| ensures UpperChar(a[i]) == UpperChar(b[i]) {
        assert Upper(a)[i] == Upper(b)[i];
      }
    }
    if |a| == |b| && forall i :: 0 <= i < |a| ==> UpperChar(a[i]) == UpperChar(b[i]) {
      forall i | 0 <= i < |a| ensures Upper(a)[i] == Upper(b)[i] {
        assert Upper(a)[i] == UpperChar(a[i]);
      }
    }
  }

  // ---------------------------------------------------------------------
  // status
  // ---------------------------------------------------------------------

  datatype OrderStatus = Paid | Processing | Canceled | RequiresAction | PaymentFailed | Pending | Unknown
  {
    /** The status string the templates receive. */
    function Label(): string
    {
      match this
      case Paid => "paid"
      case Processing => "processing"
      case Canceled => "canceled"
      case RequiresAction => "requires_action"
      case PaymentFailed => "payment_failed"
      case Pending => "pending"
      case Unknown => "unknown"
    }
  }

  /** The status table: a non-empty raw payment-intent status to an order status. */
  function StatusOfRaw(raw: string): (st: OrderStatus)
    ensures st != Unknown
  {
    if raw == "succeeded" then Paid
    else if raw == "processing" then Processing
    else if raw == "canceled" then Canceled
    else if raw == "requires_action" then RequiresAction
    else if raw == "requires_payment_method" then PaymentFailed
    else Pending
  }

  /** The raw status each mapped order status comes from; `None` for pending and unknown. */
  function RawOf(st: OrderStatus): Option<string>
  {
    match st
    case Paid => Some("succeeded")
    case Processing => Some("processing")
    case Canceled => Some("canceled")
    case RequiresAction => Some("requires_action")
    case PaymentFailed => Some("requires_payment_method")
    case _ => None
  }

  /**
    * `status`: unknown without a session, without a payment intent, or
    * with a missing or empty raw status; otherwise the table's entry.
    */
  function Status(order: Order, sessions: Sessions): (st: OrderStatus)
    ensures st == Unknown <==>
      || SessionOf(order, sessions).None?
      || SessionOf(order, sessions).value.paymentIntent.None?
      || !Present(SessionOf(order, sessions).value.paymentIntent.value.rawStatus)
    ensures st != Unknown ==> st == StatusOfRaw(SessionOf(order, sessions).value.paymentIntent.value.rawStatus.value)
  {
    match SessionOf(order, sessions)
    case None => Unknown
    case Some(session) =>
      match session.paymentIntent
      case None => Unknown
      case Some(pi) => if !Present(pi.rawStatus) then Unknown else StatusOfRaw(pi.rawStatus.value)
  }

  /**
    * The table is a bijection between the five known raw statuses and the
    * five mapped order statuses; every other non-empty raw status is pending.
    */
  lemma StatusTableRoundTrip(raw: string, st: OrderStatus)
    ensures RawOf(st).Some? ==> StatusOfRaw(RawOf(st).value) == st
    ensures StatusOfRaw(raw) != Pending ==> RawOf(StatusOfRaw(raw)) == Some(raw)
    ensures StatusOfRaw(raw) == Pending <==>
      raw !in ["succeeded", "processing", "canceled", "requires_action", "requires_payment_method"]
  {
  }

  // ---------------------------------------------------------------------
  // line_items, products_count
  // ---------------------------------------------------------------------

  /** `line_items`: the cached purchased items, `[]` without a session or cached list. */
  function LineItems(order: Order, sessions: Sessions): (r: seq<SessionLineItem>)
    ensures SessionOf(order, sessions).None? ==> r == []
    ensures SessionOf(order, sessions).Some? && sessions[order.session].lineItems.None? ==> r == []
    ensures SessionOf(order, sessions).Some? && sessions[order.session].lineItems.Some? ==>
      r == sessions[order.session].lineItems.value
  {
    match SessionOf(order, sessions)
    case None => []
    case Some(session) => session.lineItems.GetOr([])
  }

  /** `products_count`: the number of line items. */
  function ProductsCount(order: Order, sessions: Sessions): (n: nat)
    ensures n == |LineItems(order, sessions)|
    ensures n == 0 <==> LineItems(order, sessions) == []
  {
    |LineItems(order, sessions)|
  }

  /** The purchased items a session caches for a checkout request: the same prices and quantities, in order. */
  function EchoedLines(lines: seq<LineItem>): (r: seq<SessionLineItem>)
    ensures |r| == |lines|
    ensures forall k :: 0 <= k < |lines| ==> r[k] == SessionLineItem(lines[k].price, lines[k].quantity)
  {
    if lines == [] then [] else [SessionLineItem(lines[0].price, lines[0].quantity)] + EchoedLines(lines[1..])
  }

  /** The session caches exactly the line items the shop's checkout sent for the basket items `items`. */
  predicate EchoesCheckout(session: CachedSession, catalog: Catalog, items: seq<Item>)
  {
    session.lineItems == Some(EchoedLines(ShopViews.CheckoutLineItems(catalog, items)))
  }

  /**
    * For an order whose session echoes the checkout of its basket,
    * `line_items` lists the basket's priced items in order and
    * `products_count` counts them; `products`, read from the basket,
    * also lists the items without a default price, so the count is
    * never larger, and equal exactly when every item is priced.
    */
  lemma OrderLinesFollowBasket(order: Order, sessions: Sessions, s: Store, catalog: Catalog)
    requires order.basket.Some? && order.session in sessions
    requires EchoesCheckout(sessions[order.session], catalog, ItemsOf(s.items, order.basket.value))
    ensures var items := ItemsOf(s.items, order.basket.value);
      var priced := ShopViews.PricedItems(catalog, items);
      && ProductsCount(order, sessions) == |priced|
      && (forall k :: 0 <= k < |priced| ==>
            DefaultPrice(catalog, priced[k]).Some? &&
            LineItems(order, sessions)[k] == SessionLineItem(DefaultPrice(catalog, priced[k]).value.id, priced[k].quantity))
      && ProductsCount(order, sessions) <= |Products(order, s)|
      && (ProductsCount(order, sessions) == |Products(order, s)| <==>
            forall x :: x in items ==> DefaultPrice(catalog, x).Some?)
  {
    var items := ItemsOf(s.items, order.basket.value);
    ShopViews.LineItemsArePricedItems(catalog, items);
    ShopViews.PricedItemsAll(catalog, items);
  }

  // ---------------------------------------------------------------------
  // products, first_product
  // ---------------------------------------------------------------------

  /** The product of each item, in order. */
  function ProductsOfItems(items: seq<Item>): (r: seq<ProductId>)
    ensures |r| == |items|
    ensures forall i :: 0 <= i < |items| ==> r[i] == items[i].product
  {
    if items == [] then [] else [items[0].product] + ProductsOfItems(items[1..])
  }

  /** `products`: one product per item of the order's basket, in item order; `[]` without a basket. */
  function Products(order: Order, s: Store): (r: seq<ProductId>)
    ensures order.basket.None? ==> r == []
    ensures order.basket.Some? ==>
      |r| == |ItemsOf(s.items, order.basket.value)| &&
      forall i :: 0 <= i < |r| ==> r[i] == ItemsOf(s.items, order.basket.value)[i].product
  {
    match order.basket
    case None => []
    case Some(b) => ProductsOfItems(ItemsOf(s.items, b))
  }

  /** `first_product`: the first of `products`, `None` when there is none. */
  function FirstProduct(order: Order, s: Store): (r: Option<ProductId>)
    ensures r.None? <==> Products(order, s) == []
    ensures r.Some? ==> r.value == Products(order, s)[0] && r.value in Products(order, s)
  {
    var products := Products(order, s);
    if products == [] then None else Some(products[0])
  }

  /** Every product listed for an order is the product of one of its basket's items. */
  lemma ProductsComeFromBasket(order: Order, s: Store, p: ProductId)
    requires p in Products(order, s)
    ensures order.basket.Some?
    ensures exists x :: x in s.items && x.basket == order.basket.value && x.product == p
  {
    var products := Products(order, s);
    var i :| 0 <= i < |products| && products[i] == p;
    var items := ItemsOf(s.items, order.basket.value);
    assert items[i] in items;
  }

  // ---------------------------------------------------------------------
  // receipt
  // ---------------------------------------------------------------------

  /**
    * `receipt`: the first charge of the session's payment intent by
    * `order_by("-created")`, a charge created last; `None` without a
    * payment intent or without charges.
    */
  function Receipt(order: Order, sessions: Sessions): (r: Option<Charge>)
    ensures r.None? <==>
      || SessionOf(order, sessions).None?
      || SessionOf(order, sessions).value.paymentIntent.None?
      || SessionOf(order, sessions).value.paymentIntent.value.charges == []
    ensures r.Some? ==>
      var charges := sessions[order.session].paymentIntent.value.charges;
      r.value in charges && forall j :: 0 <= j < |charges| ==> charges[j].created <= r.value.created
  {
    match SessionOf(order, sessions)
    case None => None
    case Some(session) =>
      match session.paymentIntent
      case None => None
      case Some(pi) => Newest(pi.charges, (c: Charge) => c.created)
  }
}
