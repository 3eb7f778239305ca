/**
  * The shop's persistent state: baskets, basket items and orders, with the
  * read-only basket projections (`total_items`, `total_amount`,
  * `line_total`, `is_empty`) and the constraints the database keeps.
  *
  * Every table is a sequence ordered newest first, which is the models'
  * `ordering = ["-created_at"]`: a row created later is put at the front,
  * so filtering a table gives the order the ORM returns. Primary keys are
  * drawn from `nextId`, standing in for freshly generated UUIDs.
  */
module ShopStore {
  import opened Wrappers

  type UserId = string
  type ProductId = string
  type PriceId = string
  type SessionId = string
  type Id = nat

  /** A payment-provider price as the shop reads it: its id and unit amount in cents. */
  datatype Price = Price(id: PriceId, unitAmount: nat)

  /** The synced product catalog: each product id with its optional default price. */
  type Catalog = map<ProductId, Option<Price>>

  datatype Basket = Basket(id: Id, owner: UserId, checkedOut: bool)
  datatype Item = Item(id: Id, basket: Id, product: ProductId, quantity: int)
  datatype Order = Order(id: Id, user: UserId, session: SessionId, basket: Option<Id>)

  datatype Store = Store(baskets: seq<Basket>, items: seq<Item>, orders: seq<Order>, nextId: nat)

  /** The store before anything has happened. */
  function EmptyStore(): (s: Store)
    ensures Valid(s)
  {
    Store([], [], [], 0)
  }

  // ---------------------------------------------------------------------
  // Lookups
  // ---------------------------------------------------------------------

  predicate IsActiveFor(b: Basket, user: UserId)
  {
    b.owner == user && !b.checkedOut
  }

  /** `Basket.objects.filter(user=user, checked_out=False)`. */
  function ActiveBaskets(baskets: seq<Basket>, user: UserId): (r: seq<Basket>)
    ensures |r| <= |baskets|
    ensures forall b :: b in r <==> b in baskets && IsActiveFor(b, user)
  {
    if baskets == [] then []
    else (if IsActiveFor(baskets[0], user) then [baskets[0]] else []) + ActiveBaskets(baskets[1..], user)
  }

  /** The position of the basket with primary key `id`, if any (first match). */
  function BasketIndex(baskets: seq<Basket>, id: Id): (r: Option<nat>)
    ensures r.Some? ==> r.value < |baskets| && baskets[r.value].id == id
    ensures r.Some? ==> forall j :: 0 <= j < r.value ==> baskets[j].id != id
    ensures r.None? <==> forall j :: 0 <= j < |baskets| ==> baskets[j].id != id
  {
    if baskets == [] then None
    else if baskets[0].id == id then Some(0)
    else match BasketIndex(baskets[1..], id)
      case None => None
      case Some(k) => Some(k + 1)
  }

  predicate HasBasket(baskets: seq<Basket>, id: Id)
  {
    exists j :: 0 <= j < |baskets| && baskets[j].id == id
  }

  /** `basket.items.all()`: the items of basket `b`, newest first. */
  function ItemsOf(items: seq<Item>, b: Id): (r: seq<Item>)
    ensures |r| <= |items|
    ensures forall x :: x in r <==> x in items && x.basket == b
  {
    if items == [] then []
    else (if items[0].basket == b then [items[0]] else []) + ItemsOf(items[1..], b)
  }

  /** The position of the item of basket `b` for product `p`, if any (first match). */
  function FindItem(items: seq<Item>, b: Id, p: ProductId): (r: Option<nat>)
    ensures r.Some? ==> r.value < |items| && items[r.value].basket == b && items[r.value].product == p
    ensures r.None? <==> forall j :: 0 <= j < |items| ==> !(items[j].basket == b && items[j].product == p)
  {
    if items == [] then None
    else if items[0].basket == b && items[0].product == p then Some(0)
    else match FindItem(items[1..], b, p)
      case None => None
      case Some(k) => Some(k + 1)
  }

  /** The quantity held for product `p` in basket `b`, if the basket holds it. */
  function QuantityOf(items: seq<Item>, b: Id, p: ProductId): (r: Option<int>)
    ensures r.Some? <==> exists j :: 0 <= j < |items| && items[j].basket == b && items[j].product == p
  {
    match FindItem(items, b, p)
    case None => None
    case Some(i) => Some(items[i].quantity)
  }

  /** The position of the order for `session`, if any. */
  function FindOrder(orders: seq<Order>, session: SessionId): (r: Option<nat>)
    ensures r.Some? ==> r.value < |orders| && orders[r.value].session == session
    ensures r.None? <==> forall j :: 0 <= j < |orders| ==> orders[j].session != session
  {
    if orders == [] then None
    else if orders[0].session == session then Some(0)
    else match FindOrder(orders[1..], session)
      case None => None
      case Some(k) => Some(k + 1)
  }

  // ---------------------------------------------------------------------
  // Database constraints
  // ---------------------------------------------------------------------

  /**
    * What the database and the lookup conventions keep true: primary keys
    * are unique and below `nextId`; every item and order points at an
    * existing basket; `(basket, product)` is unique among items
    * (`unique_together`); an order's session is unique (one-to-one); and
    * each user has at most one basket with `checked_out = False`.
    */
  predicate Valid(s: Store)
  {
    && (forall i :: 0 <= i < |s.baskets| ==> s.baskets[i].id < s.nextId)
    && (forall i, j :: 0 <= i < j < |s.baskets| ==> s.baskets[i].id != s.baskets[j].id)
    && (forall i, j :: 0 <= i < j < |s.baskets| ==>
          !(IsActiveFor(s.baskets[i], s.baskets[j].owner) && IsActiveFor(s.baskets[j], s.baskets[j].owner)))
    && (forall i :: 0 <= i < |s.items| ==> s.items[i].id < s.nextId && HasBasket(s.baskets, s.items[i].basket))
    && (forall i, j :: 0 <= i < j < |s.items| ==>
          s.items[i].id != s.items[j].id &&
          !(s.items[i].basket == s.items[j].basket && s.items[i].product == s.items[j].product))
    && (forall i :: 0 <= i < |s.orders| ==>
          s.orders[i].id < s.nextId && (s.orders[i].basket.Some? ==> HasBasket(s.baskets, s.orders[i].basket.value)))
    && (forall i, j :: 0 <= i < j < |s.orders| ==>
          s.orders[i].id != s.orders[j].id && s.orders[i].session != s.orders[j].session)
  }

  /** In a valid store a user has at most one active basket. */
  lemma AtMostOneActiveBasket(s: Store, user: UserId)
    requires Valid(s)
    ensures |ActiveBaskets(s.baskets, user)| <= 1
  {
    ActiveBasketsSingle(s.baskets, user);
  }

  lemma {:induction false} ActiveBasketsSingle(baskets: seq<Basket>, user: UserId)
    requires forall i, j :: 0 <= i < j < |baskets| ==>
      !(IsActiveFor(baskets[i], baskets[j].owner) && IsActiveFor(baskets[j], baskets[j].owner))
    ensures |ActiveBaskets(baskets, user)| <= 1
  {
    if baskets != [] {
      var tail := baskets[1..];
      ActiveBasketsSingle(tail, user);
      if IsActiveFor(baskets[0], user) {
        forall j | 0 <= j < |tail| ensures !IsActiveFor(tail[j], user) {
          assert tail[j] == baskets[j + 1];
        }
        NoActiveBaskets(tail, user);
      }
    }
  }

  lemma NoActiveBaskets(baskets: seq<Basket>, user: UserId)
    requires forall j :: 0 <= j < |baskets| ==> !IsActiveFor(baskets[j], user)
    ensures ActiveBaskets(baskets, user) == []
  {
  }

  // ---------------------------------------------------------------------
  // Basket projections
  // ---------------------------------------------------------------------

  /** `total_items`: the sum of the items' quantities. */
  function TotalItems(items: seq<Item>): int
  {
    if items == [] then 0 else items[0].quantity + TotalItems(items[1..])
  }

  /** `is_empty`: the basket has no item rows. */
  predicate IsEmpty(items: seq<Item>)
  {
    |items| == 0
  }

  /** The default price of an item's product, when the product is known and priced. */
  function DefaultPrice(catalog: Catalog, item: Item): Option<Price>
  {
    if item.product in catalog then catalog[item.product] else None
  }

  /** `line_total`: unit amount times quantity, or 0 without a default price. */
  function LineTotal(catalog: Catalog, item: Item): (t: int)
    ensures DefaultPrice(catalog, item).None? ==> t == 0
    ensures DefaultPrice(catalog, item).Some? ==> t == DefaultPrice(catalog, item).value.unitAmount * item.quantity
  {
    match DefaultPrice(catalog, item)
    case None => 0
    case Some(price) => price.unitAmount * item.quantity
  }

  /** The sum of the line totals of `items`. */
  function SumLineTotals(catalog: Catalog, items: seq<Item>): int
  {
    if items == [] then 0 else SumLineTotals(catalog, items[..|items| - 1]) + LineTotal(catalog, items[|items| - 1])
  }

  /**
    * `total_amount`, as the source computes it: a running total over the
    * items, adding unit amount times quantity for each priced item. It
    * equals the sum of the items' line totals, and it is zero when no item
    * is priced.
    */
  method TotalAmount(catalog: Catalog, items: seq<Item>) returns (total: int)
    ensures total == SumLineTotals(catalog, items)
    ensures (forall j :: 0 <= j < |items| ==> DefaultPrice(catalog, items[j]).None?) ==> total == 0
  {
    total := 0;
    var k := 0;
    while k < |items|
      invariant 0 <= k <= |items|
      invariant total == SumLineTotals(catalog, items[..k])
      invariant (forall j :: 0 <= j < k ==> DefaultPrice(catalog, items[j]).None?) ==> total == 0
    {
      var item := items[k];
      if item.product in catalog && catalog[item.product].Some? {
        total := total + catalog[item.product].value.unitAmount * item.quantity;
      }
      assert items[..k + 1][..k] == items[..k];
      k := k + 1;
    }
    assert items[..k] == items;
  }

  // ---------------------------------------------------------------------
  // Sums over filtered tables
  // ---------------------------------------------------------------------

  lemma {:induction false} TotalItemsAppend(a: seq<Item>, b: seq<Item>)
    ensures TotalItems(a + b) == TotalItems(a) + TotalItems(b)
  {
    if a != [] {
      assert (a + b)[1..] == a[1..] + b;
      TotalItemsAppend(a[1..], b);
    } else {
      assert a + b == b;
    }
  }

  lemma {:induction false} ItemsOfAppend(a: seq<Item>, c: seq<Item>, b: Id)
    ensures ItemsOf(a + c, b) == ItemsOf(a, b) + ItemsOf(c, b)
  {
    if a != [] {
      assert (a + c)[1..] == a[1..] + c;
      ItemsOfAppend(a[1..], c, b);
    } else {
      assert a + c == c;
    }
  }

  /**
    * Replacing one item by another of the same basket changes that
    * basket's total by the difference in quantity and leaves every other
    * basket's items as they were.
    */
  lemma {:induction false} TotalAfterReplace(items: seq<Item>, i: nat, x: Item, b: Id)
    requires i < |items| && x.basket == items[i].basket
    ensures b != x.basket ==> ItemsOf(items[i := x], b) == ItemsOf(items, b)
    ensures TotalItems(ItemsOf(items[i := x], b)) ==
      TotalItems(ItemsOf(items, b)) + (if b == x.basket then x.quantity - items[i].quantity else 0)
  {
    assert items == items[..i] + [items[i]] + items[i + 1..];
    assert items[i := x] == items[..i] + [x] + items[i + 1..];
    ItemsOfAppend(items[..i] + [items[i]], items[i + 1..], b);
    ItemsOfAppend(items[..i], [items[i]], b);
    ItemsOfAppend(items[..i] + [x], items[i + 1..], b);
    ItemsOfAppend(items[..i], [x], b);
    assert ItemsOf([x], b) == if x.basket == b then [x] else [];
    assert ItemsOf([items[i]], b) == if x.basket == b then [items[i]] else [];
    TotalItemsAppend(ItemsOf(items[..i], b) + ItemsOf([items[i]], b), ItemsOf(items[i + 1..], b));
    TotalItemsAppend(ItemsOf(items[..i], b), ItemsOf([items[i]], b));
    TotalItemsAppend(ItemsOf(items[..i], b) + ItemsOf([x], b), ItemsOf(items[i + 1..], b));
    TotalItemsAppend(ItemsOf(items[..i], b), ItemsOf([x], b));
  }

  lemma {:induction false} SumLineTotalsAppend(catalog: Catalog, a: seq<Item>, b: seq<Item>)
    ensures SumLineTotals(catalog, a + b) == SumLineTotals(catalog, a) + SumLineTotals(catalog, b)
  {
    if b == [] {
      assert a + b == a;
    } else {
      var c := a + b;
      assert c[..|c| - 1] == a + b[..|b| - 1];
      assert c[|c| - 1] == b[|b| - 1];
      SumLineTotalsAppend(catalog, a, b[..|b| - 1]);
    }
  }

  lemma SumLineTotalsSingle(catalog: Catalog, x: Item)
    ensures SumLineTotals(catalog, [x]) == LineTotal(catalog, x)
  {
    assert [x][..0] == [];
  }

  /**
    * Replacing one item by another of the same basket changes that
    * basket's amount by the difference of the two line totals and leaves
    * every other basket's amount as it was.
    */
  lemma AmountAfterReplace(catalog: Catalog, items: seq<Item>, i: nat, x: Item, b: Id)
    requires i < |items| && x.basket == items[i].basket
    ensures SumLineTotals(catalog, ItemsOf(items[i := x], b)) ==
      SumLineTotals(catalog, ItemsOf(items, b)) +
      (if b == x.basket then LineTotal(catalog, x) - LineTotal(catalog, items[i]) else 0)
  {
    assert items == items[..i] + [items[i]] + items[i + 1..];
    assert items[i := x] == items[..i] + [x] + items[i + 1..];
    ItemsOfAppend(items[..i] + [items[i]], items[i + 1..], b);
    ItemsOfAppend(items[..i], [items[i]], b);
    ItemsOfAppend(items[..i] + [x], items[i + 1..], b);
    ItemsOfAppend(items[..i], [x], b);
    var pre, post := ItemsOf(items[..i], b), ItemsOf(items[i + 1..], b);
    var old1, new1 := ItemsOf([items[i]], b), ItemsOf([x], b);
    assert new1 == if x.basket == b then [x] else [];
    assert old1 == if x.basket == b then [items[i]] else [];
    SumLineTotalsAppend(catalog, pre + old1, post);
    SumLineTotalsAppend(catalog, pre, old1);
    SumLineTotalsAppend(catalog, pre + new1, post);
    SumLineTotalsAppend(catalog, pre, new1);
    SumLineTotalsSingle(catalog, x);
    SumLineTotalsSingle(catalog, items[i]);
  }

  /** Putting a new item in front raises its basket's amount by its line total only. */
  lemma AmountAfterInsert(catalog: Catalog, items: seq<Item>, x: Item, b: Id)
    ensures SumLineTotals(catalog, ItemsOf([x] + items, b)) ==
      SumLineTotals(catalog, ItemsOf(items, b)) + (if b == x.basket then LineTotal(catalog, x) else 0)
  {
    assert ([x] + items)[1..] == items;
    var head := if x.basket == b then [x] else [];
    assert ItemsOf([x] + items, b) == head + ItemsOf(items, b);
    SumLineTotalsAppend(catalog, head, ItemsOf(items, b));
    SumLineTotalsSingle(catalog, x);
  }

  /** `items` with the row at position `i` deleted. */
  function Without(items: seq<Item>, i: nat): (r: seq<Item>)
    requires i < |items|
    ensures |r| == |items| - 1
    ensures forall j :: 0 <= j < i ==> r[j] == items[j]
    ensures forall j :: i <= j < |r| ==> r[j] == items[j + 1]
  {
    if i == 0 then items[1..] else [items[0]] + Without(items[1..], i - 1)
  }

  /**
    * Deleting one item lowers its basket's total by that item's quantity
    * and leaves every other basket's items as they were.
    */
  lemma {:induction false} TotalAfterDelete(items: seq<Item>, i: nat, b: Id)
    requires i < |items|
    ensures b != items[i].basket ==> ItemsOf(Without(items, i), b) == ItemsOf(items, b)
    ensures TotalItems(ItemsOf(Without(items, i), b)) ==
      TotalItems(ItemsOf(items, b)) - (if b == items[i].basket then items[i].quantity else 0)
  {
    var head := if items[0].basket == b then [items[0]] else [];
    assert ItemsOf(items, b) == head + ItemsOf(items[1..], b);
    TotalItemsAppend(head, ItemsOf(items[1..], b));
    if i > 0 {
      var rest := Without(items[1..], i - 1);
      TotalAfterDelete(items[1..], i - 1, b);
      assert ([items[0]] + rest)[1..] == rest;
      assert ItemsOf(Without(items, i), b) == head + ItemsOf(rest, b);
      TotalItemsAppend(head, ItemsOf(rest, b));
    }
  }

  /** Putting a new item in front raises its basket's total by its quantity only. */
  lemma TotalAfterInsert(items: seq<Item>, x: Item, b: Id)
    ensures b != x.basket ==> ItemsOf([x] + items, b) == ItemsOf(items, b)
    ensures TotalItems(ItemsOf([x] + items, b)) ==
      TotalItems(ItemsOf(items, b)) + (if b == x.basket then x.quantity else 0)
  {
    assert ([x] + items)[1..] == items;
  }

  // ---------------------------------------------------------------------
  // Row-level changes that keep the constraints
  // ---------------------------------------------------------------------

  /** Changing an item's quantity keeps the store valid. */
  lemma ReplaceItemValid(s: Store, i: nat, x: Item)
    requires Valid(s) && i < |s.items|
    requires x.id == s.items[i].id && x.basket == s.items[i].basket && x.product == s.items[i].product
    ensures Valid(s.(items := s.items[i := x]))
  {
  }

  /** A new item with a fresh id, an existing basket and a new (basket, product) pair keeps the store valid. */
  lemma InsertItemValid(s: Store, x: Item)
    requires Valid(s) && x.id == s.nextId && HasBasket(s.baskets, x.basket)
    requires FindItem(s.items, x.basket, x.product).None?
    ensures Valid(s.(items := [x] + s.items, nextId := s.nextId + 1))
  {
    var t := s.(items := [x] + s.items, nextId := s.nextId + 1);
    forall i | 0 <= i < |t.items|
      ensures t.items[i].id < t.nextId && HasBasket(t.baskets, t.items[i].basket)
    {
      if i > 0 { assert t.items[i] == s.items[i - 1]; }
    }
    forall i, j | 0 <= i < j < |t.items|
      ensures t.items[i].id != t.items[j].id
      ensures !(t.items[i].basket == t.items[j].basket && t.items[i].product == t.items[j].product)
    {
      assert t.items[j] == s.items[j - 1];
      if i > 0 { assert t.items[i] == s.items[i - 1]; }
    }
  }

  /** Deleting an item keeps the store valid. */
  lemma DeleteItemValid(s: Store, i: nat)
    requires Valid(s) && i < |s.items|
    ensures Valid(s.(items := Without(s.items, i)))
  {
    var t := s.(items := Without(s.items, i));
    forall a, b | 0 <= a < b < |t.items|
      ensures t.items[a].id != t.items[b].id
      ensures !(t.items[a].basket == t.items[b].basket && t.items[a].product == t.items[b].product)
    {
      var a' := if a < i then a else a + 1;
      var b' := if b < i then b else b + 1;
      assert t.items[a] == s.items[a'] && t.items[b] == s.items[b'];
    }
    forall a | 0 <= a < |t.items|
      ensures t.items[a].id < t.nextId && HasBasket(t.baskets, t.items[a].basket)
    {
      var a' := if a < i then a else a + 1;
      assert t.items[a] == s.items[a'];
    }
  }

  /** Marking a basket checked out keeps the store valid. */
  lemma CheckOutValid(s: Store, k: nat)
    requires Valid(s) && k < |s.baskets|
    ensures Valid(s.(baskets := s.baskets[k := s.baskets[k].(checkedOut := true)]))
  {
    var t := s.(baskets := s.baskets[k := s.baskets[k].(checkedOut := true)]);
    forall id | HasBasket(s.baskets, id) ensures HasBasket(t.baskets, id) {
      var j :| 0 <= j < |s.baskets| && s.baskets[j].id == id;
      assert t.baskets[j].id == id;
    }
  }

  /** A new order with a fresh id, a new session and an existing (or no) basket keeps the store valid. */
  lemma InsertOrderValid(s: Store, o: Order)
    requires Valid(s) && o.id == s.nextId && (o.basket.Some? ==> HasBasket(s.baskets, o.basket.value))
    requires FindOrder(s.orders, o.session).None?
    ensures Valid(s.(orders := [o] + s.orders, nextId := s.nextId + 1))
  {
    var t := s.(orders := [o] + s.orders, nextId := s.nextId + 1);
    forall i | 0 <= i < |t.orders|
      ensures t.orders[i].id < t.nextId
      ensures t.orders[i].basket.Some? ==> HasBasket(t.baskets, t.orders[i].basket.value)
    {
      if i > 0 { assert t.orders[i] == s.orders[i - 1]; }
    }
    forall i, j | 0 <= i < j < |t.orders|
      ensures t.orders[i].id != t.orders[j].id && t.orders[i].session != t.orders[j].session
    {
      assert t.orders[j] == s.orders[j - 1];
      if i > 0 { assert t.orders[i] == s.orders[i - 1]; }
    }
  }
}
