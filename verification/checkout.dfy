/**
 * Order placement (MakeOrderView.post): review every line of the current
 * cart against the products' stock, and either reject with a notice naming
 * the problems, or in one atomic step flag the cart as ordered, record the
 * order and take each line's quantity off its product's stock.
 */
module Checkout {
  import opened Common
  import opened CartItems
  import Text

  /** A catalog product as the checkout sees it: artist name, title and stock count. */
  datatype Product = Product(artistName: string, name: string, stock: int)

  type Catalog = map<ProductRef, Product>

  /** One line of the cart under review: which product and how many. */
  datatype Item = Item(product: ProductRef, qty: int)

  /** The cart's lines in the order they are attached. */
  function Items(s: Shop): (items: seq<Item>)
    requires Attached(s)
    ensures |items| == |s.cart.products|
    ensures forall i :: 0 <= i < |items| ==>
              items[i] == Item(s.cart.products[i].product, s.lines[s.cart.products[i]])
  {
    seq(|s.cart.products|, i requires 0 <= i < |s.cart.products| && Attached(s) =>
      Item(s.cart.products[i].product, s.lines[s.cart.products[i]]))
  }

  /** Every line's product can be found in the catalog. */
  predicate Stocked(items: seq<Item>, catalog: Catalog) {
    forall i :: 0 <= i < |items| ==> items[i].product in catalog
  }

  /** How a line fares against its product's stock. */
  datatype StockClass = SoldOut | Short | Available

  /**
   * A stock of 0 is sold out; a non-zero stock below the requested quantity
   * is short (a negative stock counts as non-zero); anything else is
   * available. No line is in two classes.
   */
  function ClassOf(stock: int, qty: int): (c: StockClass)
    ensures c == SoldOut <==> stock == 0
    ensures c == Short <==> stock != 0 && stock < qty
    ensures c == Available <==> stock != 0 && qty <= stock
  {
    if stock == 0 then SoldOut
    else if stock < qty then Short
    else Available
  }

  function ItemClass(item: Item, catalog: Catalog): StockClass
    requires item.product in catalog
  {
    ClassOf(catalog[item.product].stock, item.qty)
  }

  /** The name a product is reported under: artist and title joined by '-'. */
  function Label(p: Product): (l: string)
    ensures |l| == |p.artistName| + 1 + |p.name|
    ensures l[..|p.artistName|] == p.artistName
    ensures l[|p.artistName|] == '-'
    ensures l[|p.artistName| + 1..] == p.name
  {
    p.artistName + "-" + p.name
  }

  /**
   * The label does not tell products apart: an artist name or a title that
   * itself contains '-' can give two different products the same label.
   */
  lemma LabelsCollide()
    ensures Product("A-B", "C", 0) != Product("A", "B-C", 0)
    ensures Label(Product("A-B", "C", 0)) == Label(Product("A", "B-C", 0)) == "A-B-C"
  {
  }

  /** What the notice says about a short line: product, stock on hand, quantity asked for. */
  datatype Shortage = Shortage(product: string, stock: int, qty: int)

  function ShortageOf(item: Item, catalog: Catalog): Shortage
    requires item.product in catalog
  {
    Shortage(Label(catalog[item.product]), catalog[item.product].stock, item.qty)
  }

  /** Labels of the sold-out lines, in cart order. */
  function SoldOutLabels(items: seq<Item>, catalog: Catalog): (r: seq<string>)
    requires Stocked(items, catalog)
    ensures |r| <= |items|
    ensures |r| == 0 <==> forall i :: 0 <= i < |items| ==> ItemClass(items[i], catalog) != SoldOut
  {
    if |items| == 0 then []
    else
      var n := |items| - 1;
      var front := SoldOutLabels(items[..n], catalog);
      assert forall i :: 0 <= i < n ==> items[..n][i] == items[i];
      if ItemClass(items[n], catalog) == SoldOut then front + [Label(catalog[items[n].product])] else front
  }

  /** The short lines, in cart order. */
  function Shortages(items: seq<Item>, catalog: Catalog): (r: seq<Shortage>)
    requires Stocked(items, catalog)
    ensures |r| <= |items|
    ensures |r| == 0 <==> forall i :: 0 <= i < |items| ==> ItemClass(items[i], catalog) != Short
  {
    if |items| == 0 then []
    else
      var n := |items| - 1;
      var front := Shortages(items[..n], catalog);
      assert forall i :: 0 <= i < n ==> items[..n][i] == items[i];
      if ItemClass(items[n], catalog) == Short then front + [ShortageOf(items[n], catalog)] else front
  }

  /** Every line is available: the stock review passes. */
  predicate AllAvailable(items: seq<Item>, catalog: Catalog)
    requires Stocked(items, catalog)
  {
    forall i :: 0 <= i < |items| ==> ItemClass(items[i], catalog) == Available
  }

  /**
   * The rejection notice: the sold-out labels joined with ',', and one
   * shortage report. The report loop assigns instead of appending, so only
   * the last short line survives.
   */
  datatype Notice = Notice(soldOut: Option<string>, shortage: Option<Shortage>) {
    predicate Rejects() {
      soldOut.Some? || shortage.Some?
    }
  }

  /** The notice the review produces, stated over the two class lists. */
  function NoticeFor(items: seq<Item>, catalog: Catalog): (n: Notice)
    requires Stocked(items, catalog)
    ensures n.Rejects() <==> !AllAvailable(items, catalog)
    ensures n.soldOut.Some? <==> |SoldOutLabels(items, catalog)| > 0
    ensures n.soldOut.Some? ==> n.soldOut.value == Text.Join(',', SoldOutLabels(items, catalog))
    ensures n.shortage.Some? <==> |Shortages(items, catalog)| > 0
    ensures n.shortage.Some? ==> n.shortage.value == Shortages(items, catalog)[|Shortages(items, catalog)| - 1]
  {
    var out := SoldOutLabels(items, catalog);
    var short := Shortages(items, catalog);
    assert !AllAvailable(items, catalog) ==> |out| > 0 || |short| > 0 by {
      if !AllAvailable(items, catalog) {
        var i :| 0 <= i < |items| && ItemClass(items[i], catalog) != Available;
      }
    }
    Notice(if |out| > 0 then Some(Text.Join(',', out)) else None,
           if |short| > 0 then Some(short[|short| - 1]) else None)
  }

  /**
   * The review loops as the view runs them: one pass sorting lines into the
   * two lists, then a pass over the short lines that keeps overwriting the
   * report, so the notice ends up naming only the last one.
   */
  method ReviewStock(items: seq<Item>, catalog: Catalog) returns (notice: Notice)
    requires Stocked(items, catalog)
    ensures notice == NoticeFor(items, catalog)
  {
    var outOfStock: seq<string> := [];
    var moreThanOnStock: seq<Shortage> := [];
    var i := 0;
    while i < |items|
      invariant 0 <= i <= |items|
      invariant outOfStock == SoldOutLabels(items[..i], catalog)
      invariant moreThanOnStock == Shortages(items[..i], catalog)
    {
      assert items[..i + 1][..i] == items[..i];
      var stock := catalog[items[i].product].stock;
      if stock == 0 {
        outOfStock := outOfStock + [Label(catalog[items[i].product])];
      }
      if stock != 0 && stock < items[i].qty {
        moreThanOnStock := moreThanOnStock + [ShortageOf(items[i], catalog)];
      }
      i := i + 1;
    }
    assert items[..|items|] == items;
    var soldOut: Option<string> := None;
    if |outOfStock| > 0 {
      soldOut := Some(Text.Join(',', outOfStock));
    }
    var report: Option<Shortage> := None;
    var j := 0;
    while j < |moreThanOnStock|
      invariant 0 <= j <= |moreThanOnStock|
      invariant j == 0 ==> report == None
      invariant j > 0 ==> report == Some(moreThanOnStock[j - 1])
    {
      report := Some(moreThanOnStock[j]);
      j := j + 1;
    }
    notice := Notice(soldOut, report);
  }

  /** Total quantity the cart asks of product `p`, over all its lines. */
  function QtyOf(items: seq<Item>, p: ProductRef): int {
    if |items| == 0 then 0
    else QtyOf(items[..|items| - 1], p) + (if items[|items| - 1].product == p then items[|items| - 1].qty else 0)
  }

  /**
   * The commit loop: each line re-reads its product and saves it with the
   * line's quantity taken off. The catalog keeps its products, and each
   * product loses what all of its lines asked for, other fields untouched.
   */
  function Decrement(catalog: Catalog, items: seq<Item>): (r: Catalog)
    requires Stocked(items, catalog)
    ensures r.Keys == catalog.Keys
    ensures forall p :: p in catalog ==>
              r[p] == catalog[p].(stock := catalog[p].stock - QtyOf(items, p))
  {
    if |items| == 0 then catalog
    else
      var n := |items| - 1;
      assert Stocked(items[..n], catalog);
      var c := Decrement(catalog, items[..n]);
      var p := items[n].product;
      c[p := c[p].(stock := c[p].stock - items[n].qty)]
  }

  /** The checkout form's cleaned fields (the order date as a day number). */
  datatype OrderDetails = OrderDetails(
    firstName: string, lastName: string, phone: string, address: string,
    buyingType: string, orderDate: int, comment: string)

  /** A placed order: who ordered, which cart, and the form's details. */
  datatype Order = Order(customer: CustomerId, cart: CartId, details: OrderDetails)

  /**
   * Everything order placement reads or writes: the line table and current
   * cart, the catalog, the orders table (an order's id is its index) and
   * the customer-to-orders links.
   */
  datatype Store = Store(shop: Shop, catalog: Catalog, orders: seq<Order>, customerOrders: set<(CustomerId, nat)>)

  /** What the view reports back. */
  datatype Response =
    | Placed(order: nat)
    | InvalidForm
    | StockRejected(notice: Notice)
    | NoCustomer

  datatype Outcome = Outcome(store: Store, response: Response)

  /** The stored data the view relies on: attached lines exist and point at catalog products. */
  predicate Ready(s: Store) {
    && Attached(s.shop)
    && forall k :: k in s.shop.cart.products ==> k.product in s.catalog
  }

  lemma ReadyStocked(s: Store)
    requires Ready(s)
    ensures Stocked(Items(s.shop), s.catalog)
  {
  }

  /** The successful branch, applied as one unit. */
  function Commit(s: Store, customer: CustomerId, details: OrderDetails): (r: Store)
    requires Ready(s)
    ensures r.shop == s.shop.(cart := s.shop.cart.(inOrder := true))
    ensures |r.orders| == |s.orders| + 1 && r.orders[..|s.orders|] == s.orders
    ensures r.orders[|s.orders|] == Order(customer, s.shop.cart.id, details)
    ensures r.customerOrders == s.customerOrders + {(customer, |s.orders|)}
    ensures r.catalog.Keys == s.catalog.Keys
    ensures forall p :: p in s.catalog ==>
              r.catalog[p] == s.catalog[p].(stock := s.catalog[p].stock - QtyOf(Items(s.shop), p))
  {
    ReadyStocked(s);
    Store(s.shop.(cart := s.shop.cart.(inOrder := true)),
          Decrement(s.catalog, Items(s.shop)),
          s.orders + [Order(customer, s.shop.cart.id, details)],
          s.customerOrders + {(customer, |s.orders|)})
  }

  /**
   * MakeOrderView.post. `customer` is the customer record of the logged-in
   * user (absent when the lookup raises, which happens before the form is
   * looked at); `form` is the cleaned form, absent when it is invalid. The
   * view is atomic: every outcome but a placed order leaves the store as it
   * was.
   */
  function MakeOrder(s: Store, customer: Option<CustomerId>, form: Option<OrderDetails>): (r: Outcome)
    requires Ready(s)
    ensures !r.response.Placed? ==> r.store == s
    ensures r.response.NoCustomer? <==> customer.None?
    ensures r.response.InvalidForm? <==> customer.Some? && form.None?
    ensures Stocked(Items(s.shop), s.catalog)
    ensures r.response.Placed? <==>
              customer.Some? && form.Some? && AllAvailable(Items(s.shop), s.catalog)
    ensures r.response.StockRejected? ==>
              r.response.notice == NoticeFor(Items(s.shop), s.catalog) && r.response.notice.Rejects()
    ensures r.response.Placed? ==>
              && r.response.order == |s.orders|
              && r.store.shop == s.shop.(cart := s.shop.cart.(inOrder := true))
              && r.store.orders == s.orders + [Order(customer.value, s.shop.cart.id, form.value)]
              && r.store.customerOrders == s.customerOrders + {(customer.value, |s.orders|)}
              && r.store.catalog == Decrement(s.catalog, Items(s.shop))
  {
    ReadyStocked(s);
    if customer.None? then Outcome(s, NoCustomer)
    else if form.None? then Outcome(s, InvalidForm)
    else
      var notice := NoticeFor(Items(s.shop), s.catalog);
      if notice.Rejects() then Outcome(s, StockRejected(notice))
      else Outcome(Commit(s, customer.value, form.value), Placed(|s.orders|))
  }

  // ---------------------------------------------------------------------
  // Properties of the review and the commit

  /** A label is in the sold-out list exactly when some sold-out line carries it. */
  lemma {:induction false} SoldOutLabelsMembers(items: seq<Item>, catalog: Catalog, l: string)
    requires Stocked(items, catalog)
    ensures l in SoldOutLabels(items, catalog) <==>
              exists i :: 0 <= i < |items| && ItemClass(items[i], catalog) == SoldOut
                          && Label(catalog[items[i].product]) == l
  {
    if |items| > 0 {
      var n := |items| - 1;
      assert forall i :: 0 <= i < n ==> items[..n][i] == items[i];
      SoldOutLabelsMembers(items[..n], catalog, l);
      if l in SoldOutLabels(items, catalog) && l !in SoldOutLabels(items[..n], catalog) {
        assert ItemClass(items[n], catalog) == SoldOut && Label(catalog[items[n].product]) == l;
      }
      if l !in SoldOutLabels(items, catalog) {
        forall i | 0 <= i < |items| && ItemClass(items[i], catalog) == SoldOut
          ensures Label(catalog[items[i].product]) != l
        {
          if i < n {
            assert items[..n][i] == items[i];
          }
        }
      }
    }
  }

  /**
   * The shortage report names the last short line: whatever short lines come
   * before it are not reported.
   */
  lemma {:induction false} LastShortageReported(items: seq<Item>, catalog: Catalog, i: int)
    requires Stocked(items, catalog)
    requires 0 <= i < |items| && ItemClass(items[i], catalog) == Short
    requires forall j :: i < j < |items| ==> ItemClass(items[j], catalog) != Short
    ensures NoticeFor(items, catalog).shortage == Some(ShortageOf(items[i], catalog))
  {
    var n := |items| - 1;
    if i < n {
      assert forall j :: 0 <= j < n ==> items[..n][j] == items[j];
      LastShortageReported(items[..n], catalog, i);
    }
  }

  /** A product no line asks for keeps its stock. */
  lemma {:induction false} QtyOfAbsent(items: seq<Item>, p: ProductRef)
    requires forall i :: 0 <= i < |items| ==> items[i].product != p
    ensures QtyOf(items, p) == 0
  {
    if |items| > 0 {
      QtyOfAbsent(items[..|items| - 1], p);
    }
  }

  /** Each product on at most one line. */
  predicate DistinctProducts(items: seq<Item>) {
    forall i, j :: 0 <= i < j < |items| ==> items[i].product != items[j].product
  }

  /** With each product on one line, the product loses exactly that line's quantity. */
  lemma {:induction false} QtyOfDistinct(items: seq<Item>, i: int)
    requires DistinctProducts(items)
    requires 0 <= i < |items|
    ensures QtyOf(items, items[i].product) == items[i].qty
  {
    var n := |items| - 1;
    var front := items[..n];
    assert forall j :: 0 <= j < n ==> front[j] == items[j];
    if i == n {
      QtyOfAbsent(front, items[i].product);
    } else {
      QtyOfDistinct(front, i);
    }
  }

  /**
   * A placed order takes from every product exactly what its lines asked
   * for, and leaves the products no line asks for as they were.
   */
  lemma PlacedStock(s: Store, customer: Option<CustomerId>, form: Option<OrderDetails>)
    requires Ready(s)
    requires MakeOrder(s, customer, form).response.Placed?
    ensures var c := MakeOrder(s, customer, form).store.catalog;
            && c.Keys == s.catalog.Keys
            && (forall p :: p in s.catalog ==> c[p].stock == s.catalog[p].stock - QtyOf(Items(s.shop), p))
            && (forall p :: p in s.catalog && (forall k :: k in s.shop.cart.products ==> k.product != p) ==>
                  c[p] == s.catalog[p])
  {
    var items := Items(s.shop);
    forall p | p in s.catalog && (forall k :: k in s.shop.cart.products ==> k.product != p)
      ensures QtyOf(items, p) == 0
    {
      forall i | 0 <= i < |items| ensures items[i].product != p {
        assert s.shop.cart.products[i] in s.shop.cart.products;
      }
      QtyOfAbsent(items, p);
    }
  }

  /**
   * No overselling when each product is on one line: every product the cart
   * asks for keeps a non-negative stock, and if all stocks were
   * non-negative they all stay so.
   */
  lemma NoOversellWhenDistinct(s: Store, customer: Option<CustomerId>, form: Option<OrderDetails>)
    requires Ready(s)
    requires DistinctProducts(Items(s.shop))
    requires MakeOrder(s, customer, form).response.Placed?
    ensures var c := MakeOrder(s, customer, form).store.catalog;
            && (forall k :: k in s.shop.cart.products ==> c[k.product].stock >= 0)
            && ((forall p :: p in s.catalog ==> s.catalog[p].stock >= 0) ==>
                  forall p :: p in c ==> c[p].stock >= 0)
  {
    var items := Items(s.shop);
    var c := MakeOrder(s, customer, form).store.catalog;
    forall k | k in s.shop.cart.products ensures c[k.product].stock >= 0 {
      var i :| 0 <= i < |s.shop.cart.products| && s.shop.cart.products[i] == k;
      QtyOfDistinct(items, i);
      assert ItemClass(items[i], s.catalog) == Available;
    }
    forall p | p in s.catalog && s.catalog[p].stock >= 0 &&
               (forall k :: k in s.shop.cart.products ==> k.product != p)
      ensures c[p].stock >= 0
    {
      PlacedStock(s, customer, form);
    }
  }

  /**
   * Two lines for one product (one keyed by the session, one by the
   * customer) each pass the review against the same stock, and the commit
   * drives the stock negative: stock 5, two lines of 3, stock -1.
   */
  lemma DuplicateLinesOversell()
    ensures var p := ProductRef("album", 7);
            var k1 := LineKey(1, p, Session("s"));
            var k2 := LineKey(1, p, Customer(2));
            var s := Store(Shop(map[k1 := 3, k2 := 3], Cart(1, Some(2), [k1, k2], 6, false)),
                           map[p := Product("Artist", "Title", 5)], [], {});
            && Ready(s)
            && var r := MakeOrder(s, Some(2), Some(OrderDetails("a", "b", "c", "d", "self", 0, "")));
            && r.response.Placed?
            && r.store.catalog[p].stock == -1
  {
  }

  /**
   * A line of 10 against a stock of 3 is rejected with a report of
   * product, stock 3 and quantity 10, and nothing changes.
   */
  lemma ShortLineRejected()
    ensures var p := ProductRef("album", 1);
            var k := LineKey(4, p, Customer(9));
            var s := Store(Shop(map[k := 10], Cart(4, Some(9), [k], 10, false)),
                           map[p := Product("Kino", "Gruppa krovi", 3)], [], {});
            && Ready(s)
            && var r := MakeOrder(s, Some(9), Some(OrderDetails("a", "b", "c", "d", "self", 0, "")));
            && r.response == StockRejected(Notice(None, Some(Shortage("Kino-Gruppa krovi", 3, 10))))
            && r.store == s
  {
    var p := ProductRef("album", 1);
    var k := LineKey(4, p, Customer(9));
    var s := Store(Shop(map[k := 10], Cart(4, Some(9), [k], 10, false)),
                   map[p := Product("Kino", "Gruppa krovi", 3)], [], {});
    assert Items(s.shop) == [Item(p, 10)];
    ShortLineNotice(p, s.catalog);
  }

  /** The review of that one line: no sold-out part, and a report of stock 3 against quantity 10. */
  lemma ShortLineNotice(p: ProductRef, catalog: Catalog)
    requires catalog == map[p := Product("Kino", "Gruppa krovi", 3)]
    ensures NoticeFor([Item(p, 10)], catalog) == Notice(None, Some(Shortage("Kino-Gruppa krovi", 3, 10)))
  {
    var items := [Item(p, 10)];
    assert items[..0] == [];
    assert Label(catalog[p]) == "Kino-Gruppa krovi";
    assert Shortages(items, catalog) == [Shortage("Kino-Gruppa krovi", 3, 10)];
    assert SoldOutLabels(items, catalog) == [];
  }
}
