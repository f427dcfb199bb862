/**
 * The cart line-item views: add to cart, delete from cart and change the
 * quantity of a line. Each resolves one line item by get-or-create on
 * (cart, product, owner), changes the line table and the cart's product
 * list, and finishes by refreshing the cart's totals.
 */
module CartItems {
  import opened Common

  type CustomerId = nat
  type ProductId = nat
  type CartId = nat

  /** A generic product reference: the content type's model name and the object id. */
  datatype ProductRef = ProductRef(kind: string, id: ProductId)

  /** Who a line item belongs to: a customer or an anonymous session, never both. */
  datatype Owner = Customer(customer: CustomerId) | Session(key: string)

  /** The fields get-or-create looks a line item up by. */
  datatype LineKey = LineKey(cart: CartId, product: ProductRef, owner: Owner)

  /**
   * The request's current cart: its owning customer (absent for an anonymous
   * cart), the line items attached to it in attachment order, the cached
   * total quantity and the terminal `in_order` flag.
   */
  datatype Cart = Cart(id: CartId, owner: Option<CustomerId>, products: seq<LineKey>, totalQty: int, inOrder: bool)

  /** The line-item table (each line's quantity) together with the current cart. */
  datatype Shop = Shop(lines: map<LineKey, int>, cart: Cart)

  /** The requesting visitor: logged in, or anonymous with a session key. */
  datatype Visitor = Authenticated | Anonymous(sessionKey: string)

  /** The quantity a freshly created line item starts with (the model field's default, assumed to be 1). */
  const NewLineQty: int := 1

  /** An authenticated visitor is served a cart that records its owning customer. */
  predicate OwnerKnown(cart: Cart, who: Visitor) {
    who.Authenticated? ==> cart.owner.Some?
  }

  /** The owner a line is keyed by: the cart's customer when logged in, else the session key. */
  function OwnerFor(cart: Cart, who: Visitor): Owner
    requires OwnerKnown(cart, who)
  {
    match who
    case Authenticated => Customer(cart.owner.value)
    case Anonymous(key) => Session(key)
  }

  /** The key get-or-create uses for product `p` in this request. */
  function KeyFor(cart: Cart, who: Visitor, p: ProductRef): LineKey
    requires OwnerKnown(cart, who)
  {
    LineKey(cart.id, p, OwnerFor(cart, who))
  }

  predicate NoDup(ks: seq<LineKey>) {
    forall i, j :: 0 <= i < j < |ks| ==> ks[i] != ks[j]
  }

  /** Every line attached to the cart exists in the line table. */
  predicate Attached(s: Shop) {
    forall k :: k in s.cart.products ==> k in s.lines
  }

  function QtyAt(lines: map<LineKey, int>, k: LineKey): int {
    if k in lines then lines[k] else 0
  }

  /** Sum of the quantities of the listed lines. */
  function SumQty(lines: map<LineKey, int>, ks: seq<LineKey>): int {
    if |ks| == 0 then 0 else QtyAt(lines, ks[0]) + SumQty(lines, ks[1..])
  }

  /** The cart's cached total agrees with its attached lines. */
  predicate Totalled(s: Shop) {
    s.cart.totalQty == SumQty(s.lines, s.cart.products)
  }

  /** The invariant the three views keep. */
  predicate Wf(s: Shop) {
    && Attached(s)
    && NoDup(s.cart.products)
    && (forall k :: k in s.cart.products ==> k.cart == s.cart.id)
    && Totalled(s)
  }

  /**
   * Totals refresh. The real routine lives outside this model; this
   * placeholder is an assumption: it recomputes the cart's total quantity
   * from the lines attached to it and touches nothing else.
   */
  function Recalc(s: Shop): (r: Shop)
    ensures Totalled(r)
    ensures r.lines == s.lines
    ensures r.cart == s.cart.(totalQty := r.cart.totalQty)
  {
    s.(cart := s.cart.(totalQty := SumQty(s.lines, s.cart.products)))
  }

  /** Many-to-many `add`: attaching a line that is already attached changes nothing. */
  function Attach(ks: seq<LineKey>, k: LineKey): (r: seq<LineKey>)
    ensures k in r
    ensures forall x :: x in r <==> x in ks || x == k
    ensures k in ks ==> r == ks
    ensures k !in ks ==> r == ks + [k]
    ensures NoDup(ks) ==> NoDup(r)
  {
    if k in ks then ks else ks + [k]
  }

  /** `x` occurs in `ks` at some position before an occurrence of `y`. */
  predicate Before(ks: seq<LineKey>, x: LineKey, y: LineKey) {
    exists a, b :: 0 <= a < b < |ks| && ks[a] == x && ks[b] == y
  }

  /** Any two keys of `r` occur in `ks` in the same relative order. */
  predicate KeepsOrder(r: seq<LineKey>, ks: seq<LineKey>) {
    forall i, j :: 0 <= i < j < |r| ==> Before(ks, r[i], r[j])
  }

  /** Many-to-many `remove`: every occurrence of `k` goes; `WithoutKeepsOrder` shows the rest keep their order. */
  function Without(ks: seq<LineKey>, k: LineKey): (r: seq<LineKey>)
    ensures forall x :: x in r <==> x in ks && x != k
    ensures k !in ks ==> r == ks
    ensures NoDup(ks) ==> NoDup(r)
  {
    if |ks| == 0 then []
    else if ks[0] == k then Without(ks[1..], k)
    else
      var rest := Without(ks[1..], k);
      NoDupTail(ks);
      NoDupCons(ks[0], rest);
      [ks[0]] + rest
  }

  /** Removing `k` keeps every other key exactly as often as before. */
  lemma {:induction false} WithoutCounts(ks: seq<LineKey>, k: LineKey)
    ensures forall x :: multiset(Without(ks, k))[x] == if x == k then 0 else multiset(ks)[x]
  {
    if |ks| > 0 {
      var rest := Without(ks[1..], k);
      WithoutCounts(ks[1..], k);
      assert ks == [ks[0]] + ks[1..];
      assert multiset(ks) == multiset{ks[0]} + multiset(ks[1..]);
      if ks[0] != k {
        assert multiset([ks[0]] + rest) == multiset{ks[0]} + multiset(rest);
      }
    }
  }

  /** Removing `k` keeps any two remaining keys in their old relative order. */
  lemma {:induction false} WithoutKeepsOrder(ks: seq<LineKey>, k: LineKey)
    ensures KeepsOrder(Without(ks, k), ks)
  {
    if |ks| > 0 {
      var rest := Without(ks[1..], k);
      WithoutKeepsOrder(ks[1..], k);
      KeepsOrderTail(rest, ks);
      if ks[0] != k {
        KeepsOrderCons(rest, ks);
      }
    }
  }

  /** Order kept against the tail of `ks` is order kept against `ks`. */
  lemma KeepsOrderTail(r: seq<LineKey>, ks: seq<LineKey>)
    requires |ks| > 0 && KeepsOrder(r, ks[1..])
    ensures KeepsOrder(r, ks)
  {
    var t := ks[1..];
    forall i, j | 0 <= i < j < |r| ensures Before(ks, r[i], r[j]) {
      assert Before(t, r[i], r[j]);
      var a, b :| 0 <= a < b < |t| && t[a] == r[i] && t[b] == r[j];
      assert ks[a + 1] == r[i] && ks[b + 1] == r[j];
    }
  }

  /** Putting the head of `ks` in front of a tail-ordered `r` keeps the order. */
  lemma KeepsOrderCons(r: seq<LineKey>, ks: seq<LineKey>)
    requires |ks| > 0 && KeepsOrder(r, ks[1..])
    requires forall x :: x in r ==> x in ks[1..]
    ensures KeepsOrder([ks[0]] + r, ks)
  {
    var t := ks[1..];
    var r' := [ks[0]] + r;
    forall i, j | 0 <= i < j < |r'| ensures Before(ks, r'[i], r'[j]) {
      if i == 0 {
        assert r'[j] == r[j - 1] && r[j - 1] in r;
        var b :| 0 <= b < |t| && t[b] == r[j - 1];
        assert ks[0] == r'[0] && ks[b + 1] == r'[j];
      } else {
        assert r'[i] == r[i - 1] && r'[j] == r[j - 1];
        assert Before(t, r[i - 1], r[j - 1]);
        var a, b :| 0 <= a < b < |t| && t[a] == r[i - 1] && t[b] == r[j - 1];
        assert ks[a + 1] == r'[i] && ks[b + 1] == r'[j];
      }
    }
  }

  lemma NoDupTail(ks: seq<LineKey>)
    requires |ks| > 0
    ensures NoDup(ks) ==> NoDup(ks[1..]) && ks[0] !in ks[1..]
  {
  }

  lemma NoDupCons(x: LineKey, ks: seq<LineKey>)
    ensures x !in ks && NoDup(ks) ==> NoDup([x] + ks)
  {
  }

  /**
   * AddToCartView.get: get-or-create the line; only a newly created line is
   * attached to the cart. An existing line keeps its quantity.
   */
  function AddToCart(s: Shop, who: Visitor, p: ProductRef): (r: Shop)
    requires OwnerKnown(s.cart, who)
    ensures Totalled(r)
    ensures r.cart == s.cart.(products := r.cart.products, totalQty := r.cart.totalQty)
    ensures KeyFor(s.cart, who, p) in r.lines
    ensures KeyFor(s.cart, who, p) in s.lines ==>
              r.lines == s.lines && r.cart.products == s.cart.products
    ensures KeyFor(s.cart, who, p) !in s.lines ==>
              && r.lines == s.lines[KeyFor(s.cart, who, p) := NewLineQty]
              && r.cart.products == Attach(s.cart.products, KeyFor(s.cart, who, p))
    ensures forall k :: k in r.lines && k !in s.lines ==>
              && k.cart == s.cart.id && k.product == p
              && (who.Authenticated? ==> k.owner == Customer(s.cart.owner.value))
              && (who.Anonymous? ==> k.owner == Session(who.sessionKey))
  {
    var k := KeyFor(s.cart, who, p);
    if k in s.lines then Recalc(s)
    else Recalc(Shop(s.lines[k := NewLineQty], s.cart.(products := Attach(s.cart.products, k))))
  }

  /**
   * DeleteFromCartView.get: get-or-create the line, detach it and delete it.
   * A line that did not exist is created and deleted again.
   */
  function DeleteFromCart(s: Shop, who: Visitor, p: ProductRef): (r: Shop)
    requires OwnerKnown(s.cart, who)
    ensures Totalled(r)
    ensures r.cart == s.cart.(products := r.cart.products, totalQty := r.cart.totalQty)
    ensures KeyFor(s.cart, who, p) !in r.lines
    ensures KeyFor(s.cart, who, p) !in r.cart.products
    ensures forall k :: k != KeyFor(s.cart, who, p) ==>
              (k in r.lines <==> k in s.lines) && (k in r.lines ==> r.lines[k] == s.lines[k])
    ensures forall k :: k in r.cart.products <==> k in s.cart.products && k != KeyFor(s.cart, who, p)
    ensures KeepsOrder(r.cart.products, s.cart.products)
    ensures r.cart.products == Without(s.cart.products, KeyFor(s.cart, who, p))
  {
    var k := KeyFor(s.cart, who, p);
    WithoutKeepsOrder(s.cart.products, k);
    Recalc(Shop(s.lines - {k}, s.cart.(products := Without(s.cart.products, k))))
  }

  /**
   * ChangeQTYView.post: get-or-create the line and overwrite its quantity
   * with the submitted integer, unvalidated. A line created here is never
   * attached to the cart.
   */
  function ChangeQty(s: Shop, who: Visitor, p: ProductRef, qty: int): (r: Shop)
    requires OwnerKnown(s.cart, who)
    ensures Totalled(r)
    ensures r.cart == s.cart.(totalQty := r.cart.totalQty)
    ensures KeyFor(s.cart, who, p) in r.lines && r.lines[KeyFor(s.cart, who, p)] == qty
    ensures forall k :: k != KeyFor(s.cart, who, p) ==>
              (k in r.lines <==> k in s.lines) && (k in r.lines ==> r.lines[k] == s.lines[k])
  {
    var k := KeyFor(s.cart, who, p);
    Recalc(s.(lines := s.lines[k := qty]))
  }

  /** Failures of the product lookup that precedes every cart view. */
  datatype Fault = UnknownContentType(model: string) | UnknownSlug(slug: string)

  /** Content-type model name to (slug to object id). */
  type SlugIndex = map<string, map<string, ProductId>>

  /** Resolve the URL's content-type model and slug to a product; each lookup raises when nothing matches. */
  function Resolve(index: SlugIndex, model: string, slug: string): (r: Result<ProductRef, Fault>)
    ensures r.Ok? <==> model in index && slug in index[model]
    ensures r.Ok? ==> r.value.kind == model && r.value.id == index[model][slug]
    ensures model !in index ==> r == Err(UnknownContentType(model))
    ensures model in index && slug !in index[model] ==> r == Err(UnknownSlug(slug))
  {
    if model !in index then Err(UnknownContentType(model))
    else if slug !in index[model] then Err(UnknownSlug(slug))
    else Ok(ProductRef(model, index[model][slug]))
  }

  /** The three line-item views, as the request selects them. */
  datatype CartAction = Add | Delete | SetQty(qty: int)

  /** A whole cart request: resolve the product, then run the view; a failed lookup writes nothing. */
  function CartRequest(s: Shop, index: SlugIndex, who: Visitor, model: string, slug: string, action: CartAction): (r: Result<Shop, Fault>)
    requires OwnerKnown(s.cart, who)
    ensures r.Err? <==> Resolve(index, model, slug).Err?
    ensures r.Err? ==> r.error == Resolve(index, model, slug).error
    ensures r.Ok? ==> Totalled(r.value)
    ensures r.Ok? && action.Add? ==> r.value == AddToCart(s, who, Resolve(index, model, slug).value)
    ensures r.Ok? && action.Delete? ==> r.value == DeleteFromCart(s, who, Resolve(index, model, slug).value)
    ensures r.Ok? && action.SetQty? ==> r.value == ChangeQty(s, who, Resolve(index, model, slug).value, action.qty)
  {
    match Resolve(index, model, slug)
    case Err(e) => Err(e)
    case Ok(p) =>
      match action
      case Add => Ok(AddToCart(s, who, p))
      case Delete => Ok(DeleteFromCart(s, who, p))
      case SetQty(q) => Ok(ChangeQty(s, who, p, q))
  }

  /** Whatever view a successful request runs, the cart stays well formed. */
  lemma CartRequestKeepsWf(s: Shop, index: SlugIndex, who: Visitor, model: string, slug: string, action: CartAction)
    requires Wf(s) && OwnerKnown(s.cart, who)
    ensures var r := CartRequest(s, index, who, model, slug, action);
            r.Ok? ==> Wf(r.value)
  {
  }

  // ---------------------------------------------------------------------
  // Sums over attached lines

  /** The total only depends on the quantities of the listed lines. */
  lemma {:induction false} SumQtyFrame(l1: map<LineKey, int>, l2: map<LineKey, int>, ks: seq<LineKey>)
    requires forall i :: 0 <= i < |ks| ==> QtyAt(l1, ks[i]) == QtyAt(l2, ks[i])
    ensures SumQty(l1, ks) == SumQty(l2, ks)
  {
    if |ks| > 0 {
      SumQtyFrame(l1, l2, ks[1..]);
    }
  }

  lemma {:induction false} SumQtyAppend(lines: map<LineKey, int>, ks: seq<LineKey>, k: LineKey)
    ensures SumQty(lines, ks + [k]) == SumQty(lines, ks) + QtyAt(lines, k)
  {
    if |ks| > 0 {
      assert (ks + [k])[1..] == ks[1..] + [k];
      SumQtyAppend(lines, ks[1..], k);
    }
  }

  /** Detaching a line that occurs at most once removes exactly its quantity from the sum. */
  lemma {:induction false} SumQtyWithout(lines: map<LineKey, int>, ks: seq<LineKey>, k: LineKey)
    requires NoDup(ks)
    ensures SumQty(lines, Without(ks, k)) == SumQty(lines, ks) - (if k in ks then QtyAt(lines, k) else 0)
  {
    if |ks| > 0 {
      NoDupTail(ks);
      SumQtyWithout(lines, ks[1..], k);
      if ks[0] == k {
        assert k !in ks[1..];
      } else {
        assert (k in ks) == (k in ks[1..]);
        assert ([ks[0]] + Without(ks[1..], k))[1..] == Without(ks[1..], k);
      }
    }
  }

  /** Overwriting one line's quantity moves the sum by the difference, if that line is listed once. */
  lemma {:induction false} SumQtyUpdate(lines: map<LineKey, int>, ks: seq<LineKey>, k: LineKey, q: int)
    requires NoDup(ks)
    ensures SumQty(lines[k := q], ks) == SumQty(lines, ks) + (if k in ks then q - QtyAt(lines, k) else 0)
  {
    if |ks| > 0 {
      NoDupTail(ks);
      SumQtyUpdate(lines, ks[1..], k, q);
      if ks[0] == k {
        assert k !in ks[1..];
      } else {
        assert (k in ks) == (k in ks[1..]);
      }
    }
  }

  // ---------------------------------------------------------------------
  // Properties of the views

  /** Each view keeps the cart well formed. */
  lemma ViewsPreserveWf(s: Shop, who: Visitor, p: ProductRef, q: int)
    requires Wf(s) && OwnerKnown(s.cart, who)
    ensures Wf(AddToCart(s, who, p))
    ensures Wf(DeleteFromCart(s, who, p))
    ensures Wf(ChangeQty(s, who, p, q))
  {
  }

  /** Adding a product twice is the same as adding it once. */
  lemma AddIdempotent(s: Shop, who: Visitor, p: ProductRef)
    requires OwnerKnown(s.cart, who)
    ensures AddToCart(AddToCart(s, who, p), who, p) == AddToCart(s, who, p)
  {
  }

  /** Adding a product that already has a line changes nothing at all. */
  lemma AddExistingUnchanged(s: Shop, who: Visitor, p: ProductRef)
    requires Wf(s) && OwnerKnown(s.cart, who)
    requires KeyFor(s.cart, who, p) in s.lines
    ensures AddToCart(s, who, p) == s
  {
  }

  /** Adding a new product raises the cart's total by the new line's quantity. */
  lemma AddNewTotal(s: Shop, who: Visitor, p: ProductRef)
    requires Wf(s) && OwnerKnown(s.cart, who)
    requires KeyFor(s.cart, who, p) !in s.lines
    ensures AddToCart(s, who, p).cart.totalQty == s.cart.totalQty + NewLineQty
  {
    var k := KeyFor(s.cart, who, p);
    var l := s.lines[k := NewLineQty];
    assert k !in s.cart.products;
    SumQtyAppend(l, s.cart.products, k);
    SumQtyFrame(l, s.lines, s.cart.products);
  }

  /** Deleting a product that has no line leaves the cart exactly as it was. */
  lemma DeleteAbsentUnchanged(s: Shop, who: Visitor, p: ProductRef)
    requires Wf(s) && OwnerKnown(s.cart, who)
    requires KeyFor(s.cart, who, p) !in s.lines
    ensures DeleteFromCart(s, who, p) == s
  {
    var k := KeyFor(s.cart, who, p);
    assert s.lines - {k} == s.lines;
    assert k !in s.cart.products;
  }

  /** Deleting a product takes its line's quantity off the total when the line was attached. */
  lemma DeleteTotal(s: Shop, who: Visitor, p: ProductRef)
    requires Wf(s) && OwnerKnown(s.cart, who)
    ensures var k := KeyFor(s.cart, who, p);
            DeleteFromCart(s, who, p).cart.totalQty
              == s.cart.totalQty - (if k in s.cart.products then s.lines[k] else 0)
  {
    var k := KeyFor(s.cart, who, p);
    var rest := Without(s.cart.products, k);
    SumQtyWithout(s.lines, s.cart.products, k);
    SumQtyFrame(s.lines - {k}, s.lines, rest);
  }

  /**
   * Changing the quantity of an attached line moves the total by the
   * difference; for a line that is not attached the total does not move.
   */
  lemma ChangeQtyTotal(s: Shop, who: Visitor, p: ProductRef, q: int)
    requires Wf(s) && OwnerKnown(s.cart, who)
    ensures var k := KeyFor(s.cart, who, p);
            ChangeQty(s, who, p, q).cart.totalQty
              == s.cart.totalQty + (if k in s.cart.products then q - s.lines[k] else 0)
  {
    SumQtyUpdate(s.lines, s.cart.products, KeyFor(s.cart, who, p), q);
  }

  /**
   * A line created by a quantity change is never attached: adding the same
   * product afterwards finds the line, so it stays out of the cart and keeps
   * the submitted quantity.
   */
  lemma StrayLineNeverAttached(s: Shop, who: Visitor, p: ProductRef, q: int)
    requires Wf(s) && OwnerKnown(s.cart, who)
    requires KeyFor(s.cart, who, p) !in s.lines
    ensures var r := AddToCart(ChangeQty(s, who, p, q), who, p);
            && KeyFor(s.cart, who, p) !in r.cart.products
            && r.lines[KeyFor(s.cart, who, p)] == q
            && r.cart.totalQty == s.cart.totalQty
  {
    ChangeQtyTotal(s, who, p, q);
    assert KeyFor(s.cart, who, p) !in s.cart.products;
  }
}
