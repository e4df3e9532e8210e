/** Cart entries and the pure effect of each cart operation on the sequence of
    entries: adding a product, removing a product, changing a quantity, and the
    two reductions (item count and total) shown to the shopper. */
module CartItems {
  import opened Seqs
  import opened Catalog

  /** One cart entry as stored: the product's id, name, unit price (cents) and
      image captured when it was first added, and the quantity. */
  datatype CartItem = CartItem(id: string, name: string, price: int, imageUrl: string, quantity: int)

  /** The entry `addToCart` appends for a product not yet in the cart. */
  function NewItem(p: Product): (r: CartItem)
    ensures r.id == p.id && r.name == p.name && r.price == p.price && r.imageUrl == p.imageUrl
    ensures r.quantity == 1
  {
    CartItem(p.id, p.name, p.price, p.imageUrl, 1)
  }

  /** At most one entry per product id. */
  predicate DistinctIds(items: seq<CartItem>) {
    forall i, j :: 0 <= i < j < |items| ==> items[i].id != items[j].id
  }

  /** Every quantity is at least 1. */
  predicate AllPositive(items: seq<CartItem>) {
    forall i :: 0 <= i < |items| ==> items[i].quantity >= 1
  }

  /** The cart invariant the operations maintain. */
  predicate WellFormed(items: seq<CartItem>) {
    DistinctIds(items) && AllPositive(items)
  }

  /** The badge count: the sum of the quantities. (`reduce` accumulates from the
      left; integer addition makes the order irrelevant.) */
  function Count(items: seq<CartItem>): (n: int)
    ensures AllPositive(items) ==> n >= |items|
  {
    if items == [] then 0 else items[0].quantity + Count(items[1..])
  }

  /** The cart total: the sum of price times quantity over the entries. */
  function Total(items: seq<CartItem>): (t: int)
    ensures (forall i :: 0 <= i < |items| ==> items[i].price >= 0 && items[i].quantity >= 0) ==> t >= 0
  {
    if items == [] then 0 else items[0].price * items[0].quantity + Total(items[1..])
  }

  lemma {:induction false} CountConcat(a: seq<CartItem>, b: seq<CartItem>)
    ensures Count(a + b) == Count(a) + Count(b)
    ensures Total(a + b) == Total(a) + Total(b)
  {
    if a == [] {
      assert a + b == b;
    } else {
      assert (a + b)[1..] == a[1..] + b;
      CountConcat(a[1..], b);
    }
  }

  lemma SplitAt(items: seq<CartItem>, j: nat)
    requires j < |items|
    ensures items == items[..j] + ([items[j]] + items[j + 1..])
  {
  }

  /** Count and total of a one-entry cart. */
  lemma CountSingle(x: CartItem)
    ensures Count([x]) == x.quantity && Total([x]) == x.price * x.quantity
  {
    assert [x][1..] == [];
  }

  /** Replacing one entry changes the count and total by that entry's difference. */
  lemma CountUpdate(items: seq<CartItem>, j: nat, x: CartItem)
    requires j < |items|
    ensures Count(items[j := x]) == Count(items) - items[j].quantity + x.quantity
    ensures Total(items[j := x]) == Total(items) - items[j].price * items[j].quantity + x.price * x.quantity
  {
    var pre, post := items[..j], items[j + 1..];
    SplitAt(items, j);
    SplitAt(items[j := x], j);
    assert items[j := x][..j] == pre && items[j := x][j + 1..] == post;
    CountConcat(pre, [items[j]] + post);
    CountConcat([items[j]], post);
    CountConcat(pre, [x] + post);
    CountConcat([x], post);
    CountSingle(items[j]);
    CountSingle(x);
  }

  /** `catalog.find(p => p.id === productId)`. */
  function ProductIndex(catalog: seq<Product>, productId: string): (r: Option<nat>)
    ensures r.Some? ==> r.value < |catalog| && catalog[r.value].id == productId
    ensures r.Some? ==> forall k :: 0 <= k < r.value ==> catalog[k].id != productId
    ensures r.None? <==> forall k :: 0 <= k < |catalog| ==> catalog[k].id != productId
  {
    FirstIndex((p: Product) => p.id == productId, catalog)
  }

  /** `cart.find(item => item.id === productId)`: the first entry with that id. */
  function ItemIndex(items: seq<CartItem>, productId: string): (r: Option<nat>)
    ensures r.Some? ==> r.value < |items| && items[r.value].id == productId
    ensures r.Some? ==> forall k :: 0 <= k < r.value ==> items[k].id != productId
    ensures r.None? <==> forall k :: 0 <= k < |items| ==> items[k].id != productId
  {
    FirstIndex((i: CartItem) => i.id == productId, items)
  }

  /** The cart after `addToCart(productId)` against the catalog snapshot. */
  function Added(items: seq<CartItem>, catalog: seq<Product>, productId: string): (r: seq<CartItem>)
    ensures |items| <= |r| <= |items| + 1
    ensures forall i :: 0 <= i < |items| && items[i].id != productId ==> r[i] == items[i]
  {
    match ProductIndex(catalog, productId)
    case None => items
    case Some(k) =>
      match ItemIndex(items, productId)
      case Some(j) => items[j := items[j].(quantity := items[j].quantity + 1)]
      case None => items + [NewItem(catalog[k])]
  }

  /** The cart after `removeFromCart(productId)`: every entry with another id. */
  function Removed(items: seq<CartItem>, productId: string): (r: seq<CartItem>)
    ensures forall i :: 0 <= i < |r| ==> r[i].id != productId
  {
    Filter((i: CartItem) => i.id != productId, items)
  }

  /** The cart after `updateQuantity(productId, change)`. */
  function Updated(items: seq<CartItem>, productId: string, change: int): (r: seq<CartItem>)
    ensures |r| <= |items|
    ensures forall x :: x in r && x.id != productId ==> x in items
  {
    match ItemIndex(items, productId)
    case None => items
    case Some(j) =>
      if items[j].quantity + change <= 0 then Removed(items, productId)
      else items[j := items[j].(quantity := items[j].quantity + change)]
  }

  // ---------------------------------------------------------------------------
  // addToCart

  /** An id absent from the catalog leaves the cart as it was. */
  lemma AddUnknownProduct(items: seq<CartItem>, catalog: seq<Product>, productId: string)
    requires forall k :: 0 <= k < |catalog| ==> catalog[k].id != productId
    ensures Added(items, catalog, productId) == items
  {
  }

  /** A product already in the cart: its first entry's quantity goes up by
      exactly one; length, order and every other entry are unchanged. */
  lemma AddExistingProduct(items: seq<CartItem>, catalog: seq<Product>, productId: string, j: nat)
    requires exists k :: 0 <= k < |catalog| && catalog[k].id == productId
    requires ItemIndex(items, productId) == Some(j)
    ensures var r := Added(items, catalog, productId);
      |r| == |items| &&
      r[j] == items[j].(quantity := items[j].quantity + 1) &&
      (forall i :: 0 <= i < |items| && i != j ==> r[i] == items[i])
  {
  }

  /** A catalog product not yet in the cart is appended as a new entry with
      quantity 1 and the product's id, name, price and image. */
  lemma AddNewProduct(items: seq<CartItem>, catalog: seq<Product>, productId: string, k: nat)
    requires ProductIndex(catalog, productId) == Some(k)
    requires forall i :: 0 <= i < |items| ==> items[i].id != productId
    ensures var r := Added(items, catalog, productId);
      |r| == |items| + 1 && r[..|items|] == items &&
      r[|items|] == CartItem(productId, catalog[k].name, catalog[k].price, catalog[k].imageUrl, 1)
  {
  }

  /** Adding keeps the cart invariant. */
  lemma AddWellFormed(items: seq<CartItem>, catalog: seq<Product>, productId: string)
    requires WellFormed(items)
    ensures WellFormed(Added(items, catalog, productId))
  {
    var r := Added(items, catalog, productId);
    match ProductIndex(catalog, productId)
    case None =>
    case Some(k) =>
      match ItemIndex(items, productId)
      case Some(j) =>
      case None =>
        assert forall i :: 0 <= i < |items| ==> r[i] == items[i];
  }

  /** Adding a catalog product raises the count by one and the total by one
      unit price: the stored entry's price when the product is already in the
      cart, the catalog price when it is appended. */
  lemma AddCountAndTotal(items: seq<CartItem>, catalog: seq<Product>, productId: string, k: nat)
    requires ProductIndex(catalog, productId) == Some(k)
    ensures Count(Added(items, catalog, productId)) == Count(items) + 1
    ensures Total(Added(items, catalog, productId)) ==
      Total(items) + match ItemIndex(items, productId)
                     case Some(j) => items[j].price
                     case None => catalog[k].price
  {
    match ItemIndex(items, productId)
    case Some(j) =>
      var x := items[j];
      var y := x.(quantity := x.quantity + 1);
      assert Added(items, catalog, productId) == items[j := y];
      CountUpdate(items, j, y);
      assert y.price * y.quantity == x.price * x.quantity + x.price by {
        MulAddOne(x.price, x.quantity);
      }
    case None =>
      var x := NewItem(catalog[k]);
      assert Added(items, catalog, productId) == items + [x];
      CountConcat(items, [x]);
      CountSingle(x);
  }

  lemma MulAddOne(a: int, b: int)
    ensures a * (b + 1) == a * b + a
  {
  }

  /** Adding the same product twice to a cart without it gives one entry with
      quantity 2, never two entries. */
  lemma AddTwice(items: seq<CartItem>, catalog: seq<Product>, productId: string, k: nat)
    requires ProductIndex(catalog, productId) == Some(k)
    requires forall i :: 0 <= i < |items| ==> items[i].id != productId
    ensures var r := Added(Added(items, catalog, productId), catalog, productId);
      |r| == |items| + 1 && r[..|items|] == items &&
      r[|items|] == CartItem(productId, catalog[k].name, catalog[k].price, catalog[k].imageUrl, 2)
  {
    var once := Added(items, catalog, productId);
    assert once == items + [NewItem(catalog[k])];
    assert once[|items|].id == productId;
    assert forall i :: 0 <= i < |items| ==> once[i] == items[i];
    assert ItemIndex(once, productId) == Some(|items|);
  }

  // ---------------------------------------------------------------------------
  // removeFromCart

  /** Every entry with another id stays, as often as it was there; no entry
      with the removed id stays. */
  lemma RemoveKeepsOthers(items: seq<CartItem>, productId: string)
    ensures forall x {:trigger multiset(Removed(items, productId))[x]} ::
      multiset(Removed(items, productId))[x] == if x.id != productId then multiset(items)[x] else 0
  {
    FilterMultiset((i: CartItem) => i.id != productId, items);
  }

  /** The remaining entries keep their original order. */
  lemma RemoveKeepsOrder(items: seq<CartItem>, productId: string)
    ensures SubsequenceOf(Removed(items, productId), items)
  {
    FilterIsSubsequence((i: CartItem) => i.id != productId, items);
  }

  /** Removing an id that is not in the cart changes nothing. */
  lemma RemoveAbsent(items: seq<CartItem>, productId: string)
    requires forall i :: 0 <= i < |items| ==> items[i].id != productId
    ensures Removed(items, productId) == items
  {
    FilterKeepsAll((i: CartItem) => i.id != productId, items);
  }

  /** Removing twice is removing once. */
  lemma RemoveIdempotent(items: seq<CartItem>, productId: string)
    ensures Removed(Removed(items, productId), productId) == Removed(items, productId)
  {
    FilterIdempotent((i: CartItem) => i.id != productId, items);
  }

  /** A filter that rejects exactly the element at index j drops just that one. */
  lemma {:induction false} FilterDropsOne(f: CartItem -> bool, items: seq<CartItem>, j: nat)
    requires j < |items| && !f(items[j])
    requires forall i :: 0 <= i < |items| && i != j ==> f(items[i])
    ensures Filter(f, items) == items[..j] + items[j + 1..]
  {
    if j == 0 {
      FilterKeepsAll(f, items[1..]);
    } else {
      FilterDropsOne(f, items[1..], j - 1);
      assert items[1..][..j - 1] == items[1..j];
      assert items[1..][j..] == items[j + 1..];
      assert items[..j] == [items[0]] + items[1..j];
    }
  }

  /** Distinct ids survive any filter. */
  lemma {:induction false} FilterDistinct(f: CartItem -> bool, items: seq<CartItem>)
    requires DistinctIds(items)
    ensures DistinctIds(Filter(f, items))
  {
    if items != [] {
      FilterDistinct(f, items[1..]);
      var rest := Filter(f, items[1..]);
      FilterMultiset(f, items[1..]);
      forall i | 0 <= i < |rest|
        ensures rest[i].id != items[0].id
      {
        assert multiset(rest)[rest[i]] > 0;
        assert rest[i] in items[1..];
      }
    }
  }

  /** Removing keeps the cart invariant. */
  lemma RemoveWellFormed(items: seq<CartItem>, productId: string)
    requires WellFormed(items)
    ensures WellFormed(Removed(items, productId))
  {
    var r := Removed(items, productId);
    FilterDistinct((i: CartItem) => i.id != productId, items);
    RemoveKeepsOthers(items, productId);
    forall i | 0 <= i < |r|
      ensures r[i].quantity >= 1
    {
      assert multiset(r)[r[i]] > 0;
      assert r[i] in items;
    }
  }

  /** In a well-formed cart, removing entry j's product takes out exactly that
      entry. */
  lemma RemoveOne(items: seq<CartItem>, j: nat)
    requires DistinctIds(items) && j < |items|
    ensures Removed(items, items[j].id) == items[..j] + items[j + 1..]
  {
    var id := items[j].id;
    FilterDropsOne((i: CartItem) => i.id != id, items, j);
  }

  /** Dropping entry j lowers the count by its quantity and the total by its
      subtotal. */
  lemma CountDropOne(items: seq<CartItem>, j: nat)
    requires j < |items|
    ensures Count(items[..j] + items[j + 1..]) == Count(items) - items[j].quantity
    ensures Total(items[..j] + items[j + 1..]) == Total(items) - items[j].price * items[j].quantity
  {
    var x, pre, post := items[j], items[..j], items[j + 1..];
    SplitAt(items, j);
    CountConcat(pre, [x] + post);
    CountConcat([x], post);
    CountConcat(pre, post);
    CountSingle(x);
  }

  /** ... so removing it lowers the count by its quantity and the total by its
      subtotal. */
  lemma RemoveCountAndTotal(items: seq<CartItem>, j: nat)
    requires DistinctIds(items) && j < |items|
    ensures Count(Removed(items, items[j].id)) == Count(items) - items[j].quantity
    ensures Total(Removed(items, items[j].id)) == Total(items) - items[j].price * items[j].quantity
  {
    RemoveOne(items, j);
    CountDropOne(items, j);
  }

  // ---------------------------------------------------------------------------
  // updateQuantity

  /** An id not in the cart: nothing changes. */
  lemma UpdateAbsent(items: seq<CartItem>, productId: string, change: int)
    requires forall i :: 0 <= i < |items| ==> items[i].id != productId
    ensures Updated(items, productId, change) == items
  {
  }

  /** A quantity that would drop to zero or below removes the product: the
      result is exactly what `removeFromCart` leaves. */
  lemma UpdateToZeroRemoves(items: seq<CartItem>, productId: string, change: int, j: nat)
    requires ItemIndex(items, productId) == Some(j)
    requires items[j].quantity + change <= 0
    ensures Updated(items, productId, change) == Removed(items, productId)
    ensures var r := Updated(items, productId, change);
      forall i :: 0 <= i < |r| ==> r[i].id != productId
  {
  }

  /** Otherwise only that entry's quantity changes, by `change`, and the count
      changes by `change` too. */
  lemma UpdateChangesOneQuantity(items: seq<CartItem>, productId: string, change: int, j: nat)
    requires ItemIndex(items, productId) == Some(j)
    requires items[j].quantity + change > 0
    ensures var r := Updated(items, productId, change);
      |r| == |items| &&
      r[j] == items[j].(quantity := items[j].quantity + change) &&
      (forall i :: 0 <= i < |items| && i != j ==> r[i] == items[i]) &&
      Count(r) == Count(items) + change
  {
    CountUpdate(items, j, items[j].(quantity := items[j].quantity + change));
  }

  /** Changing a quantity keeps the cart invariant; in particular no entry is
      ever left with a quantity below 1. */
  lemma UpdateWellFormed(items: seq<CartItem>, productId: string, change: int)
    requires WellFormed(items)
    ensures WellFormed(Updated(items, productId, change))
  {
    match ItemIndex(items, productId)
    case None =>
    case Some(j) =>
      if items[j].quantity + change <= 0 {
        RemoveWellFormed(items, productId);
      }
  }
}
