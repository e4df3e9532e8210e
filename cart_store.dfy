/** The shopping cart as the page keeps it: the module-level `cart` array, its
    mirror under the `cart` key of local storage, and the count badge in the
    header. Each operation changes the array in place and then writes the whole
    array back to storage. */
module CartStore {
  import opened Seqs
  import opened Catalog
  import opened CartItems
  import opened Orders

  class Cart {
    /** The entries, in the order they were first added. */
    var items: seq<CartItem>
    /** The value under the storage key `cart`; None while the key is missing. */
    var stored: Option<seq<CartItem>>
    /** The number the header badge shows. */
    var badge: int

    /** The storage copy equals the cart. */
    predicate Saved()
      reads this
    {
      stored == Some(items)
    }

    /** The badge shows the current item count. */
    predicate BadgeCurrent()
      reads this
    {
      badge == Count(items)
    }

    /** Page start-up: the cart is the stored entries, or empty when the key is
        missing, and the start-up handler then refreshes the badge from it. */
    constructor (persisted: Option<seq<CartItem>>)
      ensures persisted.Some? ==> items == persisted.value
      ensures persisted.None? ==> items == []
      ensures stored == persisted
      ensures BadgeCurrent()
    {
      var entries := if persisted.Some? then persisted.value else [];
      items := entries;
      stored := persisted;
      badge := Count(entries);
    }

    /** `saveCart`: overwrite the stored copy with the whole cart. */
    method SaveCart()
      modifies this`stored
      ensures Saved()
    {
      stored := Some(items);
    }

    /** `updateCartCount`: show the sum of the quantities on the badge. */
    method UpdateCartCount()
      modifies this`badge
      ensures BadgeCurrent()
    {
      badge := Count(items);
    }

    /** `addToCart`: an unknown product id is ignored; a product already in the
        cart gets one more unit; a new product is appended with quantity 1. */
    method AddToCart(catalog: seq<Product>, productId: string)
      modifies this
      ensures items == Added(old(items), catalog, productId)
      ensures ProductIndex(catalog, productId).None? ==>
        stored == old(stored) && badge == old(badge)
      ensures ProductIndex(catalog, productId).Some? ==> Saved() && BadgeCurrent()
      ensures old(WellFormed(items)) ==> WellFormed(items)
    {
      ghost var before := items;
      var k := ProductIndex(catalog, productId);
      if k.None? {
        return;
      }
      var j := ItemIndex(items, productId);
      if j.Some? {
        items := items[j.value := items[j.value].(quantity := items[j.value].quantity + 1)];
      } else {
        items := items + [NewItem(catalog[k.value])];
      }
      SaveCart();
      UpdateCartCount();
      if WellFormed(before) {
        AddWellFormed(before, catalog, productId);
      }
    }

    /** `removeFromCart`: drop every entry with the id. */
    method RemoveFromCart(productId: string)
      modifies this
      ensures items == Removed(old(items), productId)
      ensures Saved() && BadgeCurrent()
      ensures old(WellFormed(items)) ==> WellFormed(items)
    {
      ghost var before := items;
      items := Removed(items, productId);
      SaveCart();
      UpdateCartCount();
      if WellFormed(before) {
        RemoveWellFormed(before, productId);
      }
    }

    /** `updateQuantity`, as written: an unknown id is ignored; a quantity that
        reaches 0 or less removes the product; otherwise the new quantity is
        saved, but the badge is not refreshed and keeps its old number. */
    method UpdateQuantity(productId: string, change: int)
      modifies this
      ensures items == Updated(old(items), productId, change)
      ensures ItemIndex(old(items), productId).None? ==>
        stored == old(stored) && badge == old(badge)
      ensures ItemIndex(old(items), productId).Some? ==> Saved()
      ensures (ItemIndex(old(items), productId).Some? &&
               old(items)[ItemIndex(old(items), productId).value].quantity + change <= 0) ==> BadgeCurrent()
      ensures (ItemIndex(old(items), productId).Some? &&
               old(items)[ItemIndex(old(items), productId).value].quantity + change > 0) ==> badge == old(badge)
      ensures old(WellFormed(items)) ==> WellFormed(items)
    {
      ghost var before := items;
      var j := ItemIndex(items, productId);
      if j.None? {
        return;
      }
      var quantity := items[j.value].quantity + change;
      items := items[j.value := items[j.value].(quantity := quantity)];
      if quantity <= 0 {
        assert Removed(items, productId) == Removed(before, productId) by {
          RemoveAfterUpdate(before, j.value, quantity);
        }
        RemoveFromCart(productId);
      } else {
        SaveCart();
      }
      if WellFormed(before) {
        UpdateWellFormed(before, productId, change);
      }
    }

    /** `updateQuantity` with the badge refreshed on every path that saves, as
        `addToCart` and `removeFromCart` do. */
    method UpdateQuantityAndCount(productId: string, change: int)
      modifies this
      ensures items == Updated(old(items), productId, change)
      ensures ItemIndex(old(items), productId).None? ==>
        stored == old(stored) && badge == old(badge)
      ensures ItemIndex(old(items), productId).Some? ==> Saved() && BadgeCurrent()
      ensures old(WellFormed(items)) ==> WellFormed(items)
    {
      ghost var before := items;
      var j := ItemIndex(items, productId);
      if j.None? {
        return;
      }
      var quantity := items[j.value].quantity + change;
      items := items[j.value := items[j.value].(quantity := quantity)];
      if quantity <= 0 {
        assert Removed(items, productId) == Removed(before, productId) by {
          RemoveAfterUpdate(before, j.value, quantity);
        }
        RemoveFromCart(productId);
      } else {
        SaveCart();
        UpdateCartCount();
      }
      if WellFormed(before) {
        UpdateWellFormed(before, productId, change);
      }
    }

    /** `processOrder`: the order row is sent with the cart total; if it comes
        back with a row (or the cart is empty) the order lines are sent; the
        cart is emptied, saved and counted only when that second write
        succeeds too. On any failure the cart, its stored copy and the badge
        stay as they were. */
    method ProcessOrder(customer: Customer, first: OrderInsert, itemsWriteOk: bool)
      returns (sub: Submission)
      modifies this
      ensures sub.order == NewOrder(customer, old(items))
      ensures sub.lines == ItemsPayload(first, old(items))
      ensures sub.committed <==> sub.lines.Some? && itemsWriteOk
      ensures sub.committed ==> items == [] && Saved() && BadgeCurrent()
      ensures !sub.committed ==> items == old(items) && stored == old(stored) && badge == old(badge)
    {
      var order := NewOrder(customer, items);
      if first.InsertFailed? {
        return Submission(order, None, false);
      }
      if first.InsertedNoRow? && items != [] {
        return Submission(order, None, false);
      }
      var lines := if first.Inserted? then OrderLines(first.orderId, items) else [];
      if !itemsWriteOk {
        return Submission(order, Some(lines), false);
      }
      items := [];
      SaveCart();
      UpdateCartCount();
      sub := Submission(order, Some(lines), true);
    }
  }

  /** Raising entry j's quantity before filtering its product out makes no
      difference to what remains. */
  lemma RemoveAfterUpdate(items: seq<CartItem>, j: nat, quantity: int)
    requires j < |items|
    ensures Removed(items[j := items[j].(quantity := quantity)], items[j].id) == Removed(items, items[j].id)
  {
    var id := items[j].id;
    var f := (i: CartItem) => i.id != id;
    var x := items[j].(quantity := quantity);
    SplitAt(items, j);
    SplitAt(items[j := x], j);
    assert items[j := x][..j] == items[..j] && items[j := x][j + 1..] == items[j + 1..];
    FilterConcat(f, items[..j], [items[j]] + items[j + 1..]);
    FilterConcat(f, [items[j]], items[j + 1..]);
    FilterConcat(f, items[..j], [x] + items[j + 1..]);
    FilterConcat(f, [x], items[j + 1..]);
    assert [x][1..] == [] && [items[j]][1..] == [];
    assert Filter(f, [x]) == [] == Filter(f, [items[j]]);
  }
}
