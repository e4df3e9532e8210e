/** Client code that drives the cart the way the page does, proved from the
    operations' contracts alone. */
module Scenarios {
  import opened Seqs
  import opened Catalog
  import opened CartItems
  import opened Orders
  import opened CartStore

  function P1(): Product {
    Product("p1", "Cafe", "", 500, "p1.png", true, 2, Some(Category("Bebidas", "drinks")))
  }

  function P2(): Product {
    Product("p2", "Pan", "", 300, "p2.png", false, 1, Some(Category("Comida", "food")))
  }

  /** Clicking "add" twice on one product gives one entry with quantity 2,
      never two entries, and the badge shows 2. */
  method AddSameProductTwice() returns (entries: seq<CartItem>, shown: int)
    ensures entries == [CartItem("p1", "Cafe", 500, "p1.png", 2)]
    ensures shown == 2
  {
    var catalog := [P1(), P2()];
    assert ProductIndex(catalog, "p1") == Some(0);
    var cart := new Cart(None);
    cart.AddToCart(catalog, "p1");
    assert cart.items == [NewItem(P1())];
    assert ItemIndex(cart.items, "p1") == Some(0);
    cart.AddToCart(catalog, "p1");
    entries, shown := cart.items, cart.badge;
    CountSingle(entries[0]);
  }

  /** A cart of two p1 at 500 and one p2 at 300, checked out with both writes
      succeeding: the order carries 1300 in two lines, and the cart ends up
      empty, stored empty, with the badge at 0. */
  method CheckoutSucceeds() returns (sub: Submission, left: seq<CartItem>, saved: Option<seq<CartItem>>, shown: int)
    ensures sub.order.totalAmount == 1300 && sub.order.status == "pending"
    ensures sub.lines == Some([OrderLine("o1", "p1", 2, 500), OrderLine("o1", "p2", 1, 300)])
    ensures sub.committed
    ensures left == [] && saved == Some([]) && shown == 0
  {
    var items := [CartItem("p1", "Cafe", 500, "p1.png", 2), CartItem("p2", "Pan", 300, "p2.png", 1)];
    var cart := new Cart(Some(items));
    assert Total(items) == 1300 by {
      assert items[1..] == [items[1]];
      CountSingle(items[1]);
    }
    assert OrderLines("o1", items) == [OrderLine("o1", "p1", 2, 500), OrderLine("o1", "p2", 1, 300)] by {
      assert items[1..][1..] == [];
    }
    sub := cart.ProcessOrder(Customer("Ana", "ana@example.com", "555"), Inserted("o1"), true);
    left, saved, shown := cart.items, cart.stored, cart.badge;
  }

  /** Reopening the page with two p1 and one p2 stored: the cart is restored
      and the badge shows 3. */
  method ReloadShowsStoredCount() returns (left: seq<CartItem>, shown: int)
    ensures left == [CartItem("p1", "Cafe", 500, "p1.png", 2), CartItem("p2", "Pan", 300, "p2.png", 1)]
    ensures shown == 3
  {
    var items := [CartItem("p1", "Cafe", 500, "p1.png", 2), CartItem("p2", "Pan", 300, "p2.png", 1)];
    var cart := new Cart(Some(items));
    left, shown := cart.items, cart.badge;
    assert items[1..] == [items[1]];
    CountSingle(items[1]);
  }

  /** The same cart when the order-items write fails: the order row was sent,
      but the cart and its stored copy are left as they were. */
  method CheckoutItemsWriteFails() returns (sub: Submission, left: seq<CartItem>, saved: Option<seq<CartItem>>)
    ensures sub.order.totalAmount == 1300 && !sub.committed
    ensures left == [CartItem("p1", "Cafe", 500, "p1.png", 2), CartItem("p2", "Pan", 300, "p2.png", 1)]
    ensures saved == Some(left)
  {
    var items := [CartItem("p1", "Cafe", 500, "p1.png", 2), CartItem("p2", "Pan", 300, "p2.png", 1)];
    var cart := new Cart(Some(items));
    assert Total(items) == 1300 by {
      assert items[1..] == [items[1]];
      CountSingle(items[1]);
    }
    sub := cart.ProcessOrder(Customer("Ana", "ana@example.com", "555"), Inserted("o1"), false);
    left, saved := cart.items, cart.stored;
  }

  /** Pressing "+" in the cart panel after adding one product: the cart holds
      two units, but the badge, as written, still shows 1. */
  method StaleBadgeAfterIncrement() returns (shown: int, actual: int)
    ensures shown == 1 && actual == 2
  {
    var catalog := [P1()];
    assert ProductIndex(catalog, "p1") == Some(0);
    var cart := new Cart(None);
    cart.AddToCart(catalog, "p1");
    assert cart.items == [NewItem(P1())];
    CountSingle(cart.items[0]);
    assert ItemIndex(cart.items, "p1") == Some(0);
    cart.UpdateQuantity("p1", 1);
    shown, actual := cart.badge, Count(cart.items);
    CountSingle(cart.items[0]);
  }

  /** The same clicks with the badge refreshed on every save: it shows 2. */
  method BadgeAfterIncrement() returns (shown: int, actual: int)
    ensures shown == 2 && actual == 2
  {
    var catalog := [P1()];
    assert ProductIndex(catalog, "p1") == Some(0);
    var cart := new Cart(None);
    cart.AddToCart(catalog, "p1");
    assert cart.items == [NewItem(P1())];
    assert ItemIndex(cart.items, "p1") == Some(0);
    cart.UpdateQuantityAndCount("p1", 1);
    shown, actual := cart.badge, Count(cart.items);
    CountSingle(cart.items[0]);
  }

  /** "-" on the only unit of a product removes its entry. */
  method DecrementToZero() returns (left: seq<CartItem>, saved: Option<seq<CartItem>>)
    ensures left == [] && saved == Some([])
  {
    var cart := new Cart(Some([CartItem("p1", "Cafe", 500, "p1.png", 1)]));
    assert ItemIndex(cart.items, "p1") == Some(0);
    cart.UpdateQuantity("p1", -1);
    left, saved := cart.items, cart.stored;
  }

  /** Filtering by "drinks" keeps only the drinks product; "all" keeps both,
      in order. */
  method FilterByCategory() returns (drinks: seq<Product>, all: seq<Product>)
    ensures drinks == [P1()] && all == [P1(), P2()]
  {
    var catalog := [P1(), P2()];
    drinks := CategoryFilter(catalog, "drinks");
    all := CategoryFilter(catalog, "all");
    assert catalog[1..][1..] == [];
  }

  function Priced(id: string, price: int): Product {
    Product(id, id, "", price, "", false, 0, None)
  }

  /** Three products that sort to one order only: the lowest price first. */
  lemma SortedThree(k: SortKey, s: seq<Product>, a: Product, b: Product, c: Product)
    requires multiset(s) == multiset([a, b, c])
    requires SortedBy(k, s)
    requires Before(k, a, b) && !Before(k, b, a) && Before(k, b, c) && !Before(k, c, b)
    ensures s == [a, b, c]
  {
    assert |s| == 3 by {
      assert |multiset(s)| == |s|;
    }
    assert !Before(k, c, a) by {
      if Before(k, c, a) {
        BeforeTransitive(k, b, c, a);
      }
    }
    assert a in multiset(s) && b in multiset(s) && c in multiset(s);
    assert s[0] in multiset([a, b, c]) && s[1] in multiset([a, b, c]) && s[2] in multiset([a, b, c]);
    assert Before(k, s[0], s[1]) && Before(k, s[1], s[2]) && Before(k, s[0], s[2]);
  }

  /** Sorting prices 10, 5, 20 by `price-asc` gives 5, 10, 20. */
  method SortByPriceAscending() returns (prices: seq<int>)
    ensures prices == [5, 10, 20]
  {
    var p10, p5, p20 := Priced("a", 10), Priced("b", 5), Priced("c", 20);
    var products := new Product[3] [p10, p5, p20];
    assert products[..] == [p10, p5, p20];
    assert multiset([p10, p5, p20]) == multiset([p5, p10, p20]);
    SortProducts(products, "price-asc");
    SortedThree(PriceAsc, products[..], p5, p10, p20);
    assert products[0] == p5 && products[1] == p10 && products[2] == p20;
    prices := [products[0].price, products[1].price, products[2].price];
  }

  /** Sorting prices 10, 5, 20 by `price-desc` gives 20, 10, 5. */
  method SortByPriceDescending() returns (prices: seq<int>)
    ensures prices == [20, 10, 5]
  {
    var p10, p5, p20 := Priced("a", 10), Priced("b", 5), Priced("c", 20);
    var products := new Product[3] [p10, p5, p20];
    assert products[..] == [p10, p5, p20];
    assert multiset([p10, p5, p20]) == multiset([p20, p10, p5]);
    SortProducts(products, "price-desc");
    SortedThree(PriceDesc, products[..], p20, p10, p5);
    assert products[0] == p20 && products[1] == p10 && products[2] == p5;
    prices := [products[0].price, products[1].price, products[2].price];
  }
}
