/** The product catalog as the storefront holds it in memory: the category
    filter and featured strip of `displayProducts`, and `sortProducts`, which
    sorts the product array in place by the key chosen in the sort selector. */
module Catalog {
  import opened Seqs

  /** The category joined onto a product (`categories { name, slug }`). */
  datatype Category = Category(name: string, slug: string)

  /** A product row. Prices are in cents and creation times are instants on an
      integer clock; `category` is None when the join found no category. */
  datatype Product = Product(
    id: string,
    name: string,
    description: string,
    price: int,
    imageUrl: string,
    featured: bool,
    createdAt: int,
    category: Option<Category>)

  /** The selector value that turns the category filter off. */
  const AllCategories: string := "all"

  /** `product.categories?.slug === currentCategory`: a product without a
      category never matches. */
  predicate HasSlug(p: Product, slug: string): (r: bool)
    ensures p.category.None? ==> !r
    ensures r ==> p.category.value.slug == slug
  {
    p.category.Some? && p.category.value.slug == slug
  }

  /** The products listed for the active category, in catalog order. */
  function CategoryFilter(products: seq<Product>, category: string): (r: seq<Product>)
    ensures category == AllCategories ==> r == products
    ensures category != AllCategories ==> forall i :: 0 <= i < |r| ==> HasSlug(r[i], category)
  {
    if category == AllCategories then products
    else Filter((p: Product) => HasSlug(p, category), products)
  }

  /** The featured strip: the featured products among those listed. */
  function FeaturedProducts(listed: seq<Product>): (r: seq<Product>)
    ensures forall i :: 0 <= i < |r| ==> r[i].featured
  {
    Filter((p: Product) => p.featured, listed)
  }

  /** Both lists keep catalog order: the listed products are a subsequence of
      the catalog and the featured strip a subsequence of the listed products. */
  lemma {:induction false} ListingsPreserveOrder(products: seq<Product>, category: string)
    ensures SubsequenceOf(CategoryFilter(products, category), products)
    ensures SubsequenceOf(FeaturedProducts(CategoryFilter(products, category)), CategoryFilter(products, category))
    ensures SubsequenceOf(FeaturedProducts(CategoryFilter(products, category)), products)
  {
    var listed := CategoryFilter(products, category);
    if category == AllCategories {
      SubsequenceReflexive(products);
    } else {
      FilterIsSubsequence((p: Product) => HasSlug(p, category), products);
    }
    FilterIsSubsequence((p: Product) => p.featured, listed);
    SubsequenceTransitive(FeaturedProducts(listed), listed, products);
  }

  /** Outside the "all" view, the listing holds every product of the category,
      as often as the catalog does, and no other product. */
  lemma ListingContents(products: seq<Product>, category: string)
    requires category != AllCategories
    ensures forall p {:trigger multiset(CategoryFilter(products, category))[p]} ::
      multiset(CategoryFilter(products, category))[p] ==
        if HasSlug(p, category) then multiset(products)[p] else 0
  {
    FilterMultiset((p: Product) => HasSlug(p, category), products);
  }

  /** The strip holds every featured listed product, as often as the listing
      does, and no other product. */
  lemma FeaturedContents(listed: seq<Product>)
    ensures forall p {:trigger multiset(FeaturedProducts(listed))[p]} ::
      multiset(FeaturedProducts(listed))[p] == if p.featured then multiset(listed)[p] else 0
  {
    FilterMultiset((p: Product) => p.featured, listed);
  }

  /** A featured product is shown in the strip exactly when it is listed. */
  lemma FeaturedIffListed(products: seq<Product>, category: string, p: Product)
    requires p.featured
    ensures p in FeaturedProducts(CategoryFilter(products, category)) <==>
            p in products && (category == AllCategories || HasSlug(p, category))
  {
    var listed := CategoryFilter(products, category);
    FeaturedContents(listed);
    if category != AllCategories {
      ListingContents(products, category);
    }
    assert p in FeaturedProducts(listed) <==> multiset(FeaturedProducts(listed))[p] > 0;
    assert p in listed <==> multiset(listed)[p] > 0;
    assert p in products <==> multiset(products)[p] > 0;
  }

  /** The options of the sort selector; any other value selects Newest. */
  datatype SortKey = PriceAsc | PriceDesc | NameAsc | Newest

  function SortKeyOf(sortBy: string): (r: SortKey)
    ensures sortBy == "price-asc" ==> r == PriceAsc
    ensures sortBy == "price-desc" ==> r == PriceDesc
    ensures sortBy == "name-asc" ==> r == NameAsc
    ensures r == Newest <==> sortBy !in ["price-asc", "price-desc", "name-asc"]
  {
    if sortBy == "price-asc" then PriceAsc
    else if sortBy == "price-desc" then PriceDesc
    else if sortBy == "name-asc" then NameAsc
    else Newest
  }

  /** Lexicographic order on names by character code; a name compares equal
      to itself, as `localeCompare` does. */
  predicate NameLeq(a: string, b: string): (r: bool)
    ensures a == b ==> r
  {
    a == [] || (b != [] && (a[0] < b[0] || (a[0] == b[0] && NameLeq(a[1..], b[1..]))))
  }

  lemma {:induction false} NameLeqTotal(a: string, b: string)
    ensures NameLeq(a, b) || NameLeq(b, a)
  {
    if a != [] && b != [] && a[0] == b[0] {
      NameLeqTotal(a[1..], b[1..]);
    }
  }

  lemma {:induction false} NameLeqTransitive(a: string, b: string, c: string)
    requires NameLeq(a, b) && NameLeq(b, c)
    ensures NameLeq(a, c)
  {
    if a != [] && a[0] == b[0] && b[0] == c[0] {
      NameLeqTransitive(a[1..], b[1..], c[1..]);
    }
  }

  /** `a` may stand before `b` under key `k`: the selector's comparator applied
      to (a, b) is not positive. */
  predicate Before(k: SortKey, a: Product, b: Product): (r: bool)
    ensures a == b ==> r
  {
    match k
    case PriceAsc => a.price <= b.price
    case PriceDesc => b.price <= a.price
    case NameAsc => NameLeq(a.name, b.name)
    case Newest => b.createdAt <= a.createdAt
  }

  lemma BeforeTotal(k: SortKey, a: Product, b: Product)
    ensures Before(k, a, b) || Before(k, b, a)
  {
    if k == NameAsc {
      NameLeqTotal(a.name, b.name);
    }
  }

  lemma BeforeTransitive(k: SortKey, a: Product, b: Product, c: Product)
    requires Before(k, a, b) && Before(k, b, c)
    ensures Before(k, a, c)
  {
    if k == NameAsc {
      NameLeqTransitive(a.name, b.name, c.name);
    }
  }

  predicate SortedBy(k: SortKey, s: seq<Product>) {
    forall i, j :: 0 <= i < j < |s| ==> Before(k, s[i], s[j])
  }

  /** Sorts the catalog in place by the selected key; adjacent elements are
      exchanged only when strictly out of order. */
  method SortProducts(products: array<Product>, sortBy: string)
    modifies products
    ensures SortedBy(SortKeyOf(sortBy), products[..])
    ensures multiset(products[..]) == multiset(old(products[..]))
  {
    var key := SortKeyOf(sortBy);
    var i := 0;
    while i < products.Length
      invariant 0 <= i <= products.Length
      invariant forall p, q :: 0 <= p < q < i ==> Before(key, products[p], products[q])
      invariant multiset(products[..]) == multiset(old(products[..]))
    {
      var j := i;
      while j > 0 && !Before(key, products[j - 1], products[j])
        invariant 0 <= j <= i
        invariant forall p, q :: 0 <= p < q <= i && q != j ==> Before(key, products[p], products[q])
        invariant multiset(products[..]) == multiset(old(products[..]))
      {
        BeforeTotal(key, products[j - 1], products[j]);
        products[j - 1], products[j] := products[j], products[j - 1];
        j := j - 1;
      }
      forall p, q | 0 <= p < q <= i
        ensures Before(key, products[p], products[q])
      {
        if q == j && p < j - 1 {
          BeforeTransitive(key, products[p], products[j - 1], products[j]);
        }
      }
      i := i + 1;
    }
  }
}
