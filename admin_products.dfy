/** The admin's product list: a name search and category, brand and status filters, all of which must hold. */
module AdminProducts {
  import opened Common
  import opened Text
  import opened Seqs

  /** A product with the names of its joined category and brand, either of which may be missing. */
  datatype Product = Product(
    name: string, category: Option<string>, brand: Option<string>, isActive: bool, isFeatured: bool)

  /** `selected === "all" || joined?.name === selected`: a missing join never equals a selection. */
  predicate MatchesJoined(joined: Option<string>, selected: string) {
    selected == "all" || (joined.Some? && joined.value == selected)
  }

  /** The status select's four values; any other value keeps nothing. */
  predicate MatchesStatus(product: Product, statusFilter: string) {
    || statusFilter == "all"
    || (statusFilter == "active" && product.isActive)
    || (statusFilter == "inactive" && !product.isActive)
    || (statusFilter == "featured" && product.isFeatured)
  }

  predicate Keeps(product: Product, search: string, category: string, brand: string, statusFilter: string) {
    && Includes(Lower(product.name), Lower(search))
    && MatchesJoined(product.category, category)
    && MatchesJoined(product.brand, brand)
    && MatchesStatus(product, statusFilter)
  }

  /** `filteredProducts`. */
  function FilteredProducts(
    products: seq<Product>, search: string, category: string, brand: string, statusFilter: string): (r: seq<Product>)
    ensures IsSubsequence(r, products)
    ensures forall p :: p in r <==> p in products && Keeps(p, search, category, brand, statusFilter)
    ensures forall p :: multiset(r)[p] == if Keeps(p, search, category, brand, statusFilter) then multiset(products)[p] else 0
  {
    var keep := p => Keeps(p, search, category, brand, statusFilter);
    FilterSubsequence(products, keep);
    Filter(products, keep)
  }

  /** With an empty search and every select at "all", every product is listed. */
  lemma AllFiltersShowEvery(products: seq<Product>)
    ensures FilteredProducts(products, "", "all", "all", "all") == products
  {
    forall p | p in products ensures Keeps(p, "", "all", "all", "all") {
      IncludesTrivial(Lower(p.name));
    }
    FilterAll(products, p => Keeps(p, "", "all", "all", "all"));
  }

  /** Under a specific category or brand, a product without one is never listed. */
  lemma MissingJoinNeverKept(products: seq<Product>, search: string, category: string, brand: string, statusFilter: string)
    ensures category != "all" ==>
      forall p :: p in FilteredProducts(products, search, category, brand, statusFilter) ==> p.category == Some(category)
    ensures brand != "all" ==>
      forall p :: p in FilteredProducts(products, search, category, brand, statusFilter) ==> p.brand == Some(brand)
  {
  }

  /** "featured" lists exactly the featured products that pass the other filters. */
  lemma FeaturedKeepsOnlyFeatured(products: seq<Product>, search: string, category: string, brand: string)
    ensures forall p :: p in FilteredProducts(products, search, category, brand, "featured") <==>
      p in FilteredProducts(products, search, category, brand, "all") && p.isFeatured
  {
  }

  /**
   * For fixed other filters, "active" and "inactive" split the "all" list: together they hold each
   * of its products exactly as often, and no product is in both.
   */
  lemma ActiveInactivePartition(products: seq<Product>, search: string, category: string, brand: string)
    ensures multiset(FilteredProducts(products, search, category, brand, "active"))
      + multiset(FilteredProducts(products, search, category, brand, "inactive"))
      == multiset(FilteredProducts(products, search, category, brand, "all"))
    ensures |FilteredProducts(products, search, category, brand, "active")|
      + |FilteredProducts(products, search, category, brand, "inactive")|
      == |FilteredProducts(products, search, category, brand, "all")|
    ensures forall p ::
      !(p in FilteredProducts(products, search, category, brand, "active")
        && p in FilteredProducts(products, search, category, brand, "inactive"))
  {
    var a := FilteredProducts(products, search, category, brand, "active");
    var i := FilteredProducts(products, search, category, brand, "inactive");
    var all := FilteredProducts(products, search, category, brand, "all");
    assert forall p :: (multiset(a) + multiset(i))[p] == multiset(all)[p];
    assert multiset(a) + multiset(i) == multiset(all);
    assert |multiset(a) + multiset(i)| == |multiset(all)|;
  }

  /** A status value outside the select's four lists nothing. */
  lemma UnknownStatusListsNothing(products: seq<Product>, search: string, category: string, brand: string, statusFilter: string)
    requires statusFilter !in {"all", "active", "inactive", "featured"}
    ensures FilteredProducts(products, search, category, brand, statusFilter) == []
  {
  }
}
