/** The seller's product list: a name search with an all/active/inactive filter, and the stat cards. */
module SellerProducts {
  import opened Text
  import opened Seqs

  datatype Product = Product(name: string, isActive: bool, isFeatured: bool, stockQuantity: int)

  datatype StatusFilter = All | Active | Inactive

  predicate MatchesFilter(product: Product, filterStatus: StatusFilter) {
    || filterStatus == All
    || (filterStatus == Active && product.isActive)
    || (filterStatus == Inactive && !product.isActive)
  }

  predicate Keeps(product: Product, search: string, filterStatus: StatusFilter) {
    Includes(Lower(product.name), Lower(search)) && MatchesFilter(product, filterStatus)
  }

  /** `filteredProducts`. */
  function FilteredProducts(products: seq<Product>, search: string, filterStatus: StatusFilter): (r: seq<Product>)
    ensures IsSubsequence(r, products)
    ensures forall p :: p in r <==> p in products && Keeps(p, search, filterStatus)
    ensures forall p :: multiset(r)[p] == if Keeps(p, search, filterStatus) then multiset(products)[p] else 0
  {
    var keep := p => Keeps(p, search, filterStatus);
    FilterSubsequence(products, keep);
    Filter(products, keep)
  }

  /** An empty search under "all" shows every product. */
  lemma EmptySearchShowsAll(products: seq<Product>)
    ensures FilteredProducts(products, "", All) == products
  {
    forall p | p in products ensures Keeps(p, "", All) {
      IncludesTrivial(Lower(p.name));
    }
    FilterAll(products, p => Keeps(p, "", All));
  }

  /**
   * For a fixed search, the "active" and "inactive" lists split the "all" list: together they hold
   * each of its products exactly as often, and no product is in both.
   */
  lemma ActiveInactivePartition(products: seq<Product>, search: string)
    ensures multiset(FilteredProducts(products, search, Active)) + multiset(FilteredProducts(products, search, Inactive))
      == multiset(FilteredProducts(products, search, All))
    ensures |FilteredProducts(products, search, Active)| + |FilteredProducts(products, search, Inactive)|
      == |FilteredProducts(products, search, All)|
    ensures forall p :: !(p in FilteredProducts(products, search, Active) && p in FilteredProducts(products, search, Inactive))
  {
    var a := FilteredProducts(products, search, Active);
    var i := FilteredProducts(products, search, Inactive);
    var all := FilteredProducts(products, search, All);
    assert forall p :: (multiset(a) + multiset(i))[p] == multiset(all)[p];
    assert multiset(a) + multiset(i) == multiset(all);
    assert |multiset(a) + multiset(i)| == |multiset(all)|;
  }

  /** The "Active Products" card. */
  function ActiveCount(products: seq<Product>): (n: nat)
    ensures n <= |products|
  {
    |Filter(products, (p: Product) => p.isActive)|
  }

  /** The "Low Stock" card: fewer than ten in stock. */
  function LowStockCount(products: seq<Product>): (n: nat)
    ensures n <= |products|
  {
    |Filter(products, (p: Product) => p.stockQuantity < 10)|
  }

  /** The "Featured" card. */
  function FeaturedCount(products: seq<Product>): (n: nat)
    ensures n <= |products|
  {
    |Filter(products, (p: Product) => p.isFeatured)|
  }

  /** The active card counts what the "active" tab shows for an empty search. */
  lemma ActiveCountMatchesTab(products: seq<Product>)
    ensures ActiveCount(products) == |FilteredProducts(products, "", Active)|
  {
    forall p | p in products ensures p.isActive == Keeps(p, "", Active) {
      IncludesTrivial(Lower(p.name));
    }
    FilterCongruent(products, (p: Product) => p.isActive, p => Keeps(p, "", Active));
  }
}
