/**
 * The seller's add-product dialog: the size and colour lists it edits, the product record it builds
 * (slug, defaults, discount) and the insert it makes.
 */
module AddProductForm {
  import opened Common
  import opened Seqs
  import opened Tables
  import Slug

  /** Every value occurs at most once. */
  ghost predicate NoDuplicates(s: seq<string>) {
    forall x :: multiset(s)[x] <= 1
  }

  /** `if (v && !list.includes(v)) [...list, v]`: a non-empty value not yet listed is appended. */
  function WithAdded(list: seq<string>, v: string): (r: seq<string>)
    ensures forall x :: x in r <==> x in list || (x == v && v != "")
    ensures |list| <= |r| <= |list| + 1 && r[..|list|] == list
    ensures v == "" || v in list ==> r == list
    ensures NoDuplicates(list) ==> NoDuplicates(r)
  {
    if v != "" && v !in list then list + [v] else list
  }

  /** `list.filter((x) => x !== v)`. */
  function Without(list: seq<string>, v: string): (r: seq<string>)
    ensures v !in r
    ensures forall x :: x != v ==> (x in r <==> x in list)
    ensures forall x :: multiset(r)[x] == if x == v then 0 else multiset(list)[x]
    ensures IsSubsequence(r, list)
    ensures NoDuplicates(list) ==> NoDuplicates(r)
  {
    var keep := x => x != v;
    FilterSubsequence(list, keep);
    Filter(list, keep)
  }

  /** Adding a value twice adds it once. */
  lemma AddIdempotent(list: seq<string>, v: string)
    ensures WithAdded(WithAdded(list, v), v) == WithAdded(list, v)
  {
  }

  /** Removing what was just added gives back a list that did not hold it. */
  lemma RemoveUndoesAdd(list: seq<string>, v: string)
    requires v !in list
    ensures Without(WithAdded(list, v), v) == list
  {
    FilterAll(list, x => x != v);
    if v != "" {
      FilterAppend(list, [v], x => x != v);
      assert Filter([v], x => x != v) == [];
    }
  }

  /** The default lists hold no duplicates. */
  lemma DefaultsHaveNoDuplicates()
    ensures NoDuplicates(["S", "M", "L", "XL"])
    ensures NoDuplicates(["Black", "White"])
  {
    var sizes: seq<string> := ["S", "M", "L", "XL"];
    assert forall x :: multiset(sizes)[x] == (if x in sizes then 1 else 0);
    var colors: seq<string> := ["Black", "White"];
    assert forall x :: multiset(colors)[x] == (if x in colors then 1 else 0);
  }

  /**
   * `Math.round(n / d)` computed exactly: the integer nearest to n / d, halves rounded up, which is
   * `floor((2n + d) / 2d)`.
   */
  function RoundDiv(n: int, d: int): (r: int)
    requires d != 0
    ensures d > 0 ==> d * (2 * r - 1) <= 2 * n < d * (2 * r + 1)
    ensures d < 0 ==> d * (2 * r + 1) < 2 * n <= d * (2 * r - 1)
  {
    if d > 0 then
      var r := (2 * n + d) / (2 * d);
      assert 2 * n + d == r * (2 * d) + (2 * n + d) % (2 * d);
      assert d * (2 * r - 1) == r * (2 * d) - d;
      assert d * (2 * r + 1) == r * (2 * d) + d;
      r
    else
      var r := (-(2 * n + d)) / (-2 * d);
      assert -(2 * n + d) == r * (-2 * d) + (-(2 * n + d)) % (-2 * d);
      assert d * (2 * r - 1) == r * (2 * d) - d;
      assert d * (2 * r + 1) == r * (2 * d) + d;
      r
  }

  /** The filled-in form, with money and stock as integers; `originalPrice` is absent for an empty field. */
  datatype ProductForm = ProductForm(
    name: string, description: string, price: int, originalPrice: Option<int>, stockQuantity: int)

  /** `original_price && original_price > price`: a zero original price is falsy and gives no discount. */
  predicate HasDiscount(form: ProductForm) {
    form.originalPrice.Some? && form.originalPrice.value != 0 && form.originalPrice.value > form.price
  }

  /** `Math.round(((original - price) / original) * 100)`. */
  function DiscountPercentage(form: ProductForm): int
    requires HasDiscount(form)
  {
    RoundDiv(100 * (form.originalPrice.value - form.price), form.originalPrice.value)
  }

  /** With a price that is not negative, the discount is a percentage between 0 and 100. */
  lemma DiscountInRange(form: ProductForm)
    requires HasDiscount(form) && form.price >= 0
    ensures 0 <= DiscountPercentage(form) <= 100
  {
    var o := form.originalPrice.value;
    var n := 100 * (o - form.price);
    var r := DiscountPercentage(form);
    assert o > 0 && 0 < n <= 100 * o;
    if r < 0 {
      ScaleAtMost(o, 2 * r + 1, -1);
      assert false;
    }
    if r > 100 {
      ScaleAtLeast(o, 2 * r - 1, 201);
      assert false;
    }
  }

  lemma ScaleAtMost(a: int, b: int, c: int)
    requires a > 0 && b <= c
    ensures a * b <= a * c
  {
  }

  lemma ScaleAtLeast(a: int, b: int, c: int)
    requires a > 0 && b >= c
    ensures a * b >= a * c
  {
  }

  function Strings(list: seq<string>): (r: seq<Json>)
    ensures |r| == |list|
    ensures forall i :: 0 <= i < |list| ==> r[i] == JString(list[i])
  {
    seq(|list|, i requires 0 <= i < |list| => JString(list[i]))
  }

  /** `productData`, with `discount_percentage` added only when the form has a discount. */
  function ProductData(shopId: nat, form: ProductForm, sizes: seq<string>, colors: seq<string>): (r: Record)
    ensures {"shop_id", "name", "slug", "description", "price", "original_price", "stock_quantity"} <= r.Keys
    ensures {"sizes", "colors", "images", "is_active", "is_featured"} <= r.Keys
    ensures r["shop_id"] == JNumber(shopId)
    ensures r["slug"] == JString(Slug.Slugify(form.name))
    ensures r["is_active"] == JBool(true) && r["is_featured"] == JBool(false) && r["images"] == JArray([])
    ensures r["original_price"] == if form.originalPrice.Some? then JNumber(form.originalPrice.value) else JNull
    ensures r["sizes"] == JArray(Strings(sizes)) && r["colors"] == JArray(Strings(colors))
    ensures "discount_percentage" in r <==> HasDiscount(form)
    ensures HasDiscount(form) ==> r["discount_percentage"] == JNumber(DiscountPercentage(form))
  {
    var base := map[
      "shop_id" := JNumber(shopId),
      "name" := JString(form.name),
      "slug" := JString(Slug.Slugify(form.name)),
      "description" := JString(form.description),
      "price" := JNumber(form.price),
      "original_price" := if form.originalPrice.Some? then JNumber(form.originalPrice.value) else JNull,
      "stock_quantity" := JNumber(form.stockQuantity),
      "sizes" := JArray(Strings(sizes)),
      "colors" := JArray(Strings(colors)),
      "images" := JArray([]),
      "is_active" := JBool(true),
      "is_featured" := JBool(false)
    ];
    if HasDiscount(form) then base["discount_percentage" := JNumber(DiscountPercentage(form))] else base
  }

  /** The dialog's state. */
  class AddProductDialog {
    /** The row id of the seller's shop, which the page passes in. */
    const shopId: nat
    var sizes: seq<string>
    var colors: seq<string>
    var newSize: string
    var newColor: string
    var error: string
    var loading: bool
    var closed: bool
    var refreshes: nat

    /** The size and colour lists hold no duplicates. */
    ghost predicate Valid()
      reads this
    {
      NoDuplicates(sizes) && NoDuplicates(colors)
    }

    constructor (shopId: nat)
      ensures Valid()
      ensures this.shopId == shopId
      ensures sizes == ["S", "M", "L", "XL"] && colors == ["Black", "White"]
      ensures newSize == "" && newColor == "" && error == "" && !loading && !closed && refreshes == 0
    {
      this.shopId := shopId;
      sizes, colors := ["S", "M", "L", "XL"], ["Black", "White"];
      newSize, newColor, error := "", "", "";
      loading, closed, refreshes := false, false, 0;
      DefaultsHaveNoDuplicates();
    }

    /** The size input's `onChange`. */
    method TypeSize(v: string)
      modifies this`newSize
      ensures newSize == v
    {
      newSize := v;
    }

    /** The colour input's `onChange`. */
    method TypeColor(v: string)
      modifies this`newColor
      ensures newColor == v
    {
      newColor := v;
    }

    /** `addSize`: the input is cleared only when the size was added. */
    method AddSize()
      requires Valid()
      modifies this`sizes, this`newSize
      ensures Valid()
      ensures sizes == WithAdded(old(sizes), old(newSize))
      ensures newSize == if old(newSize) != "" && old(newSize) !in old(sizes) then "" else old(newSize)
    {
      if newSize != "" && newSize !in sizes {
        sizes := sizes + [newSize];
        newSize := "";
      }
    }

    method RemoveSize(size: string)
      requires Valid()
      modifies this`sizes
      ensures Valid()
      ensures sizes == Without(old(sizes), size)
    {
      sizes := Without(sizes, size);
    }

    /** `addColor`: the input is cleared only when the colour was added. */
    method AddColor()
      requires Valid()
      modifies this`colors, this`newColor
      ensures Valid()
      ensures colors == WithAdded(old(colors), old(newColor))
      ensures newColor == if old(newColor) != "" && old(newColor) !in old(colors) then "" else old(newColor)
    {
      if newColor != "" && newColor !in colors {
        colors := colors + [newColor];
        newColor := "";
      }
    }

    method RemoveColor(color: string)
      requires Valid()
      modifies this`colors
      ensures Valid()
      ensures colors == Without(old(colors), color)
    {
      colors := Without(colors, color);
    }

    /**
     * `handleSubmit`: build the record, insert it, and on success refresh and close; on an error
     * record its message and stay open.
     */
    method Submit(db: Store, form: ProductForm, insert: Outcome)
      requires db.Valid()
      modifies this`error, this`loading, this`closed, this`refreshes, db`products, db`nextId
      ensures db.Valid() && !loading
      ensures insert.Ok? ==>
        && db.products == old(db.products)[old(db.nextId) := ProductData(shopId, form, sizes, colors)]
        && error == "" && closed && refreshes == old(refreshes) + 1
      ensures insert.Failed? ==>
        && db.products == old(db.products) && error == insert.message
        && closed == old(closed) && refreshes == old(refreshes)
    {
      loading := true;
      error := "";
      var productData := ProductData(shopId, form, sizes, colors);
      if insert.Failed? {
        error := insert.message;
        loading := false;
        return;
      }
      var id := db.InsertProduct(productData);
      refreshes := refreshes + 1;
      closed := true;
      loading := false;
    }
  }
}
