/** The vendor's product dashboard: the category list derived from the
    loaded products, the search and category filter, the four-column sort
    with its direction toggle, and the selection and delete-confirmation
    state. */
module ProductView {
  import opened Options
  import opened Seqs
  import opened Text
  import opened Catalog
  import opened Sorting

  datatype SortColumn = ByName | ByCategory | ByQuantity | ByPrice
  datatype SortDirection = Asc | Desc

  /** The category filter value that lets every category through; also the
      head of the category list. */
  const AllCategories: string := "All"

  /** The dashboard's component state. */
  datatype View = View(
    products: seq<Product>, search: string, selected: Option<Product>,
    isEditing: bool, isAdding: bool, sortBy: SortColumn, sortDirection: SortDirection,
    categoryFilter: string, categories: seq<string>,
    showDeleteModal: bool, productToDelete: Option<Product>)

  /** The state the dashboard starts in. */
  function Initial(): (v: View)
    ensures v.products == [] && v.sortBy == ByName && v.sortDirection == Asc
    ensures v.categoryFilter == AllCategories && v.categories == [AllCategories]
  {
    View([], "", None, false, false, ByName, Asc, AllCategories, [AllCategories], false, None)
  }

  // ---------------------------------------------------------------------
  // Sort column toggle
  // ---------------------------------------------------------------------

  function Flip(d: SortDirection): SortDirection {
    if d == Asc then Desc else Asc
  }

  /** Clicking a column header: the active column flips its direction, any
      other column becomes active in ascending order. */
  function HandleSort(v: View, col: SortColumn): (r: View)
    ensures r.sortBy == col
    ensures v.sortBy == col ==> r.sortDirection != v.sortDirection
    ensures v.sortBy != col ==> r.sortDirection == Asc
    ensures r.(sortBy := v.sortBy, sortDirection := v.sortDirection) == v
  {
    if v.sortBy == col then v.(sortDirection := Flip(v.sortDirection))
    else v.(sortBy := col, sortDirection := Asc)
  }

  /** Clicking the active column twice restores the original state. */
  lemma HandleSortTwiceRestores(v: View)
    ensures HandleSort(HandleSort(v, v.sortBy), v.sortBy) == v
  {
  }

  /** Clicking a new column twice sorts it in descending order. */
  lemma HandleSortNewColumnTwice(v: View, col: SortColumn)
    requires v.sortBy != col
    ensures HandleSort(HandleSort(v, col), col).sortDirection == Desc
  {
  }

  // ---------------------------------------------------------------------
  // Categories
  // ---------------------------------------------------------------------

  /** The elements of `s` without repeats, each where it first appears
      (the iteration order of `new Set(s)`). */
  function Distinct<T(==)>(s: seq<T>): (r: seq<T>)
    ensures NoDuplicates(r)
    ensures forall i :: 0 <= i < |r| ==> r[i] in s
    decreases |s|
  {
    if s == [] then []
    else
      var d := Distinct(s[..|s| - 1]);
      if s[|s| - 1] in d then d else d + [s[|s| - 1]]
  }

  /** Every element of `s` survives deduplication. */
  lemma {:induction false} DistinctKeepsAll<T>(s: seq<T>, x: T)
    requires x in s
    ensures x in Distinct(s)
    decreases |s|
  {
    var n := |s| - 1;
    if x != s[n] {
      assert x in s[..n];
      DistinctKeepsAll(s[..n], x);
    }
  }

  /** The deduplicated elements are in the order of their first appearance. */
  lemma {:induction false} DistinctFirstAppearanceOrder<T>(s: seq<T>, i: nat, j: nat)
    requires i < j < |Distinct(s)|
    ensures IndexOf(s, Distinct(s)[i]) < IndexOf(s, Distinct(s)[j])
    decreases |s|
  {
    var n := |s| - 1;
    var d := Distinct(s[..n]);
    var r := Distinct(s);
    assert r[i] in s[..n] by {
      assert r[i] in d;
    }
    IndexOfPrefix(s, n, r[i]);
    if j < |d| {
      DistinctFirstAppearanceOrder(s[..n], i, j);
      IndexOfPrefix(s, n, r[j]);
    } else {
      assert r[j] == s[n] && s[n] !in d;
      assert s[n] !in s[..n] by {
        if s[n] in s[..n] {
          DistinctKeepsAll(s[..n], s[n]);
        }
      }
      IndexOfUnique(s, s[n], n);
    }
  }

  /** The category of every product, in product order. */
  function CategoriesOf(products: seq<Product>): (r: seq<string>)
    ensures |r| == |products|
    ensures forall i :: 0 <= i < |products| ==> r[i] == products[i].category
  {
    seq(|products|, i requires 0 <= i < |products| => products[i].category)
  }

  /** The category filter options: "All", then each product category once. */
  function CategoryList(products: seq<Product>): (r: seq<string>)
    ensures |r| >= 1 && r[0] == AllCategories
    ensures NoDuplicates(r[1..])
    ensures forall c :: c in r[1..] <==> exists i :: 0 <= i < |products| && products[i].category == c
  {
    var cs := CategoriesOf(products);
    var r := [AllCategories] + Distinct(cs);
    assert r[1..] == Distinct(cs);
    forall c | exists i :: 0 <= i < |products| && products[i].category == c
      ensures c in r[1..]
    {
      var i :| 0 <= i < |products| && products[i].category == c;
      assert cs[i] == c;
      DistinctKeepsAll(cs, c);
    }
    r
  }

  /** The outcome of fetching the vendor's products: the list, or nothing on failure. */
  function LoadProducts(v: View, fetched: Option<seq<Product>>): (r: View)
    ensures fetched.None? ==> r == v
    ensures fetched.Some? ==>
      r.products == fetched.value && r.categories == CategoryList(fetched.value)
    ensures r.(products := v.products, categories := v.categories) == v
  {
    match fetched
    case None => v
    case Some(ps) => v.(products := ps, categories := CategoryList(ps))
  }

  // ---------------------------------------------------------------------
  // Filter
  // ---------------------------------------------------------------------

  /** The search (case-insensitive, over name, description and category) and
      the category filter. */
  predicate ProductMatches(search: string, categoryFilter: string, p: Product)
    ensures search == "" ==>
      (ProductMatches(search, categoryFilter, p) <==> categoryFilter == AllCategories || p.category == categoryFilter)
    ensures categoryFilter != AllCategories && p.category != categoryFilter ==> !ProductMatches(search, categoryFilter, p)
  {
    var needle := Lower(search);
    IncludesEmpty(Lower(p.name));
    && (|| Includes(Lower(p.name), needle)
        || Includes(Lower(p.description), needle)
        || Includes(Lower(p.category), needle))
    && (categoryFilter == AllCategories || p.category == categoryFilter)
  }

  /** A product passes exactly when the lower-cased search text occurs in its
      lower-cased name, description or category, and the filter is "All"
      or its category. */
  lemma ProductMatchesExactly(search: string, categoryFilter: string, p: Product)
    ensures ProductMatches(search, categoryFilter, p) <==>
      && (|| (exists i :: OccursAt(Lower(p.name), Lower(search), i))
          || (exists i :: OccursAt(Lower(p.description), Lower(search), i))
          || (exists i :: OccursAt(Lower(p.category), Lower(search), i)))
      && (categoryFilter == "All" || p.category == categoryFilter)
  {
    IncludesIffOccurs(Lower(p.name), Lower(search));
    IncludesIffOccurs(Lower(p.description), Lower(search));
    IncludesIffOccurs(Lower(p.category), Lower(search));
  }

  /** With no search text and the "All" filter every product passes. */
  lemma EverythingMatchesUnfiltered(p: Product)
    ensures ProductMatches("", AllCategories, p)
  {
    IncludesEmpty(Lower(p.name));
  }

  // ---------------------------------------------------------------------
  // Comparator
  // ---------------------------------------------------------------------

  /** Code-point lexicographic comparison: negative, zero or positive. */
  function LexCompare(a: string, b: string): (c: int)
    ensures -1 <= c <= 1
    decreases |a|
  {
    if a == [] && b == [] then 0
    else if a == [] then -1
    else if b == [] then 1
    else if a[0] < b[0] then -1
    else if a[0] > b[0] then 1
    else LexCompare(a[1..], b[1..])
  }

  /** Swapping the arguments negates the comparison. */
  lemma {:induction false} LexCompareAntisymmetric(a: string, b: string)
    ensures LexCompare(a, b) == -LexCompare(b, a)
    decreases |a|
  {
    if a != [] && b != [] && a[0] == b[0] {
      LexCompareAntisymmetric(a[1..], b[1..]);
    }
  }

  /** Only equal strings compare as zero. */
  lemma {:induction false} LexCompareZero(a: string, b: string)
    ensures LexCompare(a, b) == 0 <==> a == b
    decreases |a|
  {
    if a != [] && b != [] && a[0] == b[0] {
      LexCompareZero(a[1..], b[1..]);
      assert a == [a[0]] + a[1..] && b == [b[0]] + b[1..];
    }
  }

  /** "Not after" is transitive. */
  lemma {:induction false} LexCompareTransitive(a: string, b: string, c: string)
    requires LexCompare(a, b) <= 0 && LexCompare(b, c) <= 0
    ensures LexCompare(a, c) <= 0
    decreases |a|
  {
    if a != [] && b != [] && c != [] && a[0] == b[0] && b[0] == c[0] {
      LexCompareTransitive(a[1..], b[1..], c[1..]);
    }
  }

  /** The price a product sorts by: its first tier's price, 0 without tiers. */
  function PriceKey(p: Product): (k: real)
    ensures p.pricing_tiers == [] ==> k == 0.0
    ensures p.pricing_tiers != [] ==> k == p.pricing_tiers[0].price
  {
    if |p.pricing_tiers| > 0 then p.pricing_tiers[0].price else 0.0
  }

  /** The comparison for one column, before the direction is applied. */
  function Compare(col: SortColumn, a: Product, b: Product): (c: real)
    ensures col == ByQuantity ==> (c < 0.0 <==> a.available_quantity < b.available_quantity)
    ensures col == ByPrice ==> (c < 0.0 <==> PriceKey(a) < PriceKey(b))
    ensures col == ByName ==> (c == 0.0 <==> a.name == b.name)
    ensures col == ByCategory ==> (c == 0.0 <==> a.category == b.category)
  {
    LexCompareZero(a.name, b.name);
    LexCompareZero(a.category, b.category);
    match col
    case ByName => LexCompare(a.name, b.name) as real
    case ByCategory => LexCompare(a.category, b.category) as real
    case ByQuantity => (a.available_quantity - b.available_quantity) as real
    case ByPrice => PriceKey(a) - PriceKey(b)
  }

  /** The direction applied: descending negates. */
  function Directed(dir: SortDirection, c: real): real {
    if dir == Asc then c else -c
  }

  /** `a` may come before `b` in the sorted list. */
  predicate Before(col: SortColumn, dir: SortDirection, a: Product, b: Product) {
    Directed(dir, Compare(col, a, b)) <= 0.0
  }

  /** Products that tie on a column: compare as zero (for either direction). */
  predicate Tied(col: SortColumn, a: Product, b: Product) {
    Compare(col, a, b) == 0.0
  }

  lemma CompareAntisymmetric(col: SortColumn, a: Product, b: Product)
    ensures Compare(col, a, b) == -Compare(col, b, a)
  {
    LexCompareAntisymmetric(a.name, b.name);
    LexCompareAntisymmetric(a.category, b.category);
  }

  /** Any two products can be ordered one way or the other. */
  lemma BeforeTotal(col: SortColumn, dir: SortDirection, a: Product, b: Product)
    ensures Before(col, dir, a, b) || Before(col, dir, b, a)
  {
    CompareAntisymmetric(col, a, b);
  }

  lemma BeforeTransitive(col: SortColumn, dir: SortDirection, a: Product, b: Product, c: Product)
    requires Before(col, dir, a, b) && Before(col, dir, b, c)
    ensures Before(col, dir, a, c)
  {
    CompareAntisymmetric(col, a, b);
    CompareAntisymmetric(col, b, c);
    CompareAntisymmetric(col, a, c);
    match col
    case ByName =>
      if dir == Asc {
        LexCompareTransitive(a.name, b.name, c.name);
      } else {
        LexCompareTransitive(c.name, b.name, a.name);
      }
    case ByCategory =>
      if dir == Asc {
        LexCompareTransitive(a.category, b.category, c.category);
      } else {
        LexCompareTransitive(c.category, b.category, a.category);
      }
    case ByQuantity =>
    case ByPrice =>
  }

  /** Two products tied with a third are tied with each other. */
  lemma TiedTransitive(col: SortColumn, a: Product, b: Product, k: Product)
    requires Tied(col, a, k) && Tied(col, b, k)
    ensures Tied(col, a, b)
  {
    LexCompareZero(a.name, k.name);
    LexCompareZero(b.name, k.name);
    LexCompareZero(a.name, b.name);
    LexCompareZero(a.category, k.category);
    LexCompareZero(b.category, k.category);
    LexCompareZero(a.category, b.category);
  }

  // ---------------------------------------------------------------------
  // Sort
  // ---------------------------------------------------------------------

  /** The comparator of a column and direction as a "may come before" relation. */
  function Ordering(col: SortColumn, dir: SortDirection): (Product, Product) -> bool {
    (a: Product, b: Product) => Before(col, dir, a, b)
  }

  /** Every column and direction orders the products totally and transitively,
      as a sort comparator must. */
  lemma OrderingIsTotalPreorder(col: SortColumn, dir: SortDirection)
    ensures Total(Ordering(col, dir)) && Transitive(Ordering(col, dir))
  {
    var before := Ordering(col, dir);
    forall a, b
      ensures before(a, b) || before(b, a)
    {
      BeforeTotal(col, dir, a, b);
    }
    forall a, b, c | before(a, b) && before(b, c)
      ensures before(a, c)
    {
      BeforeTransitive(col, dir, a, b, c);
    }
  }

  /** The products tied with `k` on the column. */
  function TiedWith(col: SortColumn, k: Product): Product -> bool {
    (y: Product) => Tied(col, y, k)
  }

  /** Products tied with the same product may come before one another in
      either direction: they form a tie class of the ordering. */
  lemma TiedWithIsTieClass(col: SortColumn, dir: SortDirection, k: Product)
    ensures forall y, z :: TiedWith(col, k)(y) && TiedWith(col, k)(z) ==> Ordering(col, dir)(y, z)
  {
    forall y, z | TiedWith(col, k)(y) && TiedWith(col, k)(z)
      ensures Ordering(col, dir)(y, z)
    {
      TiedTransitive(col, y, z, k);
    }
  }

  /** The products shown: those passing the filter, sorted by the active
      column and direction. */
  function FilteredProducts(v: View): (r: seq<Product>)
    ensures |r| <= |v.products|
    ensures forall i :: 0 <= i < |r| ==> ProductMatches(v.search, v.categoryFilter, r[i])
    ensures multiset(r) <= multiset(v.products)
  {
    var keep := (p: Product) => ProductMatches(v.search, v.categoryFilter, p);
    var passing := Filter(v.products, keep);
    var r := InsertionSort(passing, Ordering(v.sortBy, v.sortDirection));
    FilterSubMultiset(v.products, keep);
    assert forall i :: 0 <= i < |r| ==> keep(r[i]) by {
      forall i | 0 <= i < |r|
        ensures keep(r[i])
      {
        assert r[i] in multiset(passing);
        var j :| 0 <= j < |passing| && passing[j] == r[i];
      }
    }
    r
  }

  /** The shown list is a permutation of the passing products, ordered by the
      comparator, and keeps tied products in their loaded order. */
  lemma FilteredProductsCorrect(v: View, k: Product)
    ensures var shown := FilteredProducts(v);
      var passing := Filter(v.products, (p: Product) => ProductMatches(v.search, v.categoryFilter, p));
      && multiset(shown) == multiset(passing)
      && Sorted(shown, Ordering(v.sortBy, v.sortDirection))
      && Filter(shown, TiedWith(v.sortBy, k)) == Filter(passing, TiedWith(v.sortBy, k))
  {
    var passing := Filter(v.products, (p: Product) => ProductMatches(v.search, v.categoryFilter, p));
    OrderingIsTotalPreorder(v.sortBy, v.sortDirection);
    SortSorted(passing, Ordering(v.sortBy, v.sortDirection));
    TiedWithIsTieClass(v.sortBy, v.sortDirection, k);
    SortStable(passing, Ordering(v.sortBy, v.sortDirection), TiedWith(v.sortBy, k));
  }

  /** With no search text and the "All" filter, every product is shown. */
  lemma UnfilteredShowsAll(v: View)
    requires v.search == "" && v.categoryFilter == AllCategories
    ensures multiset(FilteredProducts(v)) == multiset(v.products)
  {
    forall i | 0 <= i < |v.products|
      ensures ProductMatches(v.search, v.categoryFilter, v.products[i])
    {
      EverythingMatchesUnfiltered(v.products[i]);
    }
    FilterKeepsAll(v.products, (p: Product) => ProductMatches(v.search, v.categoryFilter, p));
  }

  /** A product with a single tier at the given price (other fields fixed). */
  function PricedProduct(id: int, price: real): Product {
    Product("Item", "", "General", "", 1, id, 1, "", [PricingTier(1, 1, price)])
  }

  /** Products priced 10 and 5 sort as 5, 10 ascending and 10, 5 descending. */
  lemma PriceSortExample()
    ensures InsertionSort([PricedProduct(1, 10.0), PricedProduct(2, 5.0)], Ordering(ByPrice, Asc)) == [PricedProduct(2, 5.0), PricedProduct(1, 10.0)]
    ensures InsertionSort([PricedProduct(1, 10.0), PricedProduct(2, 5.0)], Ordering(ByPrice, Desc)) == [PricedProduct(1, 10.0), PricedProduct(2, 5.0)]
  {
    var a := PricedProduct(1, 10.0);
    var b := PricedProduct(2, 5.0);
    assert [a, b][1..] == [b];
    assert InsertionSort([b], Ordering(ByPrice, Asc)) == [b];
    assert InsertionSort([b], Ordering(ByPrice, Desc)) == [b];
  }

  // ---------------------------------------------------------------------
  // Selection, editing and deletion
  // ---------------------------------------------------------------------

  function SelectProduct(v: View, p: Product): (r: View)
    ensures r.selected == Some(p) && !r.isEditing && !r.isAdding
    ensures r.(selected := v.selected, isEditing := v.isEditing, isAdding := v.isAdding) == v
  {
    v.(selected := Some(p), isEditing := false, isAdding := false)
  }

  function CloseProductDetail(v: View): (r: View)
    ensures r.selected.None? && !r.isEditing && !r.isAdding
    ensures r.(selected := v.selected, isEditing := v.isEditing, isAdding := v.isAdding) == v
  {
    v.(selected := None, isEditing := false, isAdding := false)
  }

  /** Asking to delete a product opens the confirmation with that product pending. */
  function DeleteClick(v: View, p: Product): (r: View)
    ensures r.productToDelete == Some(p) && r.showDeleteModal
    ensures r.(productToDelete := v.productToDelete, showDeleteModal := v.showDeleteModal) == v
  {
    v.(productToDelete := Some(p), showDeleteModal := true)
  }

  function CancelDelete(v: View): (r: View)
    ensures r.productToDelete.None? && !r.showDeleteModal
    ensures r.(productToDelete := v.productToDelete, showDeleteModal := v.showDeleteModal) == v
  {
    v.(productToDelete := None, showDeleteModal := false)
  }

  /** Confirming the deletion, given whether the catalog service reported
      success. Without a pending product, or on failure, nothing changes. On
      success the confirmation closes, and the selection is cleared exactly
      when it is the deleted product (same id). */
  function ConfirmDelete(v: View, deleted: bool): (r: View)
    ensures v.productToDelete.None? || !deleted ==> r == v
    ensures v.productToDelete.Some? && deleted ==>
      && !r.showDeleteModal && r.productToDelete.None?
      && (r.selected.None? <==> v.selected.None? || v.selected.value.id == v.productToDelete.value.id)
      && (r.selected.Some? ==> r.selected == v.selected)
    ensures r.(selected := v.selected, showDeleteModal := v.showDeleteModal, productToDelete := v.productToDelete) == v
  {
    match v.productToDelete
    case None => v
    case Some(p) =>
      if !deleted then v
      else
        var selected := if v.selected.Some? && v.selected.value.id == p.id then None else v.selected;
        v.(selected := selected, showDeleteModal := false, productToDelete := None)
  }

  /** Starting a new product: the form opens empty. */
  function AddProduct(v: View): (r: View)
    ensures r.isAdding && !r.isEditing && r.selected.None?
    ensures r.(selected := v.selected, isEditing := v.isEditing, isAdding := v.isAdding) == v
  {
    v.(isAdding := true, selected := None, isEditing := false)
  }

  function EditProduct(v: View, p: Product): (r: View)
    ensures r.isEditing && !r.isAdding && r.selected == Some(p)
    ensures r.(selected := v.selected, isEditing := v.isEditing, isAdding := v.isAdding) == v
  {
    v.(selected := Some(p), isEditing := true, isAdding := false)
  }

  function CancelEdit(v: View): (r: View)
    ensures !r.isEditing && !r.isAdding
    ensures r.(isEditing := v.isEditing, isAdding := v.isAdding) == v
  {
    v.(isEditing := false, isAdding := false)
  }
}
