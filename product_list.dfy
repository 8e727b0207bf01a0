/**
  The product list page: the loaded catalogue, the category and sort
  selections, and the list actually shown, which is the catalogue narrowed to
  one category and then sorted (on a copy) by price or by name.
 */
module ProductList {
  import opened Js
  import opened Types

  /** The category selection that shows every product. */
  const AllCategories := "all"

  const NameAsc := "name-asc"
  const PriceAsc := "price-asc"
  const PriceDesc := "price-desc"

  /** A comparator in the `Array.prototype.sort` sense: `cmp(a, b) <= 0` lets `a` stay before `b`. */
  predicate InOrder<T>(cmp: (T, T) -> int, a: T, b: T) {
    cmp(a, b) <= 0
  }

  /** `cmp` orders all values consistently: any two can be placed one way round, and the placements chain. */
  ghost predicate IsTotalPreorder<T(!new)>(cmp: (T, T) -> int) {
    && (forall a, b :: InOrder(cmp, a, b) || InOrder(cmp, b, a))
    && (forall a, b, c :: InOrder(cmp, a, b) && InOrder(cmp, b, c) ==> InOrder(cmp, a, c))
  }

  /** Every element may stay before every later one. */
  predicate SortedBy<T>(s: seq<T>, cmp: (T, T) -> int) {
    forall k, m :: 0 <= k < m < |s| ==> InOrder(cmp, s[k], s[m])
  }

  /** The filter's test: the product belongs to category `categoryId`. */
  function InCategory(categoryId: string): Product -> bool {
    (p: Product) => p.categoryId == categoryId
  }

  /** The products the category selection lets through, in catalogue order. */
  function SelectCategory(products: seq<Product>, categoryId: string): (r: seq<Product>)
    ensures categoryId != AllCategories ==> forall k :: 0 <= k < |r| ==> r[k].categoryId == categoryId
  {
    if categoryId == AllCategories then products else Filter(products, InCategory(categoryId))
  }

  /** With "all" nothing is dropped; otherwise exactly the products of that category remain, each as often as in the catalogue. */
  lemma SelectCategoryContents(products: seq<Product>, categoryId: string)
    ensures categoryId == AllCategories ==> SelectCategory(products, categoryId) == products
    ensures categoryId != AllCategories ==>
              forall p :: multiset(SelectCategory(products, categoryId))[p] ==
                            if p.categoryId == categoryId then multiset(products)[p] else 0
    ensures |SelectCategory(products, categoryId)| <= |products|
  {
    if categoryId != AllCategories {
      FilterCounts(products, InCategory(categoryId));
    }
  }

  /** Selecting a category keeps the catalogue order of the products it lets through. */
  lemma SelectCategoryKeepsOrder(a: seq<Product>, b: seq<Product>, categoryId: string)
    ensures SelectCategory(a + b, categoryId) == SelectCategory(a, categoryId) + SelectCategory(b, categoryId)
  {
    if categoryId != AllCategories {
      FilterAppend(a, b, InCategory(categoryId));
    }
  }

  /** The sort comparator: price difference for the two price orders, `localeCompare` on names for anything else. */
  function Compare(sort: string, nameCompare: (string, string) -> int, a: Product, b: Product): (r: int)
    ensures sort == PriceAsc ==> (r <= 0 <==> a.price <= b.price)
    ensures sort == PriceDesc ==> (r <= 0 <==> a.price >= b.price)
    ensures sort != PriceAsc && sort != PriceDesc ==> r == nameCompare(a.name, b.name)
  {
    if sort == PriceAsc then a.price - b.price
    else if sort == PriceDesc then b.price - a.price
    else nameCompare(a.name, b.name)
  }

  function Comparator(sort: string, nameCompare: (string, string) -> int): (Product, Product) -> int {
    (a, b) => Compare(sort, nameCompare, a, b)
  }

  /** Whatever the sort selection, the comparator is a total preorder as long as name comparison is one. */
  lemma ComparatorIsTotalPreorder(sort: string, nameCompare: (string, string) -> int)
    requires IsTotalPreorder(nameCompare)
    ensures IsTotalPreorder(Comparator(sort, nameCompare))
  {
    var cmp := Comparator(sort, nameCompare);
    forall a, b, c | InOrder(cmp, a, b) && InOrder(cmp, b, c)
      ensures InOrder(cmp, a, c)
    {
      if sort != PriceAsc && sort != PriceDesc {
        assert InOrder(nameCompare, a.name, b.name) && InOrder(nameCompare, b.name, c.name);
      }
    }
    forall a, b ensures InOrder(cmp, a, b) || InOrder(cmp, b, a) {
      if sort != PriceAsc && sort != PriceDesc {
        assert InOrder(nameCompare, a.name, b.name) || InOrder(nameCompare, b.name, a.name);
      }
    }
  }

  /** `a[0..n]` is sorted except that the element at `hole` is out of place towards the front:
      every other pair is in order, and the hole's element is in order with everything after it. */
  predicate SortedAroundHole<T>(a: seq<T>, n: int, hole: int, cmp: (T, T) -> int)
    requires 0 <= hole < n <= |a|
  {
    && (forall k, m :: 0 <= k < m < n && k != hole && m != hole ==> InOrder(cmp, a[k], a[m]))
    && (forall m :: hole < m < n ==> InOrder(cmp, a[hole], a[m]))
  }

  /** Appending the next element to a sorted prefix opens a hole at its position. */
  lemma HoleOpened<T>(s: seq<T>, i: int, cmp: (T, T) -> int)
    requires 0 <= i < |s| && SortedBy(s[..i], cmp)
    ensures SortedAroundHole(s, i + 1, i, cmp)
  {
    forall k, m | 0 <= k < m < i + 1 && k != i && m != i ensures InOrder(cmp, s[k], s[m]) {
      assert s[k] == s[..i][k] && s[m] == s[..i][m];
    }
  }

  /** Swapping the hole's element with an out-of-order predecessor moves the hole one place to the front. */
  lemma HoleMoved<T(!new)>(s: seq<T>, n: int, j: int, cmp: (T, T) -> int)
    requires IsTotalPreorder(cmp)
    requires 0 < j < n <= |s| && SortedAroundHole(s, n, j, cmp) && !InOrder(cmp, s[j - 1], s[j])
    ensures SortedAroundHole(s[j - 1 := s[j]][j := s[j - 1]], n, j - 1, cmp)
  {
    var t := s[j - 1 := s[j]][j := s[j - 1]];
    assert InOrder(cmp, s[j], s[j - 1]);
    forall k, m | 0 <= k < m < n && k != j - 1 && m != j - 1 ensures InOrder(cmp, t[k], t[m]) {
      if m == j {
        assert t[m] == s[j - 1] && t[k] == s[k];
      } else if k == j {
        assert t[k] == s[j - 1] && t[m] == s[m];
      }
    }
  }

  /** Once the hole's predecessor is in order with it (or there is none), the whole prefix is sorted. */
  lemma HoleClosed<T(!new)>(s: seq<T>, n: int, j: int, cmp: (T, T) -> int)
    requires IsTotalPreorder(cmp)
    requires 0 <= j < n <= |s| && SortedAroundHole(s, n, j, cmp)
    requires j == 0 || InOrder(cmp, s[j - 1], s[j])
    ensures SortedBy(s[..n], cmp)
  {
    forall k, m | 0 <= k < m < n ensures InOrder(cmp, s[k], s[m]) {
      if m == j && k < j - 1 {
        assert InOrder(cmp, s[k], s[j - 1]);
      }
    }
  }

  /** One insertion step: `a[i]` is swapped towards the front until `a[..i + 1]` is sorted. */
  method InsertLast<T(!new)>(a: array<T>, i: int, cmp: (T, T) -> int)
    requires IsTotalPreorder(cmp)
    requires 0 <= i < a.Length && SortedBy(a[..i], cmp)
    modifies a
    ensures SortedBy(a[..i + 1], cmp)
    ensures multiset(a[..]) == old(multiset(a[..]))
  {
    HoleOpened(a[..], i, cmp);
    var j := i;
    while j > 0 && !InOrder(cmp, a[j - 1], a[j])
      invariant 0 <= j <= i
      invariant SortedAroundHole(a[..], i + 1, j, cmp)
      invariant multiset(a[..]) == old(multiset(a[..]))
    {
      HoleMoved(a[..], i + 1, j, cmp);
      a[j - 1], a[j] := a[j], a[j - 1];
      j := j - 1;
    }
    HoleClosed(a[..], i + 1, j, cmp);
  }

  /** Sorts `a` in place by `cmp`: on return it is ordered and holds the same elements as before.
      Stands in for `Array.prototype.sort`, which the model does not require to be stable. */
  method SortInPlace<T(!new)>(a: array<T>, cmp: (T, T) -> int)
    requires IsTotalPreorder(cmp)
    modifies a
    ensures SortedBy(a[..], cmp)
    ensures multiset(a[..]) == old(multiset(a[..]))
  {
    var i := 0;
    while i < a.Length
      invariant 0 <= i <= a.Length
      invariant SortedBy(a[..i], cmp)
      invariant multiset(a[..]) == old(multiset(a[..]))
    {
      InsertLast(a, i, cmp);
      i := i + 1;
    }
    assert a[..] == a[..a.Length];
  }

  /** The page's state: the loaded catalogue and categories, and the two selections. */
  class ProductListPage {
    var products: seq<Product>
    var categories: seq<Category>
    var categoryId: string
    var sort: string

    /** Nothing loaded yet; every category, sorted by name. */
    constructor()
      ensures products == [] && categories == []
      ensures categoryId == AllCategories && sort == NameAsc
    {
      products := [];
      categories := [];
      categoryId := AllCategories;
      sort := NameAsc;
    }

    /** Both fetches have succeeded: their results replace the catalogue and the categories. */
    method ApplyLoaded(productsData: seq<Product>, categoriesData: seq<Category>)
      modifies this`products, this`categories
      ensures products == productsData && categories == categoriesData
    {
      products := productsData;
      categories := categoriesData;
    }

    /** The category selector changed. */
    method SetCategoryId(value: string)
      modifies this`categoryId
      ensures categoryId == value
    {
      categoryId := value;
    }

    /** The sort selector changed. */
    method SetSort(value: string)
      modifies this`sort
      ensures sort == value
    {
      sort := value;
    }

    /** The list the page shows: the selected category's products, rearranged into the selected order.
        The catalogue itself is left as it is, since the sorting works on a copy. */
    method VisibleProducts(nameCompare: (string, string) -> int) returns (visible: seq<Product>)
      requires IsTotalPreorder(nameCompare)
      ensures multiset(visible) == multiset(SelectCategory(products, categoryId))
      ensures |visible| <= |products|
      ensures sort == PriceAsc ==> forall k, m :: 0 <= k < m < |visible| ==> visible[k].price <= visible[m].price
      ensures sort == PriceDesc ==> forall k, m :: 0 <= k < m < |visible| ==> visible[k].price >= visible[m].price
      ensures sort != PriceAsc && sort != PriceDesc ==>
                forall k, m :: 0 <= k < m < |visible| ==> nameCompare(visible[k].name, visible[m].name) <= 0
    {
      var list := products;

      if categoryId != AllCategories {
        list := Filter(list, InCategory(categoryId));
      }

      var sorted := new Product[|list|](k requires 0 <= k < |list| => list[k]);
      assert sorted[..] == list;
      var cmp := Comparator(sort, nameCompare);
      ComparatorIsTotalPreorder(sort, nameCompare);
      SortInPlace(sorted, cmp);

      visible := sorted[..];
      SelectCategoryContents(products, categoryId);
      assert |visible| == |multiset(visible)|;
      assert forall k, m :: 0 <= k < m < |visible| ==> InOrder(cmp, visible[k], visible[m]);
    }
  }
}
