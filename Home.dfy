/** The product list page: the search, category and sort pipeline that
    derives the displayed products, the category buttons, and the
    settings remembered in local storage. The product list itself comes
    from the catalog service and is an input here. */
module Home {
  import opened Wrappers
  import opened Text

  /** A catalog product; prices and ratings are exact integers. */
  datatype Product = Product(id: int, title: string, category: string, price: int, rating: int)

  const ALL := "All"
  const DEFAULT_SORT := "default"

  /** `queryParams.get("search")?.toLowerCase() || ""`, from the already
      decoded value of the `search` parameter. */
  function SearchTerm(param: Option<string>): (t: string)
    ensures IsLowerCase(t)
    ensures param.None? ==> t == ""
    ensures param.Some? ==> t == ToLower(param.value)
  {
    match param
    case None => ""
    case Some(v) => ToLower(v)
  }

  /** `localStorage.getItem(key) || fallback`: an absent or empty stored value gives the fallback. */
  function StoredOr(storage: map<string, string>, key: string, fallback: string): (v: string)
    ensures key in storage && storage[key] != "" ==> v == storage[key]
    ensures key !in storage || storage[key] == "" ==> v == fallback
  {
    if key in storage && storage[key] != "" then storage[key] else fallback
  }

  /** A filter stage of the pipeline. */
  datatype Criterion = MatchesSearch(term: string) | InCategory(category: string)

  predicate Keeps(c: Criterion, p: Product) {
    match c
    case MatchesSearch(term) => Includes(ToLower(p.title), term) || Includes(ToLower(p.category), term)
    case InCategory(cat) => ToLower(p.category) == ToLower(cat)
  }

  /** `s.filter(p => Keeps(c, p))`: the kept products, each as often as in `s`. */
  function Filter(s: seq<Product>, c: Criterion): (r: seq<Product>)
    ensures forall k :: 0 <= k < |r| ==> Keeps(c, r[k])
    ensures forall p :: multiset(r)[p] == if Keeps(c, p) then multiset(s)[p] else 0
  {
    if s == [] then []
    else
      assert s == [s[0]] + s[1..];
      (if Keeps(c, s[0]) then [s[0]] else []) + Filter(s[1..], c)
  }

  /** `a` is `b` with some elements left out, the rest in their order. */
  predicate IsSubsequence(a: seq<Product>, b: seq<Product>)
    decreases |b|
  {
    a == [] || (b != [] && ((a[0] == b[0] && IsSubsequence(a[1..], b[1..])) || IsSubsequence(a, b[1..])))
  }

  lemma {:induction false} FilterIsSubsequence(s: seq<Product>, c: Criterion)
    ensures IsSubsequence(Filter(s, c), s)
  {
    if s != [] {
      FilterIsSubsequence(s[1..], c);
      var r := Filter(s, c);
      if Keeps(c, s[0]) {
        assert r[0] == s[0] && r[1..] == Filter(s[1..], c);
      } else {
        assert r == Filter(s[1..], c);
      }
    }
  }

  lemma {:induction false} SubsequenceTransitive(a: seq<Product>, b: seq<Product>, c: seq<Product>)
    requires IsSubsequence(a, b) && IsSubsequence(b, c)
    ensures IsSubsequence(a, c)
    decreases |c|
  {
    if a != [] {
      if b == [] {
      } else if b[0] == c[0] && IsSubsequence(b[1..], c[1..]) {
        if a[0] == b[0] && IsSubsequence(a[1..], b[1..]) {
          SubsequenceTransitive(a[1..], b[1..], c[1..]);
        } else {
          SubsequenceTransitive(a, b[1..], c[1..]);
        }
      } else {
        SubsequenceTransitive(a, b, c[1..]);
      }
    }
  }

  lemma {:induction false} SubsequenceReflexive(s: seq<Product>)
    ensures IsSubsequence(s, s)
  {
    if s != [] {
      SubsequenceReflexive(s[1..]);
    }
  }

  /** The sort options the page offers besides `"default"`. */
  datatype SortOrder = PriceLowHigh | PriceHighLow | RatingHighLow

  /** The option strings; anything else, `"default"` included, leaves the order alone. */
  function SortOrderOf(option: string): (o: Option<SortOrder>)
    ensures o == Some(PriceLowHigh) <==> option == "priceLowHigh"
    ensures o == Some(PriceHighLow) <==> option == "priceHighLow"
    ensures o == Some(RatingHighLow) <==> option == "ratingHighLow"
  {
    if option == "priceLowHigh" then Some(PriceLowHigh)
    else if option == "priceHighLow" then Some(PriceHighLow)
    else if option == "ratingHighLow" then Some(RatingHighLow)
    else None
  }

  /** The key whose ascending order each comparator produces:
      `a.price - b.price`, `b.price - a.price`, `b.rating - a.rating`. */
  function Rank(o: SortOrder, p: Product): int {
    match o
    case PriceLowHigh => p.price
    case PriceHighLow => -p.price
    case RatingHighLow => -p.rating
  }

  ghost predicate SortedBy(s: seq<Product>, o: SortOrder) {
    forall i, j :: 0 <= i < j < |s| ==> Rank(o, s[i]) <= Rank(o, s[j])
  }

  /** A sorted sequence stays sorted under a head that ranks no higher than its first element. */
  lemma ConsSorted(h: Product, t: seq<Product>, o: SortOrder)
    requires SortedBy(t, o)
    requires t != [] ==> Rank(o, h) <= Rank(o, t[0])
    ensures SortedBy([h] + t, o)
  {
    var r := [h] + t;
    forall i, j | 0 <= i < j < |r|
      ensures Rank(o, r[i]) <= Rank(o, r[j])
    {
      if i == 0 {
        assert r[j] == t[j - 1];
        assert Rank(o, t[0]) <= Rank(o, t[j - 1]) || j == 1;
      } else {
        assert r[i] == t[i - 1] && r[j] == t[j - 1];
      }
    }
  }

  /** Puts `x` before the first element it does not rank after. */
  function Insert(x: Product, s: seq<Product>, o: SortOrder): (r: seq<Product>)
    requires SortedBy(s, o)
    ensures SortedBy(r, o)
    ensures multiset(r) == multiset(s) + multiset{x}
    ensures r[0] == x || (s != [] && r[0] == s[0])
  {
    if s == [] then [x]
    else if Rank(o, x) <= Rank(o, s[0]) then
      ConsSorted(x, s, o);
      [x] + s
    else
      SortedTail(s, o);
      var t := Insert(x, s[1..], o);
      assert s == [s[0]] + s[1..];
      assert |s| > 1 ==> Rank(o, s[0]) <= Rank(o, s[1]);
      ConsSorted(s[0], t, o);
      [s[0]] + t
  }

  /** `result.sort(comparator)`: JavaScript's sort is stable, so the result
      is the input ordered by rank with ties kept in input order, which an
      insertion sort from the back produces. */
  function SortBy(s: seq<Product>, o: SortOrder): (r: seq<Product>)
    ensures SortedBy(r, o)
    ensures multiset(r) == multiset(s)
  {
    if s == [] then []
    else
      assert s == [s[0]] + s[1..];
      Insert(s[0], SortBy(s[1..], o), o)
  }

  /** The products of one rank, in sequence order. */
  function OfRank(s: seq<Product>, o: SortOrder, v: int): seq<Product> {
    if s == [] then []
    else (if Rank(o, s[0]) == v then [s[0]] else []) + OfRank(s[1..], o, v)
  }

  lemma SortedTail(s: seq<Product>, o: SortOrder)
    requires SortedBy(s, o) && s != []
    ensures SortedBy(s[1..], o)
  {
    forall i, j | 0 <= i < j < |s| - 1
      ensures Rank(o, s[1..][i]) <= Rank(o, s[1..][j])
    {
      assert s[1..][i] == s[i + 1] && s[1..][j] == s[j + 1];
    }
  }

  lemma OfRankCons(a: Product, t: seq<Product>, o: SortOrder, v: int)
    ensures OfRank([a] + t, o, v) == (if Rank(o, a) == v then [a] else []) + OfRank(t, o, v)
  {
    assert ([a] + t)[0] == a && ([a] + t)[1..] == t;
  }

  lemma SwapEmpty(h: seq<Product>, m: seq<Product>, rest: seq<Product>)
    requires h == [] || m == []
    ensures h + (m + rest) == m + (h + rest)
  {
    if h == [] {
      assert h + (m + rest) == m + rest == m + (h + rest);
    } else {
      assert h + (m + rest) == h + rest == m + (h + rest);
    }
  }

  /** Inserting goes in front of the products of equal rank. */
  lemma {:induction false} InsertBeforeEqual(x: Product, s: seq<Product>, o: SortOrder, v: int)
    requires SortedBy(s, o)
    ensures OfRank(Insert(x, s, o), o, v) == (if Rank(o, x) == v then [x] else []) + OfRank(s, o, v)
  {
    if s == [] || Rank(o, x) <= Rank(o, s[0]) {
      assert Insert(x, s, o) == [x] + s;
      OfRankCons(x, s, o, v);
    } else {
      SortedTail(s, o);
      var head, tail := s[0], s[1..];
      var t := Insert(x, tail, o);
      assert Insert(x, s, o) == [head] + t;
      assert s == [head] + tail;
      OfRankCons(head, t, o, v);
      OfRankCons(head, tail, o, v);
      InsertBeforeEqual(x, tail, o, v);
      var h := if Rank(o, head) == v then [head] else [];
      var m := if Rank(o, x) == v then [x] else [];
      // `head` ranks strictly before `x`, so at most one of them has rank `v`.
      assert h == [] || m == [];
      SwapEmpty(h, m, OfRank(tail, o, v));
    }
  }

  /** The sort is stable: products of equal rank keep their input order. */
  lemma {:induction false} SortIsStable(s: seq<Product>, o: SortOrder, v: int)
    ensures OfRank(SortBy(s, o), o, v) == OfRank(s, o, v)
  {
    if s != [] {
      SortIsStable(s[1..], o, v);
      InsertBeforeEqual(s[0], SortBy(s[1..], o), o, v);
    }
  }

  /** What `applyFilters(productList, search, category, sort)` stores in
      `filteredProducts` for an array `productList`. */
  function Pipeline(products: seq<Product>, search: string, category: string, sort: string): (r: seq<Product>)
    ensures multiset(r) <= multiset(products)
  {
    var searched := if search != "" then Filter(products, MatchesSearch(search)) else products;
    var categorised := if category != ALL then Filter(searched, InCategory(category)) else searched;
    match SortOrderOf(sort)
    case None => categorised
    case Some(o) => SortBy(categorised, o)
  }

  /** The products that pass both filters, before sorting. */
  predicate Selected(p: Product, search: string, category: string) {
    && (search != "" ==> Keeps(MatchesSearch(search), p))
    && (category != ALL ==> Keeps(InCategory(category), p))
  }

  /** The pipeline keeps exactly the selected products, each as often as in
      its input: a permutation of the filtered sub-list. */
  lemma PipelineSelects(products: seq<Product>, search: string, category: string, sort: string, p: Product)
    ensures multiset(Pipeline(products, search, category, sort))[p]
            == if Selected(p, search, category) then multiset(products)[p] else 0
  {
  }

  /** With a search term every result's lower-cased title or category contains it. */
  lemma PipelineMatchesSearch(products: seq<Product>, search: string, category: string, sort: string, k: int)
    requires search != "" && 0 <= k < |Pipeline(products, search, category, sort)|
    ensures var p := Pipeline(products, search, category, sort)[k];
            Includes(ToLower(p.title), search) || Includes(ToLower(p.category), search)
  {
    var r := Pipeline(products, search, category, sort);
    assert r[k] in multiset(r);
    PipelineSelects(products, search, category, sort, r[k]);
  }

  /** With a category other than "All" every result is in it, ignoring case. */
  lemma PipelineInCategory(products: seq<Product>, search: string, category: string, sort: string, k: int)
    requires category != ALL && 0 <= k < |Pipeline(products, search, category, sort)|
    ensures ToLower(Pipeline(products, search, category, sort)[k].category) == ToLower(category)
  {
    var r := Pipeline(products, search, category, sort);
    assert r[k] in multiset(r);
    PipelineSelects(products, search, category, sort, r[k]);
  }

  /** Without a recognised sort option the result keeps the input order. */
  lemma PipelineUnsortedKeepsOrder(products: seq<Product>, search: string, category: string, sort: string)
    requires SortOrderOf(sort).None?
    ensures IsSubsequence(Pipeline(products, search, category, sort), products)
  {
    var searched := if search != "" then Filter(products, MatchesSearch(search)) else products;
    if search != "" {
      FilterIsSubsequence(products, MatchesSearch(search));
    } else {
      SubsequenceReflexive(products);
    }
    if category != ALL {
      FilterIsSubsequence(searched, InCategory(category));
      SubsequenceTransitive(Filter(searched, InCategory(category)), searched, products);
    }
  }

  /** Each sort option yields its order. */
  lemma PipelineSorted(products: seq<Product>, search: string, category: string, sort: string, i: int, j: int)
    requires 0 <= i < j < |Pipeline(products, search, category, sort)|
    ensures var r := Pipeline(products, search, category, sort);
            && (sort == "priceLowHigh" ==> r[i].price <= r[j].price)
            && (sort == "priceHighLow" ==> r[i].price >= r[j].price)
            && (sort == "ratingHighLow" ==> r[i].rating >= r[j].rating)
  {
  }

  /** The `if (searchTerm)` guard only saves work: the empty term is in
      every title, so filtering by it would keep every product. */
  lemma {:induction false} EmptySearchKeepsAll(products: seq<Product>)
    ensures Filter(products, MatchesSearch("")) == products
  {
    if products != [] {
      IncludesEmpty(ToLower(products[0].title));
      EmptySearchKeepsAll(products[1..]);
    }
  }

  /** No search, "All" and "default" show the whole list unchanged. */
  lemma PipelineIdentity(products: seq<Product>)
    ensures Pipeline(products, "", ALL, DEFAULT_SORT) == products
  {
  }

  /** `new Set(xs)` iterated: the distinct elements in order of first appearance. */
  function Distinct(xs: seq<string>): (r: seq<string>)
    ensures forall x :: x in r <==> x in xs
    ensures forall i, j :: 0 <= i < j < |r| ==> r[i] != r[j]
  {
    if xs == [] then []
    else
      var d := Distinct(xs[..|xs| - 1]);
      assert forall x :: x in xs <==> x in xs[..|xs| - 1] || x == xs[|xs| - 1];
      if xs[|xs| - 1] in d then d else d + [xs[|xs| - 1]]
  }

  /** Index of the first occurrence of `x` in `xs`. */
  function FirstIndex(xs: seq<string>, x: string): (i: nat)
    requires x in xs
    ensures i < |xs| && xs[i] == x
    ensures forall k :: 0 <= k < i ==> xs[k] != x
  {
    if xs[0] == x then 0 else 1 + FirstIndex(xs[1..], x)
  }

  lemma {:induction false} FirstIndexOfPrefix(xs: seq<string>, y: string, x: string)
    requires x in xs
    ensures x in xs + [y] && FirstIndex(xs + [y], x) == FirstIndex(xs, x)
  {
    if xs[0] != x {
      assert (xs + [y])[1..] == xs[1..] + [y];
      FirstIndexOfPrefix(xs[1..], y, x);
    }
  }

  /** The distinct elements appear in the order of their first occurrences. */
  lemma {:induction false} DistinctInFirstAppearanceOrder(xs: seq<string>, i: int, j: int)
    requires 0 <= i < j < |Distinct(xs)|
    ensures Distinct(xs)[i] in xs && Distinct(xs)[j] in xs
    ensures FirstIndex(xs, Distinct(xs)[i]) < FirstIndex(xs, Distinct(xs)[j])
    decreases |xs|
  {
    var init, last := xs[..|xs| - 1], xs[|xs| - 1];
    assert xs == init + [last];
    var d := Distinct(init);
    var r := Distinct(xs);
    assert r[i] in xs && r[j] in xs;
    if j < |d| {
      DistinctInFirstAppearanceOrder(init, i, j);
      FirstIndexOfPrefix(init, last, r[i]);
      FirstIndexOfPrefix(init, last, r[j]);
    } else {
      assert r[j] == last && last !in init;
      assert r[i] in init;
      FirstIndexOfPrefix(init, last, r[i]);
      assert FirstIndex(xs, last) == |init|;
    }
  }

  /** `products.map(p => p.category)`. */
  function Categories(products: seq<Product>): (cats: seq<string>)
    ensures |cats| == |products|
    ensures forall k :: 0 <= k < |products| ==> cats[k] == products[k].category
  {
    seq(|products|, k requires 0 <= k < |products| => products[k].category)
  }

  /** The category buttons: "All", then each product category once, in order of first appearance. */
  function CategoryList(products: seq<Product>): (r: seq<string>)
    ensures |r| >= 1 && r[0] == ALL
    ensures r[1..] == Distinct(Categories(products))
    ensures forall i, j :: 1 <= i < j < |r| ==> r[i] != r[j]
    ensures forall c :: c in r[1..] <==> exists k :: 0 <= k < |products| && products[k].category == c
  {
    var cats := Categories(products);
    forall c | c in cats ensures exists k :: 0 <= k < |products| && products[k].category == c {
      var k :| 0 <= k < |cats| && cats[k] == c;
      assert products[k].category == c;
    }
    forall k | 0 <= k < |products| ensures products[k].category in cats {
      assert cats[k] == products[k].category;
    }
    assert ([ALL] + Distinct(cats))[1..] == Distinct(cats);
    [ALL] + Distinct(cats)
  }

  class HomePage {
    var products: seq<Product>
    var filteredProducts: seq<Product>
    var categories: seq<string>
    var activeCategory: string
    var sortOption: string
    /** The `activeCategory` and `sortOption` entries of local storage. */
    var storage: map<string, string>

    /** Initial state: empty lists, settings from storage or their defaults. */
    constructor(storage: map<string, string>)
      ensures products == [] && filteredProducts == [] && categories == []
      ensures activeCategory == StoredOr(storage, "activeCategory", ALL)
      ensures sortOption == StoredOr(storage, "sortOption", DEFAULT_SORT)
      ensures this.storage == storage
    {
      products := [];
      filteredProducts := [];
      categories := [];
      activeCategory := StoredOr(storage, "activeCategory", ALL);
      sortOption := StoredOr(storage, "sortOption", DEFAULT_SORT);
      this.storage := storage;
    }

    /** `applyFilters`; `productList` is `None` when it is not an array,
        which leaves the displayed list as it was. */
    method ApplyFilters(productList: Option<seq<Product>>, search: string, category: string, sort: string)
      modifies this
      ensures productList.None? ==> filteredProducts == old(filteredProducts)
      ensures productList.Some? ==> filteredProducts == Pipeline(productList.value, search, category, sort)
      ensures products == old(products) && categories == old(categories) && storage == old(storage)
      ensures activeCategory == old(activeCategory) && sortOption == old(sortOption)
    {
      if productList.None? {
        return;
      }
      var result := productList.value;
      if search != "" {
        result := Filter(result, MatchesSearch(search));
      }
      if category != ALL {
        result := Filter(result, InCategory(category));
      }
      var order := SortOrderOf(sort);
      if order.Some? {
        result := SortBy(result, order.value);
      }
      filteredProducts := result;
    }

    /** The catalog response arrives (`data.products || []`): the list, its
        categories and the filtered view are set. */
    method ProductsLoaded(data: Option<seq<Product>>, searchTerm: string)
      modifies this
      ensures products == data.GetOr([])
      ensures categories == CategoryList(products)
      ensures filteredProducts == Pipeline(products, searchTerm, activeCategory, sortOption)
      ensures activeCategory == old(activeCategory) && sortOption == old(sortOption) && storage == old(storage)
    {
      var productList := data.GetOr([]);
      products := productList;
      categories := CategoryList(productList);
      ApplyFilters(Some(productList), searchTerm, activeCategory, sortOption);
    }

    /** The settings change: both are remembered in storage and the view is
        filtered again. */
    method ChangeSettings(category: string, sort: string, searchTerm: string)
      modifies this
      ensures activeCategory == category && sortOption == sort
      ensures storage == old(storage)["activeCategory" := category]["sortOption" := sort]
      ensures filteredProducts == Pipeline(products, searchTerm, category, sort)
      ensures products == old(products) && categories == old(categories)
    {
      activeCategory := category;
      sortOption := sort;
      storage := storage["activeCategory" := activeCategory]["sortOption" := sortOption];
      ApplyFilters(Some(products), searchTerm, activeCategory, sortOption);
    }

    /** A category button. */
    method SelectCategory(category: string, searchTerm: string)
      modifies this
      ensures activeCategory == category && sortOption == old(sortOption)
      ensures storage == old(storage)["activeCategory" := category]["sortOption" := old(sortOption)]
      ensures filteredProducts == Pipeline(products, searchTerm, category, old(sortOption))
      ensures products == old(products) && categories == old(categories)
    {
      ChangeSettings(category, sortOption, searchTerm);
    }

    /** The sort selector. */
    method SelectSort(sort: string, searchTerm: string)
      modifies this
      ensures sortOption == sort && activeCategory == old(activeCategory)
      ensures storage == old(storage)["activeCategory" := old(activeCategory)]["sortOption" := sort]
      ensures filteredProducts == Pipeline(products, searchTerm, old(activeCategory), sort)
      ensures products == old(products) && categories == old(categories)
    {
      ChangeSettings(activeCategory, sort, searchTerm);
    }
  }

  const NO_MATCH := "No products match your filters \U{1F614}"
  const LOADING := "Loading products..."

  /** The text shown when the grid is empty: a filter is active, or the
      catalog has not arrived yet. */
  function EmptyGridMessage(searchTerm: string, activeCategory: string): (m: string)
    ensures m == NO_MATCH <==> searchTerm != "" || activeCategory != ALL
    ensures m == LOADING <==> searchTerm == "" && activeCategory == ALL
  {
    if searchTerm != "" || activeCategory != ALL then NO_MATCH else LOADING
  }

  /** "Loading products..." is shown only while no filter is active, so an
      empty grid under it means an empty catalogue, never a filter that
      matched nothing. */
  lemma LoadingMeansNoProducts(products: seq<Product>, search: string, category: string, sort: string)
    requires EmptyGridMessage(search, category) == LOADING
    ensures Pipeline(products, search, category, sort) == [] <==> products == []
  {
    var r := Pipeline(products, search, category, sort);
    forall p ensures multiset(r)[p] == multiset(products)[p] {
      PipelineSelects(products, search, category, sort, p);
    }
    assert multiset(r) == multiset(products);
    assert |r| == |multiset(r)|;
  }

  /** The settings a page stores are the ones a new page starts with. */
  lemma SettingsRoundTrip(storage: map<string, string>, category: string, sort: string)
    requires category != "" && sort != ""
    ensures var s := storage["activeCategory" := category]["sortOption" := sort];
            StoredOr(s, "activeCategory", ALL) == category && StoredOr(s, "sortOption", DEFAULT_SORT) == sort
  {
  }
}
