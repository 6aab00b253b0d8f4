/** The filter-and-sort effect of src/pages/SearchPage.tsx: a chain of
    filters over the loaded products (text query, category, effective-price
    range, brand, stock) followed by a sort chosen by `sortBy`. */
module Search {
  import opened Catalog
  import opened Text

  /** The page's filter state. Price bounds are the raw text of their inputs. */
  datatype Filters = Filters(
    category: string,
    minPrice: string,
    maxPrice: string,
    brand: string,
    sortBy: string,
    inStock: bool)

  /** `clearFilters`: every filter off, sorting by relevance. */
  const DefaultFilters := Filters("", "", "", "", "relevance", false)

  // ---------------------------------------------------------------------------
  // Filtering

  /** The elements `keep` accepts, in their order. */
  function Where(xs: seq<Product>, keep: Product -> bool): (r: seq<Product>)
    ensures multiset(r) <= multiset(xs)
    ensures forall k :: 0 <= k < |r| ==> keep(r[k])
    ensures forall x :: x in xs && keep(x) ==> x in r
    decreases |xs|
  {
    if |xs| == 0 then []
    else
      var rest := Where(xs[..|xs| - 1], keep);
      assert xs == xs[..|xs| - 1] + [xs[|xs| - 1]];
      if keep(xs[|xs| - 1]) then rest + [xs[|xs| - 1]] else rest
  }

  /** Two filters in a row keep exactly what one conjunctive filter keeps. */
  lemma {:induction false} WhereWhere(xs: seq<Product>, a: Product -> bool, b: Product -> bool, c: Product -> bool)
    requires forall x :: c(x) == (a(x) && b(x))
    ensures Where(Where(xs, a), b) == Where(xs, c)
    decreases |xs|
  {
    if |xs| > 0 {
      var init := xs[..|xs| - 1];
      var last := xs[|xs| - 1];
      WhereWhere(init, a, b, c);
      if a(last) {
        var wa := Where(init, a);
        assert (wa + [last])[..|wa|] == wa;
      }
    }
  }

  /** The text match: the lower-cased query occurs in the lower-cased title,
      description, brand or category. The query itself is not trimmed. */
  predicate MatchesQuery(p: Product, query: string) {
    var q := Lower(query);
    Contains(Lower(p.title), q) || Contains(Lower(p.description), q)
    || Contains(Lower(p.brand), q) || Contains(Lower(p.category), q)
  }

  /** The query filter: a blank query keeps everything; any other query keeps
      the products in one of whose four text fields, lower-cased, the
      lower-cased query occurs. */
  function QueryOk(p: Product, query: string): (r: bool)
    ensures IsBlank(query) ==> r
    ensures !IsBlank(query) ==> (r <==>
      var q := Lower(query);
      (exists i :: OccursAt(Lower(p.title), q, i)) || (exists i :: OccursAt(Lower(p.description), q, i))
      || (exists i :: OccursAt(Lower(p.brand), q, i)) || (exists i :: OccursAt(Lower(p.category), q, i)))
  {
    var q := Lower(query);
    ContainsIffOccurs(Lower(p.title), q);
    ContainsIffOccurs(Lower(p.description), q);
    ContainsIffOccurs(Lower(p.brand), q);
    ContainsIffOccurs(Lower(p.category), q);
    IsBlank(query) || MatchesQuery(p, query)
  }

  /** The category filter: off when empty, otherwise an exact match. */
  function CategoryOk(p: Product, f: Filters): (r: bool)
    ensures f.category == "" ==> r
    ensures f.category != "" ==> (r <==> p.category == f.category)
  {
    f.category == "" || p.category == f.category
  }

  /** The lower price bound: off when its input is empty, otherwise it keeps
      the products whose effective (discounted) price reaches the bound. */
  function MinPriceOk(p: Product, f: Filters, parse: string -> real): (r: bool)
    ensures f.minPrice == "" ==> r
    ensures f.minPrice != "" ==> (r <==> parse(f.minPrice) <= EffectivePrice(p))
  {
    f.minPrice == "" || EffectivePrice(p) >= parse(f.minPrice)
  }

  /** The upper price bound, on the effective price as well. */
  function MaxPriceOk(p: Product, f: Filters, parse: string -> real): (r: bool)
    ensures f.maxPrice == "" ==> r
    ensures f.maxPrice != "" ==> (r <==> EffectivePrice(p) <= parse(f.maxPrice))
  {
    f.maxPrice == "" || EffectivePrice(p) <= parse(f.maxPrice)
  }

  /** The brand filter: off when empty, otherwise a case-insensitive substring
      match on the brand. */
  function BrandOk(p: Product, f: Filters): (r: bool)
    ensures r <==> f.brand == "" || exists i :: OccursAt(Lower(p.brand), Lower(f.brand), i)
  {
    ContainsIffOccurs(Lower(p.brand), Lower(f.brand));
    f.brand == "" || Contains(Lower(p.brand), Lower(f.brand))
  }

  /** The stock filter: off unless ticked, then it keeps products with stock. */
  function StockOk(p: Product, f: Filters): (r: bool)
    ensures !f.inStock ==> r
    ensures f.inStock ==> (r <==> p.stock >= 1)
  {
    !f.inStock || p.stock > 0
  }

  /** A product survives the whole chain: every active filter accepts it. */
  predicate Passes(p: Product, query: string, f: Filters, parse: string -> real) {
    QueryOk(p, query) && CategoryOk(p, f) && MinPriceOk(p, f, parse)
    && MaxPriceOk(p, f, parse) && BrandOk(p, f) && StockOk(p, f)
  }

  /** The filter chain in the page's order. */
  function FilterChain(products: seq<Product>, query: string, f: Filters, parse: string -> real): seq<Product> {
    var byQuery := Where(products, p => QueryOk(p, query));
    var byCategory := Where(byQuery, p => CategoryOk(p, f));
    var byMin := Where(byCategory, p => MinPriceOk(p, f, parse));
    var byMax := Where(byMin, p => MaxPriceOk(p, f, parse));
    var byBrand := Where(byMax, p => BrandOk(p, f));
    Where(byBrand, p => StockOk(p, f))
  }

  /** The chain of six filters is one conjunctive filter: it keeps, in their
      original order, exactly the products every active filter accepts. */
  lemma FilterChainIsConjunction(products: seq<Product>, query: string, f: Filters, parse: string -> real)
    ensures FilterChain(products, query, f, parse) == Where(products, p => Passes(p, query, f, parse))
  {
    var q := (p: Product) => QueryOk(p, query);
    var qc := (p: Product) => QueryOk(p, query) && CategoryOk(p, f);
    var qcl := (p: Product) => qc(p) && MinPriceOk(p, f, parse);
    var qclh := (p: Product) => qcl(p) && MaxPriceOk(p, f, parse);
    var qclhb := (p: Product) => qclh(p) && BrandOk(p, f);
    var all := (p: Product) => Passes(p, query, f, parse);
    WhereWhere(products, q, p => CategoryOk(p, f), qc);
    WhereWhere(products, qc, p => MinPriceOk(p, f, parse), qcl);
    WhereWhere(products, qcl, p => MaxPriceOk(p, f, parse), qclh);
    WhereWhere(products, qclh, p => BrandOk(p, f), qclhb);
    WhereWhere(products, qclhb, p => StockOk(p, f), all);
  }

  // ---------------------------------------------------------------------------
  // Sorting

  predicate SortedBy(xs: seq<Product>, key: Product -> real) {
    forall i, j :: 0 <= i < j < |xs| ==> key(xs[i]) <= key(xs[j])
  }

  /** Insert `x` after the last element whose key does not exceed its own. */
  function InsertSorted(s: seq<Product>, x: Product, key: Product -> real): (r: seq<Product>)
    requires SortedBy(s, key)
    ensures SortedBy(r, key)
    ensures multiset(r) == multiset(s) + multiset{x}
    decreases |s|
  {
    if |s| == 0 then [x]
    else
      var init := s[..|s| - 1];
      var last := s[|s| - 1];
      assert s == init + [last];
      if key(last) <= key(x) then s + [x]
      else
        var a := InsertSorted(init, x, key);
        AppendLargest(a, init, x, last, key);
        a + [last]
  }

  /** Appending an element whose key bounds every key of a sorted list keeps it
      sorted; here the list is `init` with `x` inserted. */
  lemma AppendLargest(a: seq<Product>, init: seq<Product>, x: Product, last: Product, key: Product -> real)
    requires SortedBy(a, key)
    requires multiset(a) == multiset(init) + multiset{x}
    requires forall k :: 0 <= k < |init| ==> key(init[k]) <= key(last)
    requires key(x) < key(last)
    ensures SortedBy(a + [last], key)
  {
    forall k | 0 <= k < |a| ensures key(a[k]) <= key(last) {
      assert a[k] in multiset(a);
      if a[k] != x {
        assert a[k] in multiset(init);
        var m :| 0 <= m < |init| && init[m] == a[k];
      }
    }
    var r := a + [last];
    forall i, j | 0 <= i < j < |r| ensures key(r[i]) <= key(r[j]) {
      assert r[i] == a[i];
      if j < |a| {
        assert r[j] == a[j];
      }
    }
  }

  /** A stable insertion sort on `key`, ascending. */
  function SortByKey(xs: seq<Product>, key: Product -> real): (r: seq<Product>)
    ensures SortedBy(r, key)
    ensures multiset(r) == multiset(xs)
    decreases |xs|
  {
    if |xs| == 0 then []
    else
      assert xs == xs[..|xs| - 1] + [xs[|xs| - 1]];
      InsertSorted(SortByKey(xs[..|xs| - 1], key), xs[|xs| - 1], key)
  }

  /** The comparator of each `sortBy` choice, as an ascending key.
      `createdAt` stands for the parsed `created_at` timestamp and `titleRank`
      for the `localeCompare` order of titles, neither of which is modelled. */
  function SortKey(sortBy: string, createdAt: Product -> real, titleRank: Product -> real): (key: Product -> real)
    ensures sortBy == "price_low" ==> forall p, q :: key(p) <= key(q) <==> EffectivePrice(p) <= EffectivePrice(q)
    ensures sortBy == "price_high" ==> forall p, q :: key(p) <= key(q) <==> EffectivePrice(p) >= EffectivePrice(q)
    ensures sortBy == "rating" ==> forall p, q :: key(p) <= key(q) <==> p.rating >= q.rating
    ensures sortBy == "newest" ==> forall p, q :: key(p) <= key(q) <==> createdAt(p) >= createdAt(q)
    ensures sortBy == "oldest" ==> forall p, q :: key(p) <= key(q) <==> createdAt(p) <= createdAt(q)
    ensures sortBy !in {"price_low", "price_high", "rating", "newest", "oldest"} ==> key == titleRank
  {
    if sortBy == "price_low" then (p: Product) => EffectivePrice(p)
    else if sortBy == "price_high" then (p: Product) => -EffectivePrice(p)
    else if sortBy == "rating" then (p: Product) => -p.rating
    else if sortBy == "newest" then (p: Product) => -createdAt(p)
    else if sortBy == "oldest" then (p: Product) => createdAt(p)
    else titleRank
  }

  /** The whole effect: filter, then sort. */
  function Results(products: seq<Product>, query: string, f: Filters, parse: string -> real,
                   createdAt: Product -> real, titleRank: Product -> real): (r: seq<Product>)
    ensures multiset(r) <= multiset(products)
  {
    var key := SortKey(f.sortBy, createdAt, titleRank);
    FilterChainIsConjunction(products, query, f, parse);
    SortByKey(FilterChain(products, query, f, parse), key)
  }

  /** Every result is a loaded product accepted by every active filter, and
      every loaded product accepted by every filter is among the results, as
      many times as it was loaded. */
  lemma ResultsAreExactlyThePassingProducts(products: seq<Product>, query: string, f: Filters,
                                             parse: string -> real, createdAt: Product -> real,
                                             titleRank: Product -> real)
    ensures var r := Results(products, query, f, parse, createdAt, titleRank);
      && multiset(r) == multiset(Where(products, p => Passes(p, query, f, parse)))
      && (forall k :: 0 <= k < |r| ==> Passes(r[k], query, f, parse))
      && (forall p :: p in products && Passes(p, query, f, parse) ==> p in r)
  {
    FilterChainIsConjunction(products, query, f, parse);
    var r := Results(products, query, f, parse, createdAt, titleRank);
    PermutedFilter(products, p => Passes(p, query, f, parse), r);
  }

  /** A reordering of a filtered list holds exactly the kept elements. */
  lemma PermutedFilter(xs: seq<Product>, keep: Product -> bool, r: seq<Product>)
    requires multiset(r) == multiset(Where(xs, keep))
    ensures forall k :: 0 <= k < |r| ==> keep(r[k])
    ensures forall x :: x in xs && keep(x) ==> x in r
  {
    var w := Where(xs, keep);
    forall k | 0 <= k < |r| ensures keep(r[k]) {
      assert r[k] in multiset(w);
      var m :| 0 <= m < |w| && w[m] == r[k];
    }
    forall x | x in xs && keep(x) ensures x in r {
      assert x in multiset(w);
      assert x in multiset(r);
    }
  }

  /** `price_low` lists effective prices in non-decreasing order and
      `price_high` in non-increasing order. */
  lemma PriceSortsAreOrdered(products: seq<Product>, query: string, f: Filters, parse: string -> real,
                             createdAt: Product -> real, titleRank: Product -> real)
    ensures var r := Results(products, query, f, parse, createdAt, titleRank);
      && (f.sortBy == "price_low" ==> forall i, j :: 0 <= i < j < |r| ==> EffectivePrice(r[i]) <= EffectivePrice(r[j]))
      && (f.sortBy == "price_high" ==> forall i, j :: 0 <= i < j < |r| ==> EffectivePrice(r[i]) >= EffectivePrice(r[j]))
  {
    var r := Results(products, query, f, parse, createdAt, titleRank);
    var key := SortKey(f.sortBy, createdAt, titleRank);
    assert SortedBy(r, key);
  }

  /** With the default filters and a blank query nothing is filtered out: the
      results are the loaded products, reordered. */
  lemma ClearedFiltersKeepEverything(products: seq<Product>, query: string, parse: string -> real,
                                     createdAt: Product -> real, titleRank: Product -> real)
    requires IsBlank(query)
    ensures multiset(Results(products, query, DefaultFilters, parse, createdAt, titleRank)) == multiset(products)
  {
    var keep := (p: Product) => Passes(p, query, DefaultFilters, parse);
    forall x: Product ensures keep(x) {
      assert QueryOk(x, query) && CategoryOk(x, DefaultFilters) && BrandOk(x, DefaultFilters);
      assert MinPriceOk(x, DefaultFilters, parse) && MaxPriceOk(x, DefaultFilters, parse);
      assert StockOk(x, DefaultFilters);
    }
    WhereAll(products, keep);
    ResultsAreExactlyThePassingProducts(products, query, DefaultFilters, parse, createdAt, titleRank);
  }

  lemma {:induction false} WhereAll(xs: seq<Product>, keep: Product -> bool)
    requires forall x :: keep(x)
    ensures Where(xs, keep) == xs
    decreases |xs|
  {
    if |xs| > 0 {
      WhereAll(xs[..|xs| - 1], keep);
      assert xs == xs[..|xs| - 1] + [xs[|xs| - 1]];
    }
  }
}
