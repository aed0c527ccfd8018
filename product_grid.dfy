/**
  The catalog query engine of `src/components/ui/product-grid.tsx`: the filter
  record, the facet lists derived from the unfiltered products, the filter
  predicate, the stable sort by one of four keys, the filter toggles, the
  add-to-cart guard and the discount badge.
*/
module ProductGrid {
  import opened Wrappers
  import opened Catalog
  import opened Cart

  /** The `Filters` record. `priceRange` is the inclusive pair `[min, max]`. */
  datatype Filters = Filters(
    colors: seq<string>,
    sizes: seq<string>,
    priceRange: (int, int),
    sortBy: string,
    showOnlyInStock: bool,
    showOnlyNew: bool,
    showOnlyLimited: bool)

  /** The record the grid starts with and `clearFilters` restores. */
  const InitialFilters := Filters([], [], (0, 1000), "name", false, false, false)

  // ---------------------------------------------------------------------------
  // Facets: `allColors` and `allSizes`

  datatype Facet = Colors | Sizes

  function ValuesOf(p: Product, facet: Facet): seq<string> {
    match facet
    case Colors => p.colors
    case Sizes => p.sizes
  }

  /** Every value of the facet, product by product, in the order the nested `forEach` visits them. */
  function AllValues(products: seq<Product>, facet: Facet): seq<string> {
    if products == [] then [] else AllValues(products[..|products| - 1], facet) + ValuesOf(products[|products| - 1], facet)
  }

  /** A value is among a facet's values exactly when some product carries it. */
  lemma {:induction false} AllValuesMembers(products: seq<Product>, facet: Facet)
    ensures forall v :: v in AllValues(products, facet) <==> exists p :: p in products && v in ValuesOf(p, facet)
  {
    if products != [] {
      var n := |products| - 1;
      AllValuesMembers(products[..n], facet);
      assert forall p :: p in products <==> p in products[..n] || p == products[n];
    }
  }

  /** `Set.add` on an insertion-ordered set: a value already present keeps its place. */
  function SetAdd(values: seq<string>, v: string): seq<string> {
    if v in values then values else values + [v]
  }

  /** `Array.from` of the set filled by adding every value of `s` in turn. */
  function Distinct(s: seq<string>): seq<string> {
    if s == [] then [] else SetAdd(Distinct(s[..|s| - 1]), s[|s| - 1])
  }

  /** The position of the first occurrence of `v` in `s`. */
  function FirstIndex(s: seq<string>, v: string): (i: nat)
    requires v in s
    ensures i < |s| && s[i] == v && v !in s[..i]
  {
    if s[0] == v then 0 else 1 + FirstIndex(s[1..], v)
  }

  predicate NoDuplicates(s: seq<string>) {
    forall i, j :: 0 <= i < j < |s| ==> s[i] != s[j]
  }

  /** The facet list holds every value of `s` exactly once, nothing else, in the order the values
      first occur in `s`. */
  lemma {:induction false} DistinctSpec(s: seq<string>)
    ensures NoDuplicates(Distinct(s))
    ensures forall v :: v in Distinct(s) <==> v in s
    ensures forall i, j :: 0 <= i < j < |Distinct(s)| ==>
              FirstIndex(s, Distinct(s)[i]) < FirstIndex(s, Distinct(s)[j])
  {
    if s != [] {
      var n := |s| - 1;
      var p, v := s[..n], s[n];
      assert s == p + [v];
      DistinctSpec(p);
      var d := Distinct(p);
      forall x | x in p ensures FirstIndex(s, x) == FirstIndex(p, x) {
        FirstIndexExtend(p, v, x);
      }
      if v !in d {
        assert v !in p;
        var k := FirstIndex(s, v);
        assert forall m :: 0 <= m < n ==> s[m] == p[m] && p[m] != v;
        assert k == n;
      }
    }
  }

  lemma FirstIndexExtend(p: seq<string>, v: string, x: string)
    requires x in p
    ensures FirstIndex(p + [v], x) == FirstIndex(p, x)
  {
    var s := p + [v];
    var i, k := FirstIndex(s, x), FirstIndex(p, x);
    assert s[k] == x;
    assert forall m :: 0 <= m < i ==> s[..i][m] == s[m] != x;
    assert forall m :: 0 <= m < k ==> p[..k][m] == p[m] == s[m] != x;
  }

  /** The loop of `allColors`/`allSizes`: visit every product, add each of its values to the set. */
  method DistinctValues(products: seq<Product>, facet: Facet) returns (values: seq<string>)
    ensures values == Distinct(AllValues(products, facet))
  {
    values := [];
    var i := 0;
    while i < |products|
      invariant 0 <= i <= |products|
      invariant values == Distinct(AllValues(products[..i], facet))
    {
      values := AddEach(values, ValuesOf(products[i], facet), AllValues(products[..i], facet));
      AllValuesSnoc(products, i, facet);
      i := i + 1;
    }
    assert products[..i] == products;
  }

  /** The inner `forEach(v => set.add(v))` over one product's values. */
  method AddEach(values: seq<string>, vs: seq<string>, ghost before: seq<string>) returns (r: seq<string>)
    requires values == Distinct(before)
    ensures r == Distinct(before + vs)
  {
    r := values;
    var j := 0;
    assert before + vs[..0] == before;
    while j < |vs|
      invariant 0 <= j <= |vs|
      invariant r == Distinct(before + vs[..j])
    {
      DistinctSnoc(before + vs[..j], vs[j]);
      assert before + vs[..j + 1] == (before + vs[..j]) + [vs[j]];
      r := SetAdd(r, vs[j]);
      j := j + 1;
    }
    assert vs[..j] == vs;
  }

  /** A facet list holds every value some product carries, each exactly once, nothing else, in the
      order the values are first met. */
  lemma FacetSpec(products: seq<Product>, facet: Facet)
    ensures NoDuplicates(Distinct(AllValues(products, facet)))
    ensures forall v :: v in Distinct(AllValues(products, facet)) <==> v in AllValues(products, facet)
    ensures forall v :: v in Distinct(AllValues(products, facet)) <==> exists p :: p in products && v in ValuesOf(p, facet)
    ensures forall i, j :: 0 <= i < j < |Distinct(AllValues(products, facet))| ==>
              FirstIndex(AllValues(products, facet), Distinct(AllValues(products, facet))[i])
              < FirstIndex(AllValues(products, facet), Distinct(AllValues(products, facet))[j])
  {
    DistinctSpec(AllValues(products, facet));
    AllValuesMembers(products, facet);
  }

  lemma DistinctSnoc(s: seq<string>, v: string)
    ensures Distinct(s + [v]) == SetAdd(Distinct(s), v)
  {
    assert (s + [v])[..|s|] == s;
  }

  lemma AllValuesSnoc(products: seq<Product>, i: int, facet: Facet)
    requires 0 <= i < |products|
    ensures AllValues(products[..i + 1], facet) == AllValues(products[..i], facet) + ValuesOf(products[i], facet)
  {
    assert products[..i + 1][..i] == products[..i];
  }

  /** `allColors`: derived from the unfiltered products only. */
  method AllColors(products: seq<Product>) returns (colors: seq<string>)
    ensures colors == Distinct(AllValues(products, Colors))
    ensures NoDuplicates(colors)
    ensures forall c :: c in colors <==> exists p :: p in products && c in p.colors
  {
    colors := DistinctValues(products, Colors);
    FacetSpec(products, Colors);
  }

  /** `allSizes`: derived from the unfiltered products only. */
  method AllSizes(products: seq<Product>) returns (sizes: seq<string>)
    ensures sizes == Distinct(AllValues(products, Sizes))
    ensures NoDuplicates(sizes)
    ensures forall s :: s in sizes <==> exists p :: p in products && s in p.sizes
  {
    sizes := DistinctValues(products, Sizes);
    FacetSpec(products, Sizes);
  }

  // ---------------------------------------------------------------------------
  // The filter predicate

  /** `xs.some(x => ys.includes(x))`. */
  function SomeIncluded(xs: seq<string>, ys: seq<string>): (b: bool)
    ensures b <==> exists x :: x in xs && x in ys
  {
    if xs == [] then false
    else xs[0] in ys || (assert forall x :: x in xs[1..] ==> x in xs; SomeIncluded(xs[1..], ys))
  }

  /** The callback of `products.filter`, test by test, each failing test rejecting the product. */
  predicate Keep(f: Filters, p: Product)
    ensures Keep(f, p) ==> f.priceRange.0 <= p.price <= f.priceRange.1
    ensures Keep(f, p) && f.showOnlyInStock ==> p.stock != 0
  {
    if |f.colors| > 0 && !SomeIncluded(p.colors, f.colors) then false
    else if |f.sizes| > 0 && !SomeIncluded(p.sizes, f.sizes) then false
    else if p.price < f.priceRange.0 || p.price > f.priceRange.1 then false
    else if f.showOnlyInStock && p.stock == 0 then false
    else if f.showOnlyNew && !p.isNew then false
    else if f.showOnlyLimited && !p.isLimited then false
    else true
  }

  /** A product is kept exactly when every active constraint admits it: an empty color or size list
      admits everything, the price range is inclusive at both ends, and each toggle excludes only the
      products lacking its property. */
  lemma KeepIff(f: Filters, p: Product)
    ensures Keep(f, p) <==>
      && (f.colors == [] || exists c :: c in p.colors && c in f.colors)
      && (f.sizes == [] || exists s :: s in p.sizes && s in f.sizes)
      && f.priceRange.0 <= p.price <= f.priceRange.1
      && !(f.showOnlyInStock && p.stock == 0)
      && !(f.showOnlyNew && !p.isNew)
      && !(f.showOnlyLimited && !p.isLimited)
  {
  }

  /** `products.filter(product => Keep(filters, product))`: a new list, in input order. */
  function FilterProducts(products: seq<Product>, f: Filters): (r: seq<Product>)
    ensures forall p :: p in r <==> p in products && Keep(f, p)
    ensures |r| <= |products|
  {
    if products == [] then []
    else if Keep(f, products[0]) then [products[0]] + FilterProducts(products[1..], f)
    else FilterProducts(products[1..], f)
  }

  /** Filtering keeps the input order and each product's number of copies: filtering a
      concatenation is filtering each part. */
  lemma {:induction false} FilterProductsConcat(a: seq<Product>, b: seq<Product>, f: Filters)
    ensures FilterProducts(a + b, f) == FilterProducts(a, f) + FilterProducts(b, f)
  {
    if a == [] {
      assert a + b == b;
    } else {
      assert (a + b)[0] == a[0] && (a + b)[1..] == a[1..] + b;
      FilterProductsConcat(a[1..], b, f);
    }
  }

  // ---------------------------------------------------------------------------
  // The sort

  datatype SortKey = ByName | PriceLow | PriceHigh | ByRating

  /** The `switch (filters.sortBy)`: any value other than the three named keys sorts by name. */
  function SortKeyOf(sortBy: string): (k: SortKey)
    ensures k == PriceLow <==> sortBy == "price-low"
    ensures k == PriceHigh <==> sortBy == "price-high"
    ensures k == ByRating <==> sortBy == "rating"
  {
    if sortBy == "price-low" then PriceLow
    else if sortBy == "price-high" then PriceHigh
    else if sortBy == "rating" then ByRating
    else ByName
  }

  /** `a.localeCompare(b)`, stood for by code-point lexicographic order: negative, zero or positive
      as `a` sorts before, with or after `b`. */
  function LocaleCompare(a: string, b: string): (r: int)
    ensures -1 <= r <= 1
    ensures r == 0 <==> a == b
  {
    if a == [] && b == [] then 0
    else if a == [] then -1
    else if b == [] then 1
    else if a[0] < b[0] then -1
    else if a[0] > b[0] then 1
    else
      var r := LocaleCompare(a[1..], b[1..]);
      assert a == [a[0]] + a[1..] && b == [b[0]] + b[1..];
      r
  }

  lemma {:induction false} LocaleCompareAntisymmetric(a: string, b: string)
    ensures LocaleCompare(a, b) == -LocaleCompare(b, a)
  {
    if a != [] && b != [] && a[0] == b[0] {
      LocaleCompareAntisymmetric(a[1..], b[1..]);
    }
  }

  lemma {:induction false} LocaleCompareTransitive(a: string, b: string, c: string)
    requires LocaleCompare(a, b) <= 0 && LocaleCompare(b, c) <= 0
    ensures LocaleCompare(a, c) <= 0
  {
    if a != [] && b != [] && c != [] && a[0] == b[0] == c[0] {
      LocaleCompareTransitive(a[1..], b[1..], c[1..]);
    }
  }

  /** The comparator handed to `filtered.sort` for each key. */
  function Compare(k: SortKey, a: Product, b: Product): (r: int)
    ensures a == b ==> r == 0
    ensures k == PriceLow ==> (r <= 0 <==> a.price <= b.price)
    ensures k == PriceHigh ==> (r <= 0 <==> a.price >= b.price)
    ensures k == ByRating ==> (r <= 0 <==> a.rating >= b.rating)
  {
    match k
    case PriceLow => a.price - b.price
    case PriceHigh => b.price - a.price
    case ByRating => b.rating - a.rating
    case ByName => LocaleCompare(a.name, b.name)
  }

  /** Every comparator is a consistent total preorder: swapping the arguments negates it, and "sorts
      no later than" and "ties with" are transitive. */
  lemma CompareConsistent(k: SortKey, a: Product, b: Product, c: Product)
    ensures Compare(k, a, b) == -Compare(k, b, a)
    ensures Compare(k, a, b) <= 0 && Compare(k, b, c) <= 0 ==> Compare(k, a, c) <= 0
    ensures Compare(k, a, b) == 0 && Compare(k, b, c) == 0 ==> Compare(k, a, c) == 0
  {
    if k.ByName? {
      LocaleCompareAntisymmetric(a.name, b.name);
      if Compare(k, a, b) <= 0 && Compare(k, b, c) <= 0 {
        LocaleCompareTransitive(a.name, b.name, c.name);
      }
    }
  }

  predicate Sorted(k: SortKey, s: seq<Product>) {
    forall i, j :: 0 <= i < j < |s| ==> Compare(k, s[i], s[j]) <= 0
  }

  /** Insert `x` before the first element it does not sort after. */
  function Insert(k: SortKey, x: Product, t: seq<Product>): (r: seq<Product>)
    ensures multiset(r) == multiset(t) + multiset{x}
  {
    if t == [] then [x]
    else if Compare(k, x, t[0]) <= 0 then [x] + t
    else
      assert t == [t[0]] + t[1..];
      [t[0]] + Insert(k, x, t[1..])
  }

  lemma {:induction false} InsertSorted(k: SortKey, x: Product, t: seq<Product>)
    requires Sorted(k, t)
    ensures Sorted(k, Insert(k, x, t))
  {
    var r := Insert(k, x, t);
    if t == [] {
    } else if Compare(k, x, t[0]) <= 0 {
      forall j | 0 < j < |r| ensures Compare(k, x, r[j]) <= 0 {
        CompareConsistent(k, x, t[0], r[j]);
      }
    } else {
      InsertSorted(k, x, t[1..]);
      var rest := Insert(k, x, t[1..]);
      CompareConsistent(k, x, t[0], x);
      forall j | 0 <= j < |rest| ensures Compare(k, t[0], rest[j]) <= 0 {
        assert rest[j] in multiset(rest);
        if rest[j] != x {
          assert rest[j] in t[1..];
          var m :| 0 <= m < |t[1..]| && t[1..][m] == rest[j];
          assert t[m + 1] == rest[j];
        }
      }
    }
  }

  /** The stable sort: insertion of each element, front to back of the reversed input, so that of
      two tied elements the earlier one stays first. */
  function SortProducts(k: SortKey, s: seq<Product>): (r: seq<Product>)
    ensures multiset(r) == multiset(s)
    ensures Sorted(k, r)
  {
    if s == [] then []
    else
      var t := SortProducts(k, s[1..]);
      InsertSorted(k, s[0], t);
      assert s == [s[0]] + s[1..];
      Insert(k, s[0], t)
  }

  /** The elements of `s` that tie with `z` under key `k`, in their order in `s`. */
  function Ties(k: SortKey, s: seq<Product>, z: Product): seq<Product> {
    if s == [] then []
    else if Compare(k, s[0], z) == 0 then [s[0]] + Ties(k, s[1..], z)
    else Ties(k, s[1..], z)
  }

  lemma {:induction false} InsertTies(k: SortKey, x: Product, t: seq<Product>, z: Product)
    ensures Ties(k, Insert(k, x, t), z) == (if Compare(k, x, z) == 0 then [x] else []) + Ties(k, t, z)
  {
    if t == [] {
    } else if Compare(k, x, t[0]) <= 0 {
      assert ([x] + t)[1..] == t;
    } else {
      InsertTies(k, x, t[1..], z);
      var rest := Insert(k, x, t[1..]);
      assert ([t[0]] + rest)[1..] == rest;
      CompareConsistent(k, x, z, t[0]);
      CompareConsistent(k, z, t[0], x);
    }
  }

  /** The sort is stable: for every element `z`, the elements tying with `z` come out in the order
      they went in. */
  lemma {:induction false} SortStable(k: SortKey, s: seq<Product>, z: Product)
    ensures Ties(k, SortProducts(k, s), z) == Ties(k, s, z)
  {
    if s != [] {
      SortStable(k, s[1..], z);
      InsertTies(k, s[0], SortProducts(k, s[1..]), z);
    }
  }

  /** `filteredProducts`: the kept products, sorted in place by the key `filters.sortBy` names. */
  function FilteredProducts(products: seq<Product>, f: Filters): (r: seq<Product>)
    ensures multiset(r) == multiset(FilterProducts(products, f))
    ensures Sorted(SortKeyOf(f.sortBy), r)
  {
    SortProducts(SortKeyOf(f.sortBy), FilterProducts(products, f))
  }

  /** `filteredProducts` holds exactly the kept products, each as often as the input holds it, sorted
      by the chosen key, with tied products in input order. */
  lemma FilteredProductsSpec(products: seq<Product>, f: Filters)
    ensures forall p :: p in FilteredProducts(products, f) <==> p in products && Keep(f, p)
    ensures multiset(FilteredProducts(products, f)) == multiset(FilterProducts(products, f))
    ensures Sorted(SortKeyOf(f.sortBy), FilteredProducts(products, f))
    ensures forall z :: Ties(SortKeyOf(f.sortBy), FilteredProducts(products, f), z)
                        == Ties(SortKeyOf(f.sortBy), FilterProducts(products, f), z)
  {
    var r, kept := FilteredProducts(products, f), FilterProducts(products, f);
    forall p ensures p in r <==> p in kept {
      assert p in r <==> p in multiset(r);
    }
    forall z ensures Ties(SortKeyOf(f.sortBy), r, z) == Ties(SortKeyOf(f.sortBy), kept, z) {
      SortStable(SortKeyOf(f.sortBy), kept, z);
    }
  }

  /** A (price 100, rating 4.5) and B (price 50, rating 4.9): cheapest first gives [B, A], and
      best rated first gives [B, A] too. */
  lemma SortExamples(a: Product, b: Product)
    requires a.price == 100 && a.rating == 45 && b.price == 50 && b.rating == 49
    ensures SortProducts(PriceLow, [a, b]) == [b, a]
    ensures SortProducts(ByRating, [a, b]) == [b, a]
  {
    assert [a, b][1..] == [b] && [b][1..] == [];
    assert SortProducts(PriceLow, [b]) == [b] == SortProducts(ByRating, [b]);
    assert Insert(PriceLow, a, [b]) == [b, a] && Insert(ByRating, a, [b]) == [b, a];
  }

  /** What each key means for the order of `filteredProducts`. */
  lemma FilteredProductsOrder(products: seq<Product>, f: Filters, i: int, j: int)
    requires 0 <= i < j < |FilteredProducts(products, f)|
    ensures var r := FilteredProducts(products, f);
      && (f.sortBy == "price-low" ==> r[i].price <= r[j].price)
      && (f.sortBy == "price-high" ==> r[i].price >= r[j].price)
      && (f.sortBy == "rating" ==> r[i].rating >= r[j].rating)
      && (f.sortBy != "price-low" && f.sortBy != "price-high" && f.sortBy != "rating" ==>
            LocaleCompare(r[i].name, r[j].name) <= 0)
  {
  }

  // ---------------------------------------------------------------------------
  // Filter toggles and clearFilters

  /** `xs.filter(x => x !== v)`. */
  function RemoveAll(xs: seq<string>, v: string): (r: seq<string>)
    ensures forall y :: y in r <==> y in xs && y != v
  {
    if xs == [] then []
    else if xs[0] == v then RemoveAll(xs[1..], v)
    else [xs[0]] + RemoveAll(xs[1..], v)
  }

  /** The list update shared by `toggleColorFilter` and `toggleSizeFilter`. */
  function Toggled(xs: seq<string>, v: string): (r: seq<string>)
    ensures forall y :: y in r <==> (y in xs <==> y != v)
  {
    if v in xs then RemoveAll(xs, v) else xs + [v]
  }

  function WithColorToggled(f: Filters, color: string): (r: Filters)
    ensures r.(colors := f.colors) == f
    ensures forall c :: c in r.colors <==> (c in f.colors <==> c != color)
  {
    f.(colors := Toggled(f.colors, color))
  }

  function WithSizeToggled(f: Filters, size: string): (r: Filters)
    ensures r.(sizes := f.sizes) == f
    ensures forall s :: s in r.sizes <==> (s in f.sizes <==> s != size)
  {
    f.(sizes := Toggled(f.sizes, size))
  }

  /** Toggling appends an absent value at the end, removes every occurrence of a present one, and
      leaves the membership of every other value alone. */
  lemma ToggledEffect(xs: seq<string>, v: string)
    ensures v !in xs ==> Toggled(xs, v) == xs + [v]
    ensures v in Toggled(xs, v) <==> v !in xs
    ensures forall y :: y != v ==> (y in Toggled(xs, v) <==> y in xs)
  {
  }

  lemma {:induction false} RemoveAllAbsent(xs: seq<string>, v: string)
    requires v !in xs
    ensures RemoveAll(xs, v) == xs
  {
    if xs != [] {
      RemoveAllAbsent(xs[1..], v);
    }
  }

  /** Toggling the same value twice restores the membership of every value, and restores the list
      itself when the value was absent. */
  lemma ToggledTwice(xs: seq<string>, v: string)
    ensures forall y :: y in Toggled(Toggled(xs, v), v) <==> y in xs
    ensures v !in xs ==> Toggled(Toggled(xs, v), v) == xs
  {
    if v !in xs {
      RemoveAllAbsent(xs, v);
      assert RemoveAll(xs + [v], v) == xs by {
        RemoveAllConcat(xs, [v], v);
        assert RemoveAll([v], v) == [];
      }
    }
  }

  lemma {:induction false} RemoveAllConcat(a: seq<string>, b: seq<string>, v: string)
    ensures RemoveAll(a + b, v) == RemoveAll(a, v) + RemoveAll(b, v)
  {
    if a == [] {
      assert a + b == b;
    } else {
      assert (a + b)[0] == a[0] && (a + b)[1..] == a[1..] + b;
      RemoveAllConcat(a[1..], b, v);
    }
  }

  /** Toggling one facet changes no other field of the filter record. */
  lemma ToggleTouchesOneFacet(f: Filters, v: string)
    ensures WithColorToggled(f, v).(colors := f.colors) == f
    ensures WithSizeToggled(f, v).(sizes := f.sizes) == f
  {
  }

  /** With the initial (or cleared) filters a product is kept exactly when its price lies in 0..1000. */
  lemma InitialFiltersKeep(p: Product)
    ensures Keep(InitialFilters, p) <==> 0 <= p.price <= 1000
  {
  }

  /** With the initial filters the grid shows the whole catalog, each product once, in name order. */
  lemma InitialFiltersShowCatalog()
    ensures multiset(FilteredProducts(Products, InitialFilters)) == multiset(Products)
    ensures Sorted(ByName, FilteredProducts(Products, InitialFilters))
  {
    CatalogPricesInRange();
    FilterKeepsAll(Products, InitialFilters);
    assert SortKeyOf(InitialFilters.sortBy) == ByName;
  }

  /** Every catalog product is kept by the initial filters. */
  lemma CatalogPricesInRange()
    ensures forall p :: p in Products ==> Keep(InitialFilters, p)
  {
    forall p | p in Products ensures Keep(InitialFilters, p) {
      InitialFiltersKeep(p);
    }
  }

  lemma {:induction false} FilterKeepsAll(products: seq<Product>, f: Filters)
    requires forall p :: p in products ==> Keep(f, p)
    ensures FilterProducts(products, f) == products
  {
    if products != [] {
      FilterKeepsAll(products[1..], f);
    }
  }

  // ---------------------------------------------------------------------------
  // Discount badge

  /** `Math.round(num / den)` on exact values: the integer nearest the quotient, halves rounded up. */
  function MathRound(num: int, den: int): (r: int)
    requires den != 0
    ensures den > 0 ==> (2 * r - 1) * den <= 2 * num < (2 * r + 1) * den
    ensures den < 0 ==> (2 * r + 1) * den < 2 * num <= (2 * r - 1) * den
  {
    var n, d := if den > 0 then 2 * num + den else -(2 * num + den), if den > 0 then 2 * den else -2 * den;
    var r := n / d;
    assert n == d * r + n % d && 0 <= n % d < d;
    if den > 0 then
      assert (2 * r - 1) * den == d * r - den && (2 * r + 1) * den == d * r + den;
      r
    else
      assert (2 * r + 1) * den == -(d * r) + den && (2 * r - 1) * den == -(d * r) - den;
      r
  }

  /** The badge `-{round((originalPrice - price) / originalPrice * 100)}%`, shown only when
      `originalPrice` is truthy, that is, present and not zero. */
  function DiscountPercent(p: Product): (r: Option<int>)
    ensures r.Some? <==> p.originalPrice.Some? && p.originalPrice.value != 0
  {
    match p.originalPrice
    case Some(op) => if op != 0 then Some(MathRound(100 * (op - p.price), op)) else None
    case None => None
  }

  /** A price below a positive original price gives a badge between 0 and 100 per cent. */
  lemma DiscountBounds(p: Product)
    requires p.originalPrice.Some? && 0 <= p.price < p.originalPrice.value
    ensures 0 <= DiscountPercent(p).value <= 100
  {
    var op := p.originalPrice.value;
    var r := DiscountPercent(p).value;
    assert (2 * r - 1) * op <= 200 * (op - p.price) < (2 * r + 1) * op;
    assert 0 * op < (2 * r + 1) * op && (2 * r - 1) * op <= 200 * op;
    MulMonotone(2 * r + 1, 0, op);
    MulMonotone(2 * r - 1, 200, op);
  }

  lemma MulMonotone(a: int, c: int, b: int)
    requires b > 0
    ensures a * b <= c * b <==> a <= c
  {
  }

  /** 399 down to 299 shows 25 per cent off; so does 400 down to 300. */
  lemma DiscountExamples()
    ensures DiscountPercent(CyberHoodieGhost) == Some(25)
    ensures DiscountPercent(CyberHoodieGhost.(price := 300, originalPrice := Some(400))) == Some(25)
  {
  }

  // ---------------------------------------------------------------------------
  // The grid's own state

  /** The add-to-cart guard: `!selectedSize || !selectedColor` blocks the add. */
  predicate CanAddToCart(size: string, color: string) {
    size != "" && color != ""
  }

  class ProductGridState {
    const products: seq<Product>
    const cart: CartStore
    var filters: Filters
    var selectedProduct: Option<Product>
    var selectedSize: string
    var selectedColor: string

    constructor (products: seq<Product>)
      ensures this.products == products && filters == InitialFilters
      ensures selectedProduct == None && selectedSize == "" && selectedColor == ""
      ensures fresh(cart) && cart.Valid() && cart.items == [] && !cart.isOpen
    {
      this.products := products;
      cart := new CartStore();
      filters := InitialFilters;
      selectedProduct := None;
      selectedSize := "";
      selectedColor := "";
    }

    /** The grid wired to the page's own cart instead of a cart of its own: the corrected
        wiring, where the page's side panel shows what the grid adds. */
    constructor Shared(products: seq<Product>, cart: CartStore)
      ensures this.products == products && this.cart == cart && filters == InitialFilters
      ensures selectedProduct == None && selectedSize == "" && selectedColor == ""
    {
      this.products := products;
      this.cart := cart;
      filters := InitialFilters;
      selectedProduct := None;
      selectedSize := "";
      selectedColor := "";
    }

    method ToggleColorFilter(color: string)
      modifies this`filters
      ensures filters == WithColorToggled(old(filters), color)
    {
      filters := WithColorToggled(filters, color);
    }

    method ToggleSizeFilter(size: string)
      modifies this`filters
      ensures filters == WithSizeToggled(old(filters), size)
    {
      filters := WithSizeToggled(filters, size);
    }

    method ClearFilters()
      modifies this`filters
      ensures filters == InitialFilters
    {
      filters := InitialFilters;
    }

    /** `handleAddToCart`: without a chosen size and color nothing happens; otherwise one unit of the
        chosen variant goes into the cart, the choice is reset and the cart opens. */
    method HandleAddToCart(product: Product)
      requires cart.Valid()
      modifies this, cart
      ensures cart.Valid() && filters == old(filters)
      ensures !CanAddToCart(old(selectedSize), old(selectedColor)) ==>
                && cart.items == old(cart.items) && cart.isOpen == old(cart.isOpen)
                && selectedProduct == old(selectedProduct)
                && selectedSize == old(selectedSize) && selectedColor == old(selectedColor)
      ensures CanAddToCart(old(selectedSize), old(selectedColor)) ==>
                && cart.items == ItemsAfterAdd(old(cart.items),
                     NewItem(product.id, product.name, product.price, old(selectedSize), old(selectedColor), product.image))
                && cart.isOpen
                && selectedProduct == None && selectedSize == "" && selectedColor == ""
    {
      if selectedSize == "" || selectedColor == "" {
        return;
      }
      cart.AddItem(NewItem(product.id, product.name, product.price, selectedSize, selectedColor, product.image));
      selectedProduct := None;
      selectedSize := "";
      selectedColor := "";
      cart.OpenCart();
    }
  }
}
