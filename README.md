# Storefront cart, catalog query and drop countdown — a Dafny model

This project models the parts of the storefront front-end that have real behaviour. Each of the
following is written in Dafny and its properties are proved:

- **The cart store** (`src/hooks/use-cart.ts`). It holds a list of line items and an `isOpen` flag.
  Its commands are `addItem`, `updateQuantity`, `removeItem`, `clearCart`, `openCart` and
  `closeCart`, and it derives `totalItems` and `totalPrice`. The model is the class
  `Cart.CartStore`. Each method's new list is a pure function of the old list: `ItemsAfterAdd`,
  `WithQuantity` and `Without`. The class invariant `WellFormed` says that no two lines hold the
  same variant (id, size, color) and that every line holds at least one unit.
- **The cart side panel** (`src/components/ui/cart-sidebar.tsx`). The model covers what the panel
  shows for a cart and the requests its minus, plus and remove controls send back to the store.
- **The catalog query engine** (`src/components/ui/product-grid.tsx`). The model covers:
  - the `Filters` record;
  - the color and size facet lists, built by a loop over the unfiltered products;
  - the filter predicate;
  - the stable sort by one of four keys;
  - the filter toggles and `clearFilters`;
  - the add-to-cart guard;
  - the discount badge.
- **The static catalog** (`src/data/products.ts`): the eleven products and the lookups by category
  and by id.
- **The limited-drop section** (`src/components/sections/exclusive-drops-section.tsx`): the choice
  of featured products and the once-a-second countdown update.
- **The wiring of a category page** (`src/pages/StreetwearPage.tsx`). The page's cart feeds its
  side panel, while the grid it renders calls `useCart()` for a cart of its own.

Prices are whole numbers and ratings are integer tenths, so 4.8 is written 48. Every catalog value
fits this form. `localeCompare` is replaced by code-point lexicographic order, returning -1, 0 or 1.
The sort proofs use only the facts that this order is total and consistent.

JavaScript's `Array.prototype.sort` is stable. `SortProducts` is therefore a stable insertion sort,
and three things are proved about it: its result is sorted, it is a permutation of its input, and
for every element `z` the elements tied with `z` keep their input order (`SortStable`).

The cart store keeps lines per (id, size, color), but `updateQuantity` and `removeItem` match
lines on the product id alone, so they act on every size and color of a product. The model keeps
that behaviour; "## Findings" records it. The cart has no line selection.

## Model

| member | source | states |
|---|---|---|
| `Catalog.FilterByCategory` | src/data/products.ts:196-198 | a product is in the result iff it is in the input and its category string equals the one asked for |
| `Catalog.GetProductsByCategory` | src/data/products.ts:196-198 | returns exactly the catalog products of the given category |
| `Catalog.FilterByCategoryConcat` | src/data/products.ts:196-198 | filtering a concatenation filters each part, so the result keeps input order and each product's number of copies |
| `Catalog.FindById` | src/data/products.ts:200-202 | returns none iff no product has the id; otherwise returns the first product carrying the id |
| `Catalog.GetProductById` | src/data/products.ts:200-202 | returns none iff no catalog product has the id; otherwise returns a catalog product with that id |
| `Catalog.FindOwnId` | src/data/products.ts:200-202 | when ids are distinct, looking a member up by its own id returns that member |
| `Catalog.CatalogIdsDistinct` | src/data/products.ts:29-194 | the eleven catalog ids are pairwise distinct |
| `Catalog.GetProductByOwnId` | src/data/products.ts:29-202 | `getProductById(p.id)` returns `p` for every catalog product |
| `Catalog.CategoriesPartition` | src/data/products.ts:21 | for any product list, the three category filters together give back its multiset: nothing lost, nothing doubled |
| `Catalog.CatalogCategoriesPartition` | src/data/products.ts:196-198 | the three category pages together hold exactly the catalog |
| `Catalog.CatalogWellStocked` | src/data/products.ts:29-194 | every catalog product has colors, sizes, stock > 0, a rating in 0..5 and a non-negative price; any original price is above the price |
| `Cart.FindVariant` | src/hooks/use-cart.ts:19-21 | returns none iff no line is the (id, size, color) being added; otherwise returns such a line |
| `Cart.ItemsAfterAdd` | src/hooks/use-cart.ts:17-33 | a present variant keeps the length; a new one is appended after the unchanged old lines; either way the cart then holds a line of the added variant |
| `Cart.WithQuantity` | src/hooks/use-cart.ts:41-45 | the length and every line's (id, size, color) are kept |
| `Cart.ItemsAfterUpdate` | src/hooks/use-cart.ts:35-46 | a quantity of 0 or less keeps exactly the lines of other products; a positive one keeps the length and gives every line of the id that quantity |
| `Cart.QuantitySum` | src/hooks/use-cart.ts:59 | the unit count of lines with non-negative quantities is non-negative |
| `Cart.PriceSum` | src/hooks/use-cart.ts:60 | the price total of lines with non-negative prices and quantities is non-negative |
| `Cart.Without` | src/hooks/use-cart.ts:48-50 | a line survives iff it was in the list and has a different product id |
| `Cart.CartStore.constructor` | src/hooks/use-cart.ts:14-15 | a new store is empty, closed and well formed |
| `Cart.CartStore.TotalItems` | src/hooks/use-cart.ts:59 | in a well-formed cart the unit count is at least the number of lines, and it is positive iff the cart has lines |
| `Cart.CartStore.TotalPrice` | src/hooks/use-cart.ts:60 | an empty cart totals 0, and a cart whose prices are non-negative never totals below 0 |
| `Cart.CartStore.AddItem` | src/hooks/use-cart.ts:17-33 | the list becomes the `addItem` result; `isOpen` is unchanged; the invariant is kept |
| `Cart.CartStore.UpdateQuantity` | src/hooks/use-cart.ts:35-46 | a quantity of 0 or less has exactly the effect of `removeItem(id)`; a positive one sets it on every line of the id; `isOpen` is unchanged; the invariant is kept |
| `Cart.CartStore.RemoveItem` | src/hooks/use-cart.ts:48-50 | the list loses every line of the id; `isOpen` is unchanged; the invariant is kept |
| `Cart.CartStore.ClearCart` | src/hooks/use-cart.ts:52-54 | the list becomes empty; `isOpen` is unchanged |
| `Cart.CartStore.OpenCart` | src/hooks/use-cart.ts:56 | `isOpen` becomes true; the items are unchanged |
| `Cart.CartStore.CloseCart` | src/hooks/use-cart.ts:57 | `isOpen` becomes false; the items are unchanged |
| `Cart.AddExistingVariant` | src/hooks/use-cart.ts:19-29 | adding a variant already present raises that line's quantity by exactly 1; the length, the order and every other line are unchanged |
| `Cart.AddNewVariant` | src/hooks/use-cart.ts:31 | adding a new variant appends it at the end with quantity 1 after all earlier lines |
| `Cart.AddItemWellFormed` | src/hooks/use-cart.ts:17-33 | `addItem` keeps the invariant: distinct variants, every quantity at least 1 |
| `Cart.AddTwiceMerges` | src/hooks/use-cart.ts:17-33 | adding the same variant twice to a cart without it gives one line of quantity 2, not two lines |
| `Cart.WithQuantityWellFormed` | src/hooks/use-cart.ts:41-45 | a positive `updateQuantity` keeps the invariant |
| `Cart.WithQuantityEffect` | src/hooks/use-cart.ts:41-45 | a positive quantity is set on every line of the id, in every size and color; all other lines and the order are unchanged |
| `Cart.UpdateAbsentIsNoOp` | src/hooks/use-cart.ts:35-50 | `updateQuantity` on an absent id leaves the list unchanged, whatever the quantity |
| `Cart.WithoutAbsentIsNoOp` | src/hooks/use-cart.ts:48-50 | `removeItem` on an absent id leaves the list unchanged |
| `Cart.WithoutConcat` | src/hooks/use-cart.ts:48-50 | removal distributes over concatenation, so the surviving lines keep their relative order |
| `Cart.WithoutWellFormed` | src/hooks/use-cart.ts:48-50 | `removeItem` keeps the invariant |
| `Cart.WithoutQuantity` | src/hooks/use-cart.ts:48-59 | after `removeItem`, `totalItems` drops by exactly the units held on that product's lines |
| `Cart.QuantitySumConcat` | src/hooks/use-cart.ts:59 | the unit count of a concatenation is the sum of the parts' unit counts |
| `Cart.PriceSumConcat` | src/hooks/use-cart.ts:60 | the price total of a concatenation is the sum of the parts' price totals |
| `Cart.QuantitySumAtLeastLength` | src/hooks/use-cart.ts:59 | in a well-formed cart the unit count is at least the number of lines |
| `Cart.SumsOneLineChanged` | src/hooks/use-cart.ts:59-60 | changing one line changes each total by that line's change alone |
| `Cart.AddItemTotals` | src/hooks/use-cart.ts:17-60 | every `addItem` raises `totalItems` by 1; `totalPrice` rises by the price already on the line if the variant exists, and by the new item's price otherwise |
| `Cart.VariantUpdateTouchesOneLine` | src/hooks/use-cart.ts:35-50 | corrected per-line update: a positive quantity changes line `k` only, and 0 or less removes line `k` only |
| `CartSidebar.MinusRequest` | src/components/ui/cart-sidebar.tsx:101 | the minus control asks for the line's id with a quantity that is never negative; from a quantity of at least 1 it asks for one less |
| `CartSidebar.PlusRequest` | src/components/ui/cart-sidebar.tsx:112 | the plus control asks for the line's id with a larger quantity, at least 1, so it never removes a line |
| `CartSidebar.RemoveRequest` | src/components/ui/cart-sidebar.tsx:126 | the remove control asks to remove the line's product id |
| `CartSidebar.Render` | src/components/ui/cart-sidebar.tsx:32-159 | nothing renders iff the panel is closed; the empty state shows iff there are no items; the footer shows iff there are items and holds the sum of price × quantity; the badge shows iff the unit count is positive and shows that count; there is one line view per item, in order |
| `CartSidebar.Dispatch` | src/pages/Index.tsx:26-32 | a request is served by the store's `updateQuantity` or `removeItem`; the invariant is kept and `isOpen` is unchanged |
| `CartSidebar.BadgeIffNotEmpty` | src/components/ui/cart-sidebar.tsx:53-55 | on a well-formed cart the badge shows iff the cart has lines, that is, iff the footer shows; its count is at least the number of lines |
| `CartSidebar.MinusAtOneRemoves` | src/components/ui/cart-sidebar.tsx:101 | minus on a line holding 1 unit asks for quantity 0; the store serves that as `removeItem` of the line's id, so the line is gone |
| `CartSidebar.StepAppliesToAllVariants` | src/components/ui/cart-sidebar.tsx:101-112 | plus or minus on one line sets every line of that product, in any size or color, to that line's quantity ± 1 |
| `CartSidebar.RemoveDropsProduct` | src/components/ui/cart-sidebar.tsx:126 | remove keeps exactly the lines of other products |
| `CartSidebar.PlusOnOneLineChangesSibling` | src/components/ui/cart-sidebar.tsx:112 | counterexample: plus on the size-M line of a hoodie (1 unit) also sets its size-L line from 3 to 2 |
| `ProductGrid.AllValuesMembers` | src/components/ui/product-grid.tsx:47-57 | a value is visited by the nested `forEach` iff some product carries it |
| `ProductGrid.DistinctSpec` | src/components/ui/product-grid.tsx:47-57 | the insertion-ordered set has no duplicates, holds exactly the values of its input, and lists them in first-occurrence order |
| `ProductGrid.DistinctValues` | src/components/ui/product-grid.tsx:47-57 | the nested loop computes exactly the insertion-ordered set of all facet values |
| `ProductGrid.AddEach` | src/components/ui/product-grid.tsx:49 | the inner loop adds each value of one product to the set, in order |
| `ProductGrid.FacetSpec` | src/components/ui/product-grid.tsx:47-57 | a facet list holds every value some product carries, each once, nothing else, in first-occurrence order |
| `ProductGrid.AllColors` | src/components/ui/product-grid.tsx:47-51 | `allColors` is the insertion-ordered set of all colors (so `FacetSpec` gives its first-occurrence order), has no duplicates and holds a color iff some product offers it; its only input is the unfiltered products |
| `ProductGrid.AllSizes` | src/components/ui/product-grid.tsx:53-57 | `allSizes` is the insertion-ordered set of all sizes (so `FacetSpec` gives its first-occurrence order), has no duplicates and holds a size iff some product offers it; its only input is the unfiltered products |
| `ProductGrid.SomeIncluded` | src/components/ui/product-grid.tsx:64 | `xs.some(x => ys.includes(x))` holds iff the two lists share a value |
| `ProductGrid.Keep` | src/components/ui/product-grid.tsx:61-85 | a kept product's price lies in the inclusive range, and with the in-stock toggle on its stock is not 0 |
| `ProductGrid.KeepIff` | src/components/ui/product-grid.tsx:61-85 | a product is kept iff: the color and size filters are each empty or share a value with it; its price is in the inclusive range; and no set toggle (in stock, new, limited) excludes it |
| `ProductGrid.FilterProducts` | src/components/ui/product-grid.tsx:61-85 | a product is in the filtered list iff it is in the input and is kept |
| `ProductGrid.FilterProductsConcat` | src/components/ui/product-grid.tsx:61-85 | filtering a concatenation filters each part, so the filtered list keeps input order and each product's number of copies |
| `ProductGrid.SortKeyOf` | src/components/ui/product-grid.tsx:88-102 | `price-low`, `price-high` and `rating` select their own comparator, each iff the string is that name; every other string sorts by name |
| `ProductGrid.Compare` | src/components/ui/product-grid.tsx:88-102 | a product ties with itself; `price-low` puts a first iff its price is not higher, `price-high` iff not lower, `rating` iff its rating is not lower |
| `ProductGrid.LocaleCompare` | src/components/ui/product-grid.tsx:100 | the name comparison returns -1, 0 or 1, and returns 0 iff the names are equal |
| `ProductGrid.LocaleCompareAntisymmetric` | src/components/ui/product-grid.tsx:100 | swapping the names negates the comparison |
| `ProductGrid.LocaleCompareTransitive` | src/components/ui/product-grid.tsx:100 | "sorts no later than" is transitive on names |
| `ProductGrid.CompareConsistent` | src/components/ui/product-grid.tsx:88-102 | each of the four comparators is antisymmetric, and both its order and its ties are transitive |
| `ProductGrid.Insert` | src/components/ui/product-grid.tsx:88-102 | insertion adds exactly one copy of the element |
| `ProductGrid.InsertSorted` | src/components/ui/product-grid.tsx:88-102 | inserting into a sorted list keeps it sorted |
| `ProductGrid.SortProducts` | src/components/ui/product-grid.tsx:88-102 | the sort returns a permutation of its input, sorted by the comparator |
| `ProductGrid.InsertTies` | src/components/ui/product-grid.tsx:88-102 | an inserted element comes before every element it ties with |
| `ProductGrid.SortStable` | src/components/ui/product-grid.tsx:88-102 | stability: for every `z`, the elements tied with `z` come out in their input order |
| `ProductGrid.SortExamples` | src/components/ui/product-grid.tsx:88-97 | A(100, 4.5) and B(50, 4.9) sort as [B, A] both by price-low and by rating |
| `ProductGrid.FilteredProductsSpec` | src/components/ui/product-grid.tsx:60-105 | `filteredProducts` holds exactly the kept products, as a permutation of the filtered list; it is sorted by the chosen key and ties keep their input order |
| `ProductGrid.FilteredProductsOrder` | src/components/ui/product-grid.tsx:88-102 | `price-low` gives non-decreasing prices, `price-high` non-increasing prices and `rating` non-increasing ratings; any other key gives names in ascending order |
| `ProductGrid.FilteredProducts` | src/components/ui/product-grid.tsx:60-105 | `filteredProducts` is a permutation of the filtered list, sorted by the chosen key |
| `ProductGrid.RemoveAll` | src/components/ui/product-grid.tsx:136 | removing a value keeps exactly the other values |
| `ProductGrid.Toggled` | src/components/ui/product-grid.tsx:132-148 | after a toggle, a value is present iff it was present and is not the toggled value, or was absent and is that value |
| `ProductGrid.WithColorToggled` | src/components/ui/product-grid.tsx:132-139 | only the color list changes, and the toggled color's membership flips while every other color's is kept |
| `ProductGrid.WithSizeToggled` | src/components/ui/product-grid.tsx:141-148 | only the size list changes, and the toggled size's membership flips while every other size's is kept |
| `ProductGrid.ToggledEffect` | src/components/ui/product-grid.tsx:132-148 | toggling appends an absent value at the end and removes every occurrence of a present one; other values keep their membership |
| `ProductGrid.ToggledTwice` | src/components/ui/product-grid.tsx:132-148 | toggling twice restores every value's membership, and restores the list itself when the value was absent |
| `ProductGrid.ToggleTouchesOneFacet` | src/components/ui/product-grid.tsx:132-148 | a toggle changes no field of the filter record other than its own list |
| `ProductGrid.InitialFiltersKeep` | src/components/ui/product-grid.tsx:36-44 | under the initial (cleared) filters, a product is kept iff its price is in 0..1000 |
| `ProductGrid.CatalogPricesInRange` | src/components/ui/product-grid.tsx:36-44 | the initial filters keep every catalog product |
| `ProductGrid.InitialFiltersShowCatalog` | src/components/ui/product-grid.tsx:36-105 | under the initial filters the grid shows the whole catalog, each product once, in name order |
| `ProductGrid.MathRound` | src/components/ui/product-grid.tsx:454 | returns the integer nearest `num / den`, with halves rounded up (`Math.round` on exact values) |
| `ProductGrid.DiscountPercent` | src/components/ui/product-grid.tsx:448-454 | the badge is present iff `originalPrice` is truthy (present and non-zero), so there is no division by zero |
| `ProductGrid.DiscountBounds` | src/components/ui/product-grid.tsx:448-454 | a price from 0 up to, but below, a positive original price gives a badge between 0 and 100 |
| `ProductGrid.DiscountExamples` | src/components/ui/product-grid.tsx:454 | 399 → 299 shows 25, and 400 → 300 shows 25 |
| `ProductGrid.ProductGridState.constructor` | src/components/ui/product-grid.tsx:31-44 | the grid starts with the initial filters, no selection and a fresh empty, closed cart |
| `ProductGrid.ProductGridState.ToggleColorFilter` | src/components/ui/product-grid.tsx:132-139 | the filters become the record with the color toggled |
| `ProductGrid.ProductGridState.ToggleSizeFilter` | src/components/ui/product-grid.tsx:141-148 | the filters become the record with the size toggled |
| `ProductGrid.ProductGridState.ClearFilters` | src/components/ui/product-grid.tsx:150-160 | the filters become exactly the initial record |
| `ProductGrid.ProductGridState.Shared` | src/components/ui/product-grid.tsx:31-44 | the corrected wiring: the same initial grid, holding the cart it is given |
| `ProductGrid.ProductGridState.HandleAddToCart` | src/components/ui/product-grid.tsx:107-130 | without both a size and a color (`CanAddToCart`: neither is the empty string), nothing changes; otherwise one unit of the chosen variant (the product's id, name, price and image) is added, the choice is reset and the cart opens |
| `ExclusiveDrops.LimitedOnly` | src/components/sections/exclusive-drops-section.tsx:11 | a product is in the result iff it is in the input and is limited |
| `ExclusiveDrops.LimitedOnlyConcat` | src/components/sections/exclusive-drops-section.tsx:11 | filtering a concatenation filters each part, so the limited list keeps input order and each product's number of copies |
| `ExclusiveDrops.ExclusiveProducts` | src/components/sections/exclusive-drops-section.tsx:11 | empty while the data is absent; otherwise a prefix of the limited products of length min(3, their number) |
| `ExclusiveDrops.ExclusiveProductsSpec` | src/components/sections/exclusive-drops-section.tsx:11 | empty while the data is absent; otherwise exactly min(3, number of limited products) products, all limited and loaded, forming a prefix of the limited products in input order; when fewer than 3, all of them |
| `ExclusiveDrops.TickSecondsOnly` | src/components/sections/exclusive-drops-section.tsx:25-26 | with seconds > 0, only the seconds change, by -1 |
| `ExclusiveDrops.TickBorrows` | src/components/sections/exclusive-drops-section.tsx:27-41 | the borrow chain: seconds 0 → 59 and minutes − 1; minutes 0 → 59 and hours − 1; hours 0 → 23, and days − 1 only if days > 0 |
| `ExclusiveDrops.Tick` | src/components/sections/exclusive-drops-section.tsx:22-45 | a state in range stays in range, and days never increase |
| `ExclusiveDrops.TickCountsDown` | src/components/sections/exclusive-drops-section.tsx:22-45 | while the total is positive, each tick lowers 86400·d + 3600·h + 60·m + s by exactly 1 |
| `ExclusiveDrops.TickWrapsAtZero` | src/components/sections/exclusive-drops-section.tsx:36-39 | at 0d 00:00:00 the tick does not stop; it wraps to 0d 23:59:59 |
| `ExclusiveDrops.CountdownReachesZero` | src/components/sections/exclusive-drops-section.tsx:20-45 | from any state in range, the clock reaches exactly 0d 00:00:00 after its total seconds of ticks, staying in range on the way |
| `Pages.StreetwearPageAdd` | src/pages/StreetwearPage.tsx:9-30 | as written: after a guarded add in the grid, the cart the page's side panel shows is still empty and closed |
| `Pages.StreetwearPageAddShared` | src/pages/StreetwearPage.tsx:9-30 | corrected wiring: the same add puts one unit of the chosen variant in the page's cart and opens its panel |
| `ExclusiveDrops.InitialTimeLeftSpec` | src/components/sections/exclusive-drops-section.tsx:13-18 | the start state 2d 14:32:45 is in range and stands for 225165 seconds |

## Left out

- React machinery is not modelled: `useState`, `useMemo`, `useCallback`, re-render timing and
  toasts. State updaters are methods on `CartStore` and `ProductGridState`.
- The `setInterval`/`clearInterval` driver of the countdown is not modelled; `Tick` is the updater
  it applies.
- Every `useCart()` call makes a separate cart. The pages, the product grid and the featured
  section each call it, so no two of them share a cart. `ProductGridState` owns its own store for
  this reason, and `Pages` shows the consequence for a category page.
- Price formatting with `toFixed(2)` is not modelled.
- Numbers are unbounded integers. Fractional prices, quantities and ratings are not modelled, and
  neither is float overflow.
- ProductGrid.MathRound: stated for exact rational values. The source divides in floating point
  first, and at exact-half edge cases the two may differ. The model claims nothing there.
- ProductGrid.LocaleCompare: code-point lexicographic order stands in for locale collation. Only
  its total-order facts are used, so a locale could order names differently.
- The filter setters that only write one field are left out: the price slider, the sort select and
  the three checkboxes (`src/components/ui/product-grid.tsx:187`, `:313`, and the quick-filter
  checkboxes). `Filters` is a plain record, and `Keep` and `FilteredProducts` take any value of it.
- The dialog's setters for the selected product, size and color are plain field writes on
  `ProductGridState`.
- The JSX markup around the grid cards is not modelled: star icons, stock labels and hover states.
- `src/hooks/use-products.ts` is not part of this model: it is a remote data hook.
  `ExclusiveProducts` takes its result as an optional product list and reads `is_limited` as
  `isLimited`.
- The drop section's own discount badge (`exclusive-drops-section.tsx:180-183`) is not modelled
  separately; it uses the same formula as `DiscountPercent`.
- `addToCart` in the drop section is not modelled: it only logs.
- The presentational sections, the navigation header and `featured-products-section.tsx` are not
  modelled. The last only repeats the grid's add guard and discount formula over a fixed list.
- Image imports are replaced by their file names.

## Findings

| source | as written | input that shows it | evidently intended | confidence | as-written member | corrected member |
|---|---|---|---|---|---|---|
| src/hooks/use-cart.ts:41-50 | `updateQuantity` and `removeItem` match on `item.id` alone, while the side panel shows one line per (id, size, color) and wires its per-line minus, plus and remove controls to them | the hoodie `str-001` in size M (1 unit) and size L (3 units); plus on the M line sets both lines to 2, and minus or remove on one line also changes or drops the other | a per-line control changes that line only | not executed; high | `CartSidebar.PlusOnOneLineChangesSibling` | `Cart.VariantUpdateTouchesOneLine` |
| src/components/ui/product-grid.tsx:31 | the grid calls `useCart()` for itself, and each call makes a new cart, so `handleAddToCart` adds to and opens a cart that the page's header and side panel (src/pages/StreetwearPage.tsx:9-24) never show | on the streetwear page, choose size M and color Black for any product and press add; the page's cart is still empty and its panel closed | the grid adds to the page's cart and opens its panel | not executed; high | `Pages.StreetwearPageAdd` | `Pages.StreetwearPageAddShared` |

The store keeps the code's as-written behaviour, because it models the source. The corrected
per-line update, `Cart.ItemsAfterVariantUpdate`, stands beside it with its property proved.
In the same way, `ProductGridState`'s plain constructor keeps the grid's own cart. The corrected
wiring is its `Shared` constructor, which takes the page's cart.
