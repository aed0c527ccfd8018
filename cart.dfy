/**
  The cart store (`src/hooks/use-cart.ts`): a list of line items and an
  `isOpen` flag, replaced as a whole by each command. Each command's new list
  is a pure function of the old one (`find`/`map`/`filter`/spread in the
  source); the class `CartStore` owns the two pieces of state and applies them.
*/
module Cart {
  import opened Wrappers

  /** A cart line: a product variant, the snapshot of its name/price/image, and a quantity. */
  datatype CartItem = CartItem(
    id: string,
    name: string,
    price: int,
    size: string,
    color: string,
    quantity: int,
    image: string)

  /** The argument of `addItem`: `Omit<CartItem, 'quantity'>`. */
  datatype NewItem = NewItem(
    id: string,
    name: string,
    price: int,
    size: string,
    color: string,
    image: string)

  /** The line `{ ...item, quantity: 1 }` that `addItem` appends for a new variant. */
  function FirstLine(item: NewItem): CartItem {
    CartItem(item.id, item.name, item.price, item.size, item.color, 1, item.image)
  }

  /** Two lines are the same variant when id, size and color all agree. */
  predicate SameVariant(a: CartItem, b: CartItem) {
    a.id == b.id && a.size == b.size && a.color == b.color
  }

  /** The `find` test of `addItem`: the line is the variant being added. */
  predicate IsVariantOf(line: CartItem, item: NewItem) {
    SameVariant(line, FirstLine(item))
  }

  /** The cart invariant: no variant appears on two lines and every line holds at least one unit. */
  predicate WellFormed(items: seq<CartItem>) {
    && (forall i, j :: 0 <= i < j < |items| ==> !SameVariant(items[i], items[j]))
    && (forall i :: 0 <= i < |items| ==> items[i].quantity >= 1)
  }

  // ---------------------------------------------------------------------------
  // The lists the commands compute

  /** `current.find(i => same id, size and color as item)`. */
  function FindVariant(items: seq<CartItem>, item: NewItem): (r: Option<CartItem>)
    ensures r.None? <==> forall i :: 0 <= i < |items| ==> !IsVariantOf(items[i], item)
    ensures r.Some? ==> r.value in items && IsVariantOf(r.value, item)
  {
    if items == [] then None
    else if IsVariantOf(items[0], item) then Some(items[0])
    else FindVariant(items[1..], item)
  }

  /** The `map` of `addItem`: every line of the variant `e` gains one unit. */
  function Incremented(items: seq<CartItem>, e: CartItem): seq<CartItem> {
    seq(|items|, k requires 0 <= k < |items| =>
      if SameVariant(items[k], e) then items[k].(quantity := items[k].quantity + 1) else items[k])
  }

  /** The list `addItem(item)` leaves behind. */
  function ItemsAfterAdd(items: seq<CartItem>, item: NewItem): (r: seq<CartItem>)
    ensures FindVariant(items, item).Some? ==> |r| == |items|
    ensures FindVariant(items, item).None? ==> |r| == |items| + 1 && r[..|items|] == items
    ensures exists k :: 0 <= k < |r| && IsVariantOf(r[k], item)
  {
    match FindVariant(items, item)
    case Some(existing) =>
      var k :| 0 <= k < |items| && items[k] == existing;
      assert IsVariantOf(Incremented(items, existing)[k], item);
      Incremented(items, existing)
    case None =>
      assert (items + [FirstLine(item)])[|items|] == FirstLine(item);
      items + [FirstLine(item)]
  }

  /** The `map` of `updateQuantity` for a positive quantity: every line of product `id`,
      in every size and color, gets quantity `q`. */
  function WithQuantity(items: seq<CartItem>, id: string, q: int): (r: seq<CartItem>)
    ensures |r| == |items|
    ensures forall k :: 0 <= k < |r| ==> SameVariant(r[k], items[k])
  {
    seq(|items|, k requires 0 <= k < |items| =>
      if items[k].id == id then items[k].(quantity := q) else items[k])
  }

  /** The `filter` of `removeItem`: drop every line of product `id`. */
  function Without(items: seq<CartItem>, id: string): (r: seq<CartItem>)
    ensures forall x :: x in r <==> x in items && x.id != id
    ensures |r| <= |items|
  {
    if items == [] then []
    else if items[0].id == id then Without(items[1..], id)
    else [items[0]] + Without(items[1..], id)
  }

  /** The list `updateQuantity(id, q)` leaves behind: removal for `q <= 0`. */
  function ItemsAfterUpdate(items: seq<CartItem>, id: string, q: int): (r: seq<CartItem>)
    ensures q <= 0 ==> forall x :: x in r <==> x in items && x.id != id
    ensures q > 0 ==> |r| == |items| && forall x :: x in r && x.id == id ==> x.quantity == q
  {
    if q <= 0 then Without(items, id) else WithQuantity(items, id, q)
  }

  /** `items.reduce((sum, item) => sum + item.quantity, 0)`, folded from the left. */
  function QuantitySum(items: seq<CartItem>): (n: int)
    ensures (forall i :: 0 <= i < |items| ==> items[i].quantity >= 0) ==> n >= 0
  {
    if items == [] then 0 else QuantitySum(items[..|items| - 1]) + items[|items| - 1].quantity
  }

  /** `items.reduce((sum, item) => sum + item.price * item.quantity, 0)`, folded from the left. */
  function PriceSum(items: seq<CartItem>): (total: int)
    ensures (forall i :: 0 <= i < |items| ==> items[i].price >= 0 && items[i].quantity >= 0) ==> total >= 0
  {
    if items == [] then 0
    else
      var last := items[|items| - 1];
      assert last.price >= 0 && last.quantity >= 0 ==> last.price * last.quantity >= 0;
      PriceSum(items[..|items| - 1]) + last.price * last.quantity
  }

  // ---------------------------------------------------------------------------
  // The store

  class CartStore {
    var items: seq<CartItem>
    var isOpen: bool

    predicate Valid()
      reads this
    {
      WellFormed(items)
    }

    /** `useState([])` and `useState(false)`. */
    constructor ()
      ensures Valid() && items == [] && !isOpen
    {
      items := [];
      isOpen := false;
    }

    /** `totalItems`. */
    function TotalItems(): (n: int)
      reads this
      requires Valid()
      ensures n >= |items|
      ensures n > 0 <==> items != []
    {
      QuantitySumAtLeastLength(items);
      QuantitySum(items)
    }

    /** `totalPrice`. */
    function TotalPrice(): (n: int)
      reads this
      requires Valid()
      ensures items == [] ==> n == 0
      ensures (forall i :: 0 <= i < |items| ==> items[i].price >= 0) ==> n >= 0
    {
      PriceSum(items)
    }

    method AddItem(item: NewItem)
      requires Valid()
      modifies this
      ensures Valid()
      ensures items == ItemsAfterAdd(old(items), item) && isOpen == old(isOpen)
    {
      AddItemWellFormed(items, item);
      var existing := FindVariant(items, item);
      if existing.Some? {
        items := Incremented(items, existing.value);
      } else {
        items := items + [FirstLine(item)];
      }
    }

    method UpdateQuantity(id: string, quantity: int)
      requires Valid()
      modifies this
      ensures Valid()
      ensures quantity <= 0 ==> items == Without(old(items), id)
      ensures quantity > 0 ==> items == WithQuantity(old(items), id, quantity)
      ensures isOpen == old(isOpen)
    {
      if quantity <= 0 {
        RemoveItem(id);
        return;
      }
      WithQuantityWellFormed(items, id, quantity);
      items := WithQuantity(items, id, quantity);
    }

    method RemoveItem(id: string)
      requires Valid()
      modifies this
      ensures Valid()
      ensures items == Without(old(items), id) && isOpen == old(isOpen)
    {
      WithoutWellFormed(items, id);
      items := Without(items, id);
    }

    method ClearCart()
      modifies this
      ensures Valid()
      ensures items == [] && isOpen == old(isOpen)
    {
      items := [];
    }

    method OpenCart()
      modifies this
      ensures isOpen && items == old(items)
    {
      isOpen := true;
    }

    method CloseCart()
      modifies this
      ensures !isOpen && items == old(items)
    {
      isOpen := false;
    }
  }

  // ---------------------------------------------------------------------------
  // addItem

  /** Adding a variant already in the cart raises that line by exactly one unit and leaves the
      length, the order and every other line as they were. */
  lemma AddExistingVariant(items: seq<CartItem>, item: NewItem, k: int)
    requires WellFormed(items)
    requires 0 <= k < |items| && IsVariantOf(items[k], item)
    ensures |ItemsAfterAdd(items, item)| == |items|
    ensures ItemsAfterAdd(items, item)[k] == items[k].(quantity := items[k].quantity + 1)
    ensures forall j :: 0 <= j < |items| && j != k ==> ItemsAfterAdd(items, item)[j] == items[j]
  {
    var e := FindVariant(items, item).value;
    forall j | 0 <= j < |items| && j != k
      ensures !SameVariant(items[j], e)
    {
      assert SameVariant(items[j], e) <==> SameVariant(items[j], items[k]);
      if j > k { assert !SameVariant(items[k], items[j]); }
    }
  }

  /** Adding a variant not yet in the cart appends one line of quantity 1 after all earlier lines. */
  lemma AddNewVariant(items: seq<CartItem>, item: NewItem)
    requires forall i :: 0 <= i < |items| ==> !IsVariantOf(items[i], item)
    ensures ItemsAfterAdd(items, item) == items + [CartItem(item.id, item.name, item.price, item.size, item.color, 1, item.image)]
  {
  }

  /** `addItem` keeps the cart invariant. */
  lemma AddItemWellFormed(items: seq<CartItem>, item: NewItem)
    requires WellFormed(items)
    ensures WellFormed(ItemsAfterAdd(items, item))
  {
    var r := ItemsAfterAdd(items, item);
    match FindVariant(items, item)
    case Some(e) =>
      forall i, j | 0 <= i < j < |r| ensures !SameVariant(r[i], r[j]) {
        assert SameVariant(r[i], items[i]) && SameVariant(r[j], items[j]);
      }
    case None =>
      forall i, j | 0 <= i < j < |r| ensures !SameVariant(r[i], r[j]) {
        if j == |items| { assert !IsVariantOf(items[i], item); }
      }
  }

  /** Adding the same variant twice to a cart without it gives one line of quantity 2, never two lines. */
  lemma AddTwiceMerges(items: seq<CartItem>, item: NewItem)
    requires WellFormed(items)
    requires forall i :: 0 <= i < |items| ==> !IsVariantOf(items[i], item)
    ensures ItemsAfterAdd(ItemsAfterAdd(items, item), item)
            == items + [CartItem(item.id, item.name, item.price, item.size, item.color, 2, item.image)]
  {
    var once := ItemsAfterAdd(items, item);
    AddNewVariant(items, item);
    AddItemWellFormed(items, item);
    AddExistingVariant(once, item, |items|);
  }

  // ---------------------------------------------------------------------------
  // updateQuantity and removeItem

  /** A positive `updateQuantity` keeps the cart invariant: it changes no variant and sets a
      quantity of at least one. */
  lemma WithQuantityWellFormed(items: seq<CartItem>, id: string, q: int)
    requires WellFormed(items) && q > 0
    ensures WellFormed(WithQuantity(items, id, q))
  {
    var r := WithQuantity(items, id, q);
    forall i, j | 0 <= i < j < |r| ensures !SameVariant(r[i], r[j]) {
      assert SameVariant(r[i], items[i]) && SameVariant(r[j], items[j]);
    }
  }

  /** A positive `updateQuantity` sets the quantity of every line of the product, across all of its
      sizes and colors, and leaves every other line and the order as they were. */
  lemma WithQuantityEffect(items: seq<CartItem>, id: string, q: int)
    requires q > 0
    ensures |ItemsAfterUpdate(items, id, q)| == |items|
    ensures forall k :: 0 <= k < |items| && items[k].id == id ==>
              SameVariant(ItemsAfterUpdate(items, id, q)[k], items[k]) && ItemsAfterUpdate(items, id, q)[k].quantity == q
    ensures forall k :: 0 <= k < |items| && items[k].id != id ==> ItemsAfterUpdate(items, id, q)[k] == items[k]
  {
  }

  /** `updateQuantity` on a product not in the cart changes nothing, whatever the quantity. */
  lemma UpdateAbsentIsNoOp(items: seq<CartItem>, id: string, q: int)
    requires forall i :: 0 <= i < |items| ==> items[i].id != id
    ensures ItemsAfterUpdate(items, id, q) == items
  {
    if q <= 0 { WithoutAbsentIsNoOp(items, id); }
  }

  /** `removeItem` on a product not in the cart changes nothing. */
  lemma {:induction false} WithoutAbsentIsNoOp(items: seq<CartItem>, id: string)
    requires forall i :: 0 <= i < |items| ==> items[i].id != id
    ensures Without(items, id) == items
  {
    if items != [] {
      WithoutAbsentIsNoOp(items[1..], id);
    }
  }

  /** `removeItem` keeps the surviving lines in their order: removing from a concatenation is
      removing from each part. */
  lemma {:induction false} WithoutConcat(a: seq<CartItem>, b: seq<CartItem>, id: string)
    ensures Without(a + b, id) == Without(a, id) + Without(b, id)
  {
    if a != [] {
      assert (a + b)[0] == a[0] && (a + b)[1..] == a[1..] + b;
      WithoutConcat(a[1..], b, id);
    } else {
      assert a + b == b;
    }
  }

  /** `removeItem` keeps the cart invariant. */
  lemma {:induction false} WithoutWellFormed(items: seq<CartItem>, id: string)
    requires WellFormed(items)
    ensures WellFormed(Without(items, id))
  {
    if items != [] {
      var rest := items[1..];
      assert WellFormed(rest) by {
        forall i, j | 0 <= i < j < |rest| ensures !SameVariant(rest[i], rest[j]) {
          assert rest[i] == items[i + 1] && rest[j] == items[j + 1];
        }
      }
      WithoutWellFormed(rest, id);
      if items[0].id != id {
        forall x | x in Without(rest, id) ensures !SameVariant(items[0], x) {
          var j :| 0 <= j < |rest| && rest[j] == x;
          assert items[j + 1] == x;
        }
        ConsWellFormed(items[0], Without(rest, id));
      }
    }
  }

  /** Putting a line in front of a well-formed list keeps it well formed when no line repeats its variant. */
  lemma ConsWellFormed(x: CartItem, rest: seq<CartItem>)
    requires WellFormed(rest) && x.quantity >= 1
    requires forall y :: y in rest ==> !SameVariant(x, y)
    ensures WellFormed([x] + rest)
  {
    var s := [x] + rest;
    forall i, j | 0 <= i < j < |s| ensures !SameVariant(s[i], s[j]) {
      assert s[j] == rest[j - 1];
      if i > 0 { assert s[i] == rest[i - 1]; }
    }
  }

  /** After `removeItem`, the cart's unit count drops by exactly the units of that product. */
  lemma {:induction false} WithoutQuantity(items: seq<CartItem>, id: string)
    ensures QuantitySum(Without(items, id)) == QuantitySum(items) - QuantitySum(OnlyProduct(items, id))
  {
    if items != [] {
      var n := |items| - 1;
      assert items == items[..n] + [items[n]];
      WithoutConcat(items[..n], [items[n]], id);
      OnlyProductConcat(items[..n], [items[n]], id);
      WithoutQuantity(items[..n], id);
      QuantitySumConcat(Without(items[..n], id), Without([items[n]], id));
      QuantitySumConcat(OnlyProduct(items[..n], id), OnlyProduct([items[n]], id));
    }
  }

  /** The lines of product `id` (the lines `removeItem(id)` drops). */
  function OnlyProduct(items: seq<CartItem>, id: string): (r: seq<CartItem>)
    ensures forall x :: x in r <==> x in items && x.id == id
  {
    if items == [] then []
    else if items[0].id == id then [items[0]] + OnlyProduct(items[1..], id)
    else OnlyProduct(items[1..], id)
  }

  lemma {:induction false} OnlyProductConcat(a: seq<CartItem>, b: seq<CartItem>, id: string)
    ensures OnlyProduct(a + b, id) == OnlyProduct(a, id) + OnlyProduct(b, id)
  {
    if a != [] {
      assert (a + b)[0] == a[0] && (a + b)[1..] == a[1..] + b;
      OnlyProductConcat(a[1..], b, id);
    } else {
      assert a + b == b;
    }
  }

  // ---------------------------------------------------------------------------
  // Totals

  /** The unit count of a concatenation is the sum of the parts' counts. */
  lemma {:induction false} QuantitySumConcat(a: seq<CartItem>, b: seq<CartItem>)
    ensures QuantitySum(a + b) == QuantitySum(a) + QuantitySum(b)
  {
    if b != [] {
      var n := |b| - 1;
      assert (a + b)[..|a + b| - 1] == a + b[..n] && (a + b)[|a + b| - 1] == b[n];
      QuantitySumConcat(a, b[..n]);
    } else {
      assert a + b == a;
    }
  }

  /** The price total of a concatenation is the sum of the parts' totals. */
  lemma {:induction false} PriceSumConcat(a: seq<CartItem>, b: seq<CartItem>)
    ensures PriceSum(a + b) == PriceSum(a) + PriceSum(b)
  {
    if b != [] {
      var n := |b| - 1;
      assert (a + b)[..|a + b| - 1] == a + b[..n] && (a + b)[|a + b| - 1] == b[n];
      PriceSumConcat(a, b[..n]);
    } else {
      assert a + b == a;
    }
  }

  /** In a well-formed cart every line holds at least one unit, so the count is at least the
      number of lines and is positive exactly when the cart is not empty. */
  lemma {:induction false} QuantitySumAtLeastLength(items: seq<CartItem>)
    requires WellFormed(items)
    ensures QuantitySum(items) >= |items|
  {
    if items != [] {
      var n := |items| - 1;
      assert WellFormed(items[..n]) by {
        forall i, j | 0 <= i < j < n ensures !SameVariant(items[..n][i], items[..n][j]) {
          assert items[..n][i] == items[i] && items[..n][j] == items[j];
        }
      }
      QuantitySumAtLeastLength(items[..n]);
    }
  }

  /** Changing one line of a list changes each total by that line's change alone. */
  lemma {:induction false} SumsOneLineChanged(a: seq<CartItem>, b: seq<CartItem>, k: int)
    requires |a| == |b| && 0 <= k < |a|
    requires forall j :: 0 <= j < |a| && j != k ==> a[j] == b[j]
    ensures QuantitySum(b) == QuantitySum(a) - a[k].quantity + b[k].quantity
    ensures PriceSum(b) == PriceSum(a) - a[k].price * a[k].quantity + b[k].price * b[k].quantity
  {
    var n := |a| - 1;
    if k == n {
      assert a[..n] == b[..n];
    } else {
      SumsOneLineChanged(a[..n], b[..n], k);
    }
  }

  /** Every `addItem` raises `totalItems` by exactly one. `totalPrice` rises by one unit price: the
      price snapshot already on the line when the variant is in the cart (the new item's price is
      then ignored), the new item's price otherwise. */
  lemma AddItemTotals(items: seq<CartItem>, item: NewItem)
    requires WellFormed(items)
    ensures QuantitySum(ItemsAfterAdd(items, item)) == QuantitySum(items) + 1
    ensures PriceSum(ItemsAfterAdd(items, item)) == PriceSum(items) +
              match FindVariant(items, item) case Some(line) => line.price case None => item.price
  {
    match FindVariant(items, item)
    case Some(e) =>
      var k :| 0 <= k < |items| && items[k] == e;
      AddExistingTotals(items, item, k);
    case None =>
      var r := ItemsAfterAdd(items, item);
      assert r[..|r| - 1] == items;
  }

  lemma AddExistingTotals(items: seq<CartItem>, item: NewItem, k: int)
    requires WellFormed(items)
    requires 0 <= k < |items| && IsVariantOf(items[k], item)
    ensures QuantitySum(ItemsAfterAdd(items, item)) == QuantitySum(items) + 1
    ensures PriceSum(ItemsAfterAdd(items, item)) == PriceSum(items) + items[k].price
  {
    assert ItemsAfterAdd(items, item) == items[k := items[k].(quantity := items[k].quantity + 1)] by {
      AddExistingVariant(items, item, k);
    }
    OneMoreUnitTotals(items, k);
  }

  /** One more unit on line `k` adds one unit to the count and that line's unit price to the total. */
  lemma OneMoreUnitTotals(items: seq<CartItem>, k: int)
    requires 0 <= k < |items|
    ensures QuantitySum(items[k := items[k].(quantity := items[k].quantity + 1)]) == QuantitySum(items) + 1
    ensures PriceSum(items[k := items[k].(quantity := items[k].quantity + 1)]) == PriceSum(items) + items[k].price
  {
    var x := items[k].(quantity := items[k].quantity + 1);
    SumsOneLineChanged(items, items[k := x], k);
    OneMoreUnit(x.price, items[k].quantity);
  }

  /** One more unit on a line adds one unit price to the line's total. */
  lemma OneMoreUnit(p: int, q: int)
    ensures p * (q + 1) == p * q + p
  {
  }

  // ---------------------------------------------------------------------------
  // Per-line quantity change (what the side panel's per-line controls evidently intend)

  /** Set the quantity of the one line of variant `line`; a quantity of zero or less removes that
      line alone. Unlike `updateQuantity`, other sizes and colors of the product are left alone. */
  function ItemsAfterVariantUpdate(items: seq<CartItem>, line: CartItem, q: int): seq<CartItem> {
    if q <= 0 then
      WithoutVariant(items, line)
    else
      seq(|items|, k requires 0 <= k < |items| =>
        if SameVariant(items[k], line) then items[k].(quantity := q) else items[k])
  }

  function WithoutVariant(items: seq<CartItem>, line: CartItem): seq<CartItem> {
    if items == [] then []
    else if SameVariant(items[0], line) then WithoutVariant(items[1..], line)
    else [items[0]] + WithoutVariant(items[1..], line)
  }

  /** Removing a variant absent from a list leaves the list as it is. */
  lemma {:induction false} WithoutAbsentVariant(items: seq<CartItem>, line: CartItem)
    requires forall i :: 0 <= i < |items| ==> !SameVariant(items[i], line)
    ensures WithoutVariant(items, line) == items
  {
    if items != [] {
      WithoutAbsentVariant(items[1..], line);
    }
  }

  /** In a well-formed cart, the per-line change touches line `k` and nothing else: a positive
      quantity is set on that line only, and zero or less removes that line only. */
  lemma {:induction false} VariantUpdateTouchesOneLine(items: seq<CartItem>, k: int, q: int)
    requires WellFormed(items) && 0 <= k < |items|
    ensures q > 0 ==> ItemsAfterVariantUpdate(items, items[k], q) == items[k := items[k].(quantity := q)]
    ensures q <= 0 ==> ItemsAfterVariantUpdate(items, items[k], q) == items[..k] + items[k + 1..]
  {
    var line := items[k];
    forall j | 0 <= j < |items| && j != k
      ensures !SameVariant(items[j], line)
    {
      if j < k { assert !SameVariant(items[j], items[k]); } else { assert !SameVariant(items[k], items[j]); }
    }
    if q <= 0 {
      OneVariantRemoved(items, k);
    }
  }

  lemma {:induction false} OneVariantRemoved(items: seq<CartItem>, k: int)
    requires 0 <= k < |items|
    requires forall j :: 0 <= j < |items| && j != k ==> !SameVariant(items[j], items[k])
    ensures WithoutVariant(items, items[k]) == items[..k] + items[k + 1..]
  {
    var line := items[k];
    if k == 0 {
      WithoutAbsentVariant(items[1..], line);
    } else {
      assert !SameVariant(items[0], line);
      OneVariantRemoved(items[1..], k - 1);
      assert items[1..][k - 1] == line;
      assert items[..k] + items[k + 1..] == [items[0]] + (items[1..][..k - 1] + items[1..][k..]);
    }
  }
}
