/**
  The cart side panel (`src/components/ui/cart-sidebar.tsx`): what it shows for
  a cart, and the requests its minus, plus and remove controls send back to the
  cart store through `onUpdateQuantity` and `onRemoveItem`.
*/
module CartSidebar {
  import opened Wrappers
  import opened Cart

  /** A call the panel makes through one of its callbacks. */
  datatype Request = UpdateQuantity(id: string, quantity: int) | RemoveItem(id: string)

  /** The minus control: `onUpdateQuantity(item.id, Math.max(0, item.quantity - 1))`. */
  function MinusRequest(item: CartItem): (r: Request)
    ensures r.UpdateQuantity? && r.id == item.id && r.quantity >= 0
    ensures r.quantity < item.quantity || item.quantity <= 0
    ensures item.quantity >= 1 ==> r.quantity == item.quantity - 1
  {
    UpdateQuantity(item.id, if item.quantity - 1 > 0 then item.quantity - 1 else 0)
  }

  /** The plus control: `onUpdateQuantity(item.id, item.quantity + 1)`. */
  function PlusRequest(item: CartItem): (r: Request)
    ensures r.UpdateQuantity? && r.id == item.id && r.quantity > item.quantity
    ensures item.quantity >= 0 ==> r.quantity >= 1
  {
    UpdateQuantity(item.id, item.quantity + 1)
  }

  /** The remove control: `onRemoveItem(item.id)`. */
  function RemoveRequest(item: CartItem): (r: Request)
    ensures r.RemoveItem? && r.id == item.id
  {
    RemoveItem(item.id)
  }

  /** The list the cart store holds after serving a request (pages pass `cart.updateQuantity`
      and `cart.removeItem` as the two callbacks). */
  function Served(items: seq<CartItem>, r: Request): seq<CartItem> {
    match r
    case UpdateQuantity(id, q) => ItemsAfterUpdate(items, id, q)
    case RemoveItem(id) => Without(items, id)
  }

  /** One rendered line: the item, its subtotal and the requests its three controls send. */
  datatype LineView = LineView(item: CartItem, subtotal: int, minus: Request, plus: Request, remove: Request)

  /** The open panel: the count badge, the empty state, the lines and the total footer. */
  datatype Panel = Panel(badge: Option<int>, emptyState: bool, lines: seq<LineView>, footerTotal: Option<int>)

  function LineOf(item: CartItem): LineView {
    LineView(item, item.price * item.quantity, MinusRequest(item), PlusRequest(item), RemoveRequest(item))
  }

  /** What the component renders: nothing when closed; otherwise the badge when `totalItems > 0`,
      the empty state when there are no lines, else one line view per item and the total footer. */
  function Render(isOpen: bool, items: seq<CartItem>): (r: Option<Panel>)
    ensures r.None? <==> !isOpen
    ensures r.Some? ==> (r.value.emptyState <==> items == [])
    ensures r.Some? ==> (r.value.footerTotal.Some? <==> items != [])
    ensures r.Some? && r.value.footerTotal.Some? ==> r.value.footerTotal.value == PriceSum(items)
    ensures r.Some? ==> (r.value.badge.Some? <==> QuantitySum(items) > 0)
    ensures r.Some? && r.value.badge.Some? ==> r.value.badge.value == QuantitySum(items)
    ensures r.Some? ==> |r.value.lines| == |items|
    ensures r.Some? ==> forall k :: 0 <= k < |items| ==> r.value.lines[k].item == items[k]
  {
    if !isOpen then None
    else
      var total := PriceSum(items);
      var totalItems := QuantitySum(items);
      Some(Panel(
        if totalItems > 0 then Some(totalItems) else None,
        |items| == 0,
        seq(|items|, k requires 0 <= k < |items| => LineOf(items[k])),
        if |items| > 0 then Some(total) else None))
  }

  /** Serving a request keeps the cart invariant. */
  method Dispatch(cart: CartStore, r: Request)
    requires cart.Valid()
    modifies cart
    ensures cart.Valid()
    ensures cart.items == Served(old(cart.items), r) && cart.isOpen == old(cart.isOpen)
  {
    match r
    case UpdateQuantity(id, q) => cart.UpdateQuantity(id, q);
    case RemoveItem(id) => cart.RemoveItem(id);
  }

  /** On a cart the store keeps, the badge shows exactly when the cart has lines, that is, exactly
      when the footer shows, and it counts every unit. */
  lemma BadgeIffNotEmpty(items: seq<CartItem>)
    requires WellFormed(items)
    ensures Render(true, items).value.badge.Some? <==> items != []
    ensures Render(true, items).value.badge.Some? <==> Render(true, items).value.footerTotal.Some?
    ensures items != [] ==> Render(true, items).value.badge.value >= |items|
  {
    QuantitySumAtLeastLength(items);
  }

  /** Pressing minus on a line holding one unit removes that line: the request is quantity 0, which
      the store serves as `removeItem` of the line's product. */
  lemma MinusAtOneRemoves(items: seq<CartItem>, k: int)
    requires 0 <= k < |items| && items[k].quantity == 1
    ensures MinusRequest(items[k]) == UpdateQuantity(items[k].id, 0)
    ensures Served(items, MinusRequest(items[k])) == Without(items, items[k].id)
    ensures items[k] !in Served(items, MinusRequest(items[k]))
  {
  }

  /** Pressing minus or plus on a line sets every line of that product, in every size and color, to
      the line's quantity minus or plus one (the store matches on the product id alone). */
  lemma StepAppliesToAllVariants(items: seq<CartItem>, k: int, j: int)
    requires WellFormed(items)
    requires 0 <= k < |items| && 0 <= j < |items| && items[j].id == items[k].id
    ensures Served(items, PlusRequest(items[k]))[j].quantity == items[k].quantity + 1
    ensures items[k].quantity > 1 ==> Served(items, MinusRequest(items[k]))[j].quantity == items[k].quantity - 1
  {
    WithQuantityEffect(items, items[k].id, items[k].quantity + 1);
    if items[k].quantity > 1 {
      WithQuantityEffect(items, items[k].id, items[k].quantity - 1);
    }
  }

  /** Remove drops every line of the item's product and keeps all other lines in order. */
  lemma RemoveDropsProduct(items: seq<CartItem>, k: int)
    requires 0 <= k < |items|
    ensures forall x :: x in Served(items, RemoveRequest(items[k])) <==> x in items && x.id != items[k].id
  {
  }

  /** The discrepancy the id-only match causes: with the same hoodie in sizes M (one unit) and L
      (three units), pressing plus on the M line leaves the L line with two units. */
  lemma PlusOnOneLineChangesSibling()
    ensures var m := CartItem("str-001", "CYBER HOODIE GHOST", 299, "M", "Black", 1, "product-hoodie.jpg");
            var l := CartItem("str-001", "CYBER HOODIE GHOST", 299, "L", "Black", 3, "product-hoodie.jpg");
            && WellFormed([m, l])
            && Served([m, l], PlusRequest(m)) == [m.(quantity := 2), l.(quantity := 2)]
  {
    var m := CartItem("str-001", "CYBER HOODIE GHOST", 299, "M", "Black", 1, "product-hoodie.jpg");
    var l := CartItem("str-001", "CYBER HOODIE GHOST", 299, "L", "Black", 3, "product-hoodie.jpg");
    assert m.size[0] != l.size[0];
  }
}
