/**
  A category page (`src/pages/StreetwearPage.tsx`): its own cart drives the header
  count and the side panel, and it renders a product grid. The grid calls
  `useCart()` itself (`src/components/ui/product-grid.tsx:31`), and every call
  makes a separate cart, so the grid adds to a cart the page never shows.
*/
module Pages {
  import opened Wrappers
  import opened Catalog
  import opened Cart
  import opened ProductGrid

  /** As written, for the products the page loaded: the shopper picks a size and a color and presses add. The grid adds the item to
      its own cart and opens that cart. The page's cart, the one its side panel shows, stays
      empty and closed. */
  method StreetwearPageAdd(products: seq<Product>, product: Product, size: string, color: string) returns (shown: seq<CartItem>, open: bool)
    requires size != "" && color != ""
    ensures shown == [] && !open
  {
    var cart := new CartStore();
    var grid := new ProductGridState(products);
    grid.selectedProduct := Some(product);
    grid.selectedSize, grid.selectedColor := size, color;
    grid.HandleAddToCart(product);
    shown, open := cart.items, cart.isOpen;
  }

  /** Corrected wiring: the grid is handed the page's cart. The same add then shows the chosen
      variant, one unit of it, in the page's side panel, and opens the panel. */
  method StreetwearPageAddShared(products: seq<Product>, product: Product, size: string, color: string) returns (shown: seq<CartItem>, open: bool)
    requires size != "" && color != ""
    ensures shown == [CartItem(product.id, product.name, product.price, size, color, 1, product.image)]
    ensures open
  {
    var cart := new CartStore();
    var grid := new ProductGridState.Shared(products, cart);
    grid.selectedProduct := Some(product);
    grid.selectedSize, grid.selectedColor := size, color;
    grid.HandleAddToCart(product);
    shown, open := cart.items, cart.isOpen;
  }
}
