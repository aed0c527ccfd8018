/**
  The static product catalog (`src/data/products.ts`): the `Product` record,
  the constant `products` array and its two lookups.

  Prices are whole numbers of reais (every catalog price is an integer) and
  ratings are integer tenths (4.8 is 48).
*/
module Catalog {
  import opened Wrappers

  /** The three values of the `category` string union. */
  datatype Category = Streetwear | Drops | Accessories {
    /** The string literal the source stores in `category`. */
    function Name(): string {
      match this
      case Streetwear => "streetwear"
      case Drops => "drops"
      case Accessories => "accessories"
    }
  }

  /**
    A catalog product. The optional booleans of the source (`isNew?`,
    `isLimited?`, `isBestseller?`) are `false` when absent, which is how every
    test of them reads them; `originalPrice?` stays optional.
  */
  datatype Product = Product(
    id: string,
    name: string,
    price: int,
    originalPrice: Option<int>,
    rating: int,
    reviews: int,
    image: string,
    colors: seq<string>,
    sizes: seq<string>,
    category: Category,
    isNew: bool,
    isLimited: bool,
    isBestseller: bool,
    description: string,
    stock: int)

  const CyberHoodieGhost := Product("str-001", "CYBER HOODIE GHOST", 299, Some(399), 48, 127, "product-hoodie.jpg",
    ["Black", "Dark Purple", "Neon Green"], ["S", "M", "L", "XL", "XXL"], Streetwear, true, false, true,
    "Premium tech hoodie com detalhes neon e acabamento cyberpunk", 45)
  const TechHoodieMatrix := Product("str-002", "TECH HOODIE MATRIX", 279, None, 47, 89, "hoodie-1.jpg",
    ["Black", "Dark Gray", "Electric Purple"], ["S", "M", "L", "XL", "XXL"], Streetwear, false, false, false,
    "Hoodie essencial com tecnologia avançada e design futurista", 32)
  const DystopiaTeeCore := Product("str-003", "DYSTOPIA TEE CORE", 99, Some(129), 46, 203, "tshirt-1.jpg",
    ["Black", "Dark Purple", "Neon Green", "Electric Blue"], ["S", "M", "L", "XL", "XXL"], Streetwear, false, false, true,
    "T-shirt básica com gráficos dystópicos exclusivos", 78)
  const TechPantsNeon := Product("str-004", "TECH PANTS NEON", 249, Some(329), 49, 156, "product-pants.jpg",
    ["Black", "Dark Gray", "Electric Blue"], ["28", "30", "32", "34", "36", "38"], Streetwear, false, false, false,
    "Calça tech com elementos futuristas e cortes anatômicos", 23)
  const CyberPantsMatrix := Product("str-005", "CYBER PANTS MATRIX", 229, None, 45, 92, "pants-1.jpg",
    ["Black", "Dark Purple", "Neon Purple"], ["28", "30", "32", "34", "36", "38"], Streetwear, false, false, false,
    "Calça urbana com listras neon e design cyberpunk", 34)
  const GhostCollectionHoodie := Product("drop-001", "GHOST COLLECTION HOODIE", 399, Some(499), 50, 43, "product-hoodie.jpg",
    ["Phantom Black"], ["S", "M", "L", "XL"], Drops, true, true, false,
    "Edição limitada da coleção Ghost - apenas 50 unidades", 8)
  const NeonSeriesComplete := Product("drop-002", "NEON SERIES COMPLETE", 649, Some(799), 49, 27, "hoodie-1.jpg",
    ["Neon Purple", "Electric Green"], ["M", "L", "XL"], Drops, false, true, false,
    "Set completo da série neon - hoodie + pants", 5)
  const Dystopia2000Vintage := Product("drop-003", "DYSTOPIA 2000 VINTAGE", 199, Some(249), 48, 67, "tshirt-1.jpg",
    ["Vintage Black", "Faded Purple"], ["S", "M", "L", "XL"], Drops, false, true, false,
    "Remaster da coleção original de 2000", 12)
  const CyberCapNeon := Product("acc-001", "CYBER CAP NEON", 89, Some(119), 47, 134, "cap-1.jpg",
    ["Black", "Dark Purple", "Neon Green"], ["One Size"], Accessories, false, false, true,
    "Boné cyberpunk com detalhes em neon", 67)
  const TechBackpackMatrix := Product("acc-002", "TECH BACKPACK MATRIX", 299, None, 48, 89, "backpack-1.jpg",
    ["Black", "Dark Purple"], ["One Size"], Accessories, true, false, false,
    "Mochila tech com compartimentos especiais e design futurista", 28)
  const DystopiaGlovesTech := Product("acc-003", "DYSTOPIA GLOVES TECH", 129, None, 46, 76, "gloves-1.jpg",
    ["Black", "Neon Green", "Electric Purple"], ["S", "M", "L", "XL"], Accessories, false, false, false,
    "Luvas tech com detalhes cyberpunk e grip antiderrapante", 45)

  /** The exported `products` array, in source order. */
  const Products: seq<Product> := [
    CyberHoodieGhost, TechHoodieMatrix, DystopiaTeeCore, TechPantsNeon, CyberPantsMatrix,
    GhostCollectionHoodie, NeonSeriesComplete, Dystopia2000Vintage,
    CyberCapNeon, TechBackpackMatrix, DystopiaGlovesTech]

  /** `ps.filter(p => p.category === category)`. */
  function FilterByCategory(ps: seq<Product>, category: string): (r: seq<Product>)
    ensures forall p :: p in r <==> p in ps && p.category.Name() == category
    ensures |r| <= |ps|
  {
    if ps == [] then []
    else if ps[0].category.Name() == category then [ps[0]] + FilterByCategory(ps[1..], category)
    else FilterByCategory(ps[1..], category)
  }

  /** The category filter keeps the input order and each product's number of copies: filtering a
      concatenation is filtering each part. */
  lemma {:induction false} FilterByCategoryConcat(a: seq<Product>, b: seq<Product>, category: string)
    ensures FilterByCategory(a + b, category) == FilterByCategory(a, category) + FilterByCategory(b, category)
  {
    if a == [] {
      assert a + b == b;
    } else {
      assert (a + b)[0] == a[0] && (a + b)[1..] == a[1..] + b;
      FilterByCategoryConcat(a[1..], b, category);
    }
  }

  /** `getProductsByCategory`: the catalog's products of one category, in catalog order. */
  function GetProductsByCategory(category: string): (r: seq<Product>)
    ensures forall p :: p in r <==> p in Products && p.category.Name() == category
  {
    FilterByCategory(Products, category)
  }

  /** `ps.find(p => p.id === id)`: the first product with that id, `None` for `undefined`. */
  function FindById(ps: seq<Product>, id: string): (r: Option<Product>)
    ensures r.None? <==> forall p :: p in ps ==> p.id != id
    ensures r.Some? ==> r.value in ps && r.value.id == id
    ensures r.Some? ==> exists i :: 0 <= i < |ps| && ps[i] == r.value && forall j :: 0 <= j < i ==> ps[j].id != id
  {
    if ps == [] then None
    else if ps[0].id == id then Some(ps[0])
    else
      var r := FindById(ps[1..], id);
      if r.Some? then
        var i :| 0 <= i < |ps[1..]| && ps[1..][i] == r.value && forall j :: 0 <= j < i ==> ps[1..][j].id != id;
        assert ps[i + 1] == r.value && forall j :: 0 <= j < i + 1 ==> ps[j].id != id;
        r
      else r
  }

  /** `getProductById` over the constant catalog. */
  function GetProductById(id: string): (r: Option<Product>)
    ensures r.None? <==> forall p :: p in Products ==> p.id != id
    ensures r.Some? ==> r.value in Products && r.value.id == id
  {
    FindById(Products, id)
  }

  /** No two positions of `ps` hold products with the same id. */
  predicate DistinctIds(ps: seq<Product>) {
    forall i, j :: 0 <= i < j < |ps| ==> ps[i].id != ps[j].id
  }

  /** When ids are distinct, looking a member up by its own id finds that member. */
  lemma {:induction false} FindOwnId(ps: seq<Product>, p: Product)
    requires DistinctIds(ps) && p in ps
    ensures FindById(ps, p.id) == Some(p)
  {
    if ps[0] != p {
      assert p in ps[1..];
      var k :| 0 <= k < |ps| && ps[k] == p;
      assert k > 0 && ps[0].id != ps[k].id;
      assert DistinctIds(ps[1..]) by {
        forall i, j | 0 <= i < j < |ps[1..]| ensures ps[1..][i].id != ps[1..][j].id {
          assert ps[1..][i] == ps[i + 1] && ps[1..][j] == ps[j + 1];
        }
      }
      FindOwnId(ps[1..], p);
    }
  }

  /** The catalog's ids are pairwise distinct. */
  lemma CatalogIdsDistinct()
    ensures DistinctIds(Products)
  {
  }

  /** `getProductById(p.id)` returns `p` itself for every catalog product. */
  lemma GetProductByOwnId(p: Product)
    requires p in Products
    ensures GetProductById(p.id) == Some(p)
  {
    CatalogIdsDistinct();
    FindOwnId(Products, p);
  }

  /** Filtering by each of the three category names splits any product list: nothing lost, nothing doubled. */
  lemma {:induction false} CategoriesPartition(ps: seq<Product>)
    ensures multiset(FilterByCategory(ps, "streetwear") + FilterByCategory(ps, "drops")
                     + FilterByCategory(ps, "accessories")) == multiset(ps)
  {
    OfCategoryIsFilter(ps, Streetwear);
    OfCategoryIsFilter(ps, Drops);
    OfCategoryIsFilter(ps, Accessories);
    OfCategoryPartition(ps);
  }

  /** The category filter stated on the `Category` value rather than on its name. */
  function OfCategory(ps: seq<Product>, c: Category): seq<Product> {
    if ps == [] then []
    else if ps[0].category == c then [ps[0]] + OfCategory(ps[1..], c)
    else OfCategory(ps[1..], c)
  }

  lemma {:induction false} OfCategoryIsFilter(ps: seq<Product>, c: Category)
    ensures FilterByCategory(ps, c.Name()) == OfCategory(ps, c)
  {
    if ps != [] {
      assert ps[0].category.Name() == c.Name() <==> ps[0].category == c;
      OfCategoryIsFilter(ps[1..], c);
    }
  }

  lemma {:induction false} OfCategoryPartition(ps: seq<Product>)
    ensures multiset(OfCategory(ps, Streetwear) + OfCategory(ps, Drops) + OfCategory(ps, Accessories)) == multiset(ps)
  {
    if ps != [] {
      OfCategoryPartition(ps[1..]);
      assert ps == [ps[0]] + ps[1..];
    }
  }

  /** The three category pages together show exactly the catalog. */
  lemma CatalogCategoriesPartition()
    ensures multiset(GetProductsByCategory("streetwear") + GetProductsByCategory("drops")
                     + GetProductsByCategory("accessories")) == multiset(Products)
  {
    CategoriesPartition(Products);
  }

  /** Each catalog product is buyable in some color and size, is in stock, is rated within 0..5 and,
      when it has an original price, is discounted from it. */
  predicate WellStocked(p: Product) {
    && |p.colors| > 0 && |p.sizes| > 0
    && p.stock > 0
    && 0 <= p.rating <= 50
    && 0 <= p.price
    && (p.originalPrice.Some? ==> p.originalPrice.value > p.price)
  }

  lemma CatalogWellStocked()
    ensures forall p :: p in Products ==> WellStocked(p)
  {
  }
}
