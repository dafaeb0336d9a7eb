/** The home page of src/pages/Index.tsx: the featured-products strip shows
    the first three featured products of the catalogue. */
module IndexPage {
  import opened Types
  import JsArray
  import Data

  function IsFeatured(p: Product): bool {
    p.featured
  }

  /** `products.filter(p => p.featured)` */
  function FeaturedProducts(products: seq<Product>): (r: seq<Product>)
    ensures forall i :: 0 <= i < |r| ==> r[i].featured && r[i] in products
    ensures forall i :: 0 <= i < |products| && products[i].featured ==> products[i] in r
    ensures forall p :: multiset(r)[p] == if p.featured then multiset(products)[p] else 0
  {
    JsArray.Filter(products, IsFeatured)
  }

  /** `.slice(0, 3)` of the featured products. */
  function Featured(products: seq<Product>): (r: seq<Product>)
    ensures |r| <= 3
    ensures forall i :: 0 <= i < |r| ==> r[i].featured && r[i] in products
    ensures r <= FeaturedProducts(products)
    ensures |FeaturedProducts(products)| <= 3 ==> r == FeaturedProducts(products)
    ensures |FeaturedProducts(products)| >= 3 ==> |r| == 3
  {
    var f := FeaturedProducts(products);
    if |f| <= 3 then f else f[..3]
  }

  /** The featured products keep their catalogue order: the selection is
      taken product by product. */
  lemma FeaturedInOrder(a: seq<Product>, b: seq<Product>)
    ensures FeaturedProducts(a + b) == FeaturedProducts(a) + FeaturedProducts(b)
  {
    JsArray.FilterConcat(a, b, IsFeatured);
  }

  /** Adding products after the first three featured ones changes nothing. */
  lemma FeaturedIgnoresLaterProducts(a: seq<Product>, b: seq<Product>)
    requires |FeaturedProducts(a)| >= 3
    ensures Featured(a + b) == Featured(a)
  {
    FeaturedInOrder(a, b);
    var fa := FeaturedProducts(a);
    assert (fa + FeaturedProducts(b))[..3] == fa[..3];
  }

  /** The seed catalogue's three products are all featured and all shown. */
  lemma SeedFeatured()
    ensures Featured(Data.InitialProducts) == Data.InitialProducts
  {
    JsArray.FilterKeepsAll(Data.InitialProducts, IsFeatured);
  }
}
