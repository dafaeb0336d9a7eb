/** The catalogue page of src/pages/Shop.tsx: the category buttons and the
    products shown for the selected category. */
module Shop {
  import opened Types
  import JsArray
  import Data

  /** The index of the first occurrence of `x`. */
  function FirstIndex<T(==)>(xs: seq<T>, x: T): (r: nat)
    requires x in xs
    ensures r < |xs| && xs[r] == x && x !in xs[..r]
  {
    if xs[0] == x then 0 else 1 + FirstIndex(xs[1..], x)
  }

  /** Two positions that are both the first occurrence of a value are one. */
  lemma FirstOccurrenceUnique<T>(xs: seq<T>, a: nat, b: nat)
    requires a < |xs| && b < |xs| && xs[a] == xs[b]
    requires xs[a] !in xs[..a] && xs[b] !in xs[..b]
    ensures a == b
  {
  }

  /** A value already in a prefix has its first occurrence there. */
  lemma FirstIndexPrefix<T>(xs: seq<T>, k: nat, x: T)
    requires k <= |xs| && x in xs[..k]
    ensures FirstIndex(xs, x) == FirstIndex(xs[..k], x)
  {
    var p := xs[..k];
    var i := FirstIndex(p, x);
    assert xs[..i] == p[..i];
    FirstOccurrenceUnique(xs, i, FirstIndex(xs, x));
  }

  /** `Array.from(new Set(xs))`: every value once, kept where it first occurs. */
  function Dedup<T(==)>(xs: seq<T>): (r: seq<T>)
    ensures forall i, j :: 0 <= i < j < |r| ==> r[i] != r[j]
    ensures forall i :: 0 <= i < |r| ==> r[i] in xs
    ensures forall i :: 0 <= i < |xs| ==> xs[i] in r
  {
    if |xs| == 0 then []
    else
      var r := Dedup(xs[..|xs| - 1]);
      if xs[|xs| - 1] in r then r else r + [xs[|xs| - 1]]
  }

  /** The values come in the order of their first occurrences. */
  lemma {:induction false} DedupFirstOccurrenceOrder<T>(xs: seq<T>)
    ensures forall i, j :: 0 <= i < j < |Dedup(xs)| ==>
      FirstIndex(xs, Dedup(xs)[i]) < FirstIndex(xs, Dedup(xs)[j])
  {
    if |xs| > 0 {
      var n := |xs|;
      var init, last := xs[..n - 1], xs[n - 1];
      var r', r := Dedup(init), Dedup(xs);
      DedupFirstOccurrenceOrder(init);
      assert init == xs[..n - 1];
      forall y | y in r' ensures FirstIndex(xs, y) == FirstIndex(init, y) < n - 1 {
        FirstIndexPrefix(xs, n - 1, y);
      }
      if last !in r' {
        assert last !in xs[..n - 1];
        FirstOccurrenceUnique(xs, n - 1, FirstIndex(xs, last));
        forall i, j | 0 <= i < j < |r| ensures FirstIndex(xs, r[i]) < FirstIndex(xs, r[j]) {
          assert r[i] == r'[i] && r[i] in r';
          if j < |r'| {
            assert r[j] == r'[j] && r[j] in r';
          }
        }
      } else {
        forall i, j | 0 <= i < j < |r| ensures FirstIndex(xs, r[i]) < FirstIndex(xs, r[j]) {
          assert r[i] in r' && r[j] in r';
        }
      }
    }
  }

  /** A list without repeats is its own de-duplication. */
  lemma {:induction false} DedupOfDistinct<T>(xs: seq<T>)
    requires forall i, j :: 0 <= i < j < |xs| ==> xs[i] != xs[j]
    ensures Dedup(xs) == xs
  {
    if |xs| > 0 {
      var n := |xs|;
      DedupOfDistinct(xs[..n - 1]);
      assert xs[n - 1] !in xs[..n - 1];
      assert xs[..n - 1] + [xs[n - 1]] == xs;
    }
  }

  function CategoryOf(p: Product): string {
    p.category
  }

  /** `['All', ...new Set(products.map(p => p.category))]` */
  function Categories(products: seq<Product>): (r: seq<string>)
    ensures |r| >= 1 && r[0] == "All"
  {
    ["All"] + Dedup(JsArray.Map(products, CategoryOf))
  }

  /** After `All`, each category once, exactly the categories the products have. */
  lemma CategoriesLaws(products: seq<Product>)
    ensures var r := Categories(products);
      forall i, j :: 1 <= i < j < |r| ==> r[i] != r[j]
    ensures var r := Categories(products);
      forall i :: 0 <= i < |products| ==> products[i].category in r[1..]
    ensures var r := Categories(products);
      forall i :: 1 <= i < |r| ==> exists k :: 0 <= k < |products| && products[k].category == r[i]
  {
    var cats := JsArray.Map(products, CategoryOf);
    var r := Categories(products);
    assert r[1..] == Dedup(cats);
    assert forall i :: 0 <= i < |products| ==> cats[i] == products[i].category;
    forall i | 1 <= i < |r|
      ensures exists k :: 0 <= k < |products| && products[k].category == r[i]
    {
      assert r[i] in cats;
      var k :| 0 <= k < |cats| && cats[k] == r[i];
      assert products[k].category == r[i];
    }
  }

  /** The categories after `All` come in the order the catalogue first uses them. */
  lemma CategoriesInCatalogueOrder(products: seq<Product>)
    ensures var cats := JsArray.Map(products, CategoryOf); var r := Categories(products);
      forall i, j :: 1 <= i < j < |r| ==> FirstIndex(cats, r[i]) < FirstIndex(cats, r[j])
  {
    var cats := JsArray.Map(products, CategoryOf);
    DedupFirstOccurrenceOrder(cats);
    assert Categories(products)[1..] == Dedup(cats);
  }

  /** A catalogue whose category column has no repeats gets one button per
      product, in catalogue order, after `All`. */
  lemma CategoriesOfDistinct(products: seq<Product>, cats: seq<string>)
    requires JsArray.Map(products, CategoryOf) == cats
    requires forall i, j :: 0 <= i < j < |cats| ==> cats[i] != cats[j]
    ensures Categories(products) == ["All"] + cats
  {
    DedupOfDistinct(cats);
  }

  /** The category of each seed product, in catalogue order. */
  lemma SeedCategoryColumn()
    ensures JsArray.Map(Data.InitialProducts, CategoryOf) == ["Games", "Personalized", "Storage"]
  {
    var cats := JsArray.Map(Data.InitialProducts, CategoryOf);
    assert |cats| == 3;
    assert cats[0] == Data.Chessboard.category;
    assert cats[1] == Data.Nameplate.category;
    assert cats[2] == Data.JewelryBox.category;
  }

  /** The seed catalogue's categories are pairwise different. */
  lemma SeedCategoriesDistinct()
    ensures var cats := ["Games", "Personalized", "Storage"];
      forall i, j :: 0 <= i < j < |cats| ==> cats[i] != cats[j]
  {
    var cats := ["Games", "Personalized", "Storage"];
    assert cats[0][0] == 'G' && cats[1][0] == 'P' && cats[2][0] == 'S';
  }

  /** The seed catalogue has one button per category, in catalogue order. */
  lemma SeedCategories()
    ensures Categories(Data.InitialProducts) == ["All", "Games", "Personalized", "Storage"]
  {
    var cats := ["Games", "Personalized", "Storage"];
    SeedCategoryColumn();
    SeedCategoriesDistinct();
    CategoriesOfDistinct(Data.InitialProducts, cats);
    assert ["All"] + cats == ["All", "Games", "Personalized", "Storage"];
  }

  /** `filter === 'All' ? products : products.filter(p => p.category === filter)` */
  function Filtered(products: seq<Product>, filter: string): (r: seq<Product>)
    ensures filter == "All" ==> r == products
    ensures filter != "All" ==> forall i :: 0 <= i < |r| ==> r[i].category == filter && r[i] in products
    ensures filter != "All" ==> forall i :: 0 <= i < |products| && products[i].category == filter ==> products[i] in r
    ensures filter != "All" ==> forall p :: multiset(r)[p] == if p.category == filter then multiset(products)[p] else 0
  {
    if filter == "All" then products else JsArray.Filter(products, (p: Product) => p.category == filter)
  }

  /** Filtering keeps catalogue order: it works product by product. */
  lemma FilteredInOrder(a: seq<Product>, b: seq<Product>, filter: string)
    ensures Filtered(a + b, filter) == Filtered(a, filter) + Filtered(b, filter)
  {
    if filter != "All" {
      JsArray.FilterConcat(a, b, (p: Product) => p.category == filter);
    }
  }

  datatype Listing = NoProducts | Cards(products: seq<Product>)

  /** "No products found." for an empty selection, otherwise one card per product. */
  function Shown(products: seq<Product>, filter: string): (v: Listing)
    ensures v.NoProducts? <==> forall i :: 0 <= i < |products| ==> filter != "All" && products[i].category != filter
    ensures v.Cards? ==> v.products == Filtered(products, filter)
  {
    var r := Filtered(products, filter);
    if |r| == 0 then NoProducts
    else
      assert r[0] in products;
      Cards(r)
  }
}
