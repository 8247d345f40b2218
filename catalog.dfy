/** The product catalogue: the product record, the six demo products
    `seedProducts` installs, and lookup by id (`products.find(p => p.id === id)`). */
module Catalog {
  import opened Lists
  import ColorMath

  /** A catalogue entry. `family` is the colour family ("cool", "warm" or
      "neutral" in the demo data), compared as a string as the code does;
      `img` is the product's base colour. Prices are whole amounts. */
  datatype Product = Product(
    id: string,
    name: string,
    price: int,
    color: string,
    family: string,
    tags: seq<string>,
    img: string,
    desc: string)

  /** No two products share an id. */
  predicate DistinctIds(products: seq<Product>)
  {
    forall i, j :: 0 <= i < j < |products| ==> products[i].id != products[j].id
  }

  function P1(): Product
  {
    Product("p1", "Aurora Jacket", 159, "Sky Blue \U{2013} Calm Tone", "cool", ["new"], "#6ae3ff",
            "Lightweight jacket with breathable mesh.")
  }

  function P2(): Product
  {
    Product("p2", "Solar Sneakers", 129, "Sunset Orange \U{2013} Warm Tone", "warm", ["bestseller"], "#ff7a4a",
            "Cushioned comfort with dynamic grip.")
  }

  function P3(): Product
  {
    Product("p3", "Monolith Backpack", 98, "Graphite \U{2013} Neutral Tone", "neutral", ["eco"], "#2f3645",
            "Recycled materials, spacious compartments.")
  }

  function P4(): Product
  {
    Product("p4", "Tide Tee", 32, "Ocean Teal \U{2013} Calm Tone", "cool", ["eco", "new"], "#1eb5a1",
            "Ultra-soft cotton with cooling knit.")
  }

  function P5(): Product
  {
    Product("p5", "Blossom Hoodie", 86, "Rose Pink \U{2013} Gentle Tone", "warm", ["new"], "#ff7adf",
            "Cozy fleece with oversized hood.")
  }

  function P6(): Product
  {
    Product("p6", "Nimbus Bottle", 24, "Frost White \U{2013} Clear Tone", "neutral", ["bestseller"], "#e6ebff",
            "Double-wall vacuum insulated.")
  }

  /** `seedProducts`: the demo catalogue. */
  function SeedProducts(): seq<Product>
  {
    [P1(), P2(), P3(), P4(), P5(), P6()]
  }

  /** The demo catalogue has six products with distinct ids. */
  lemma SeedProductsValid()
    ensures |SeedProducts()| == 6 && DistinctIds(SeedProducts())
  {
    var s := SeedProducts();
    assert s[0].id == "p1" && s[1].id == "p2" && s[2].id == "p3";
    assert s[3].id == "p4" && s[4].id == "p5" && s[5].id == "p6";
  }

  // Each demo product's colour is checked in a lemma of its own, which keeps
  // every proof small.

  lemma P1WellFormed()
    ensures P1().price >= 0 && ColorMath.IsHexColor(P1().img)
  {
    ColorMath.SixHexDigits(P1().img);
  }

  lemma P2WellFormed()
    ensures P2().price >= 0 && ColorMath.IsHexColor(P2().img)
  {
    ColorMath.SixHexDigits(P2().img);
  }

  lemma P3WellFormed()
    ensures P3().price >= 0 && ColorMath.IsHexColor(P3().img)
  {
    ColorMath.SixHexDigits(P3().img);
  }

  lemma P4WellFormed()
    ensures P4().price >= 0 && ColorMath.IsHexColor(P4().img)
  {
    ColorMath.SixHexDigits(P4().img);
  }

  lemma P5WellFormed()
    ensures P5().price >= 0 && ColorMath.IsHexColor(P5().img)
  {
    ColorMath.SixHexDigits(P5().img);
  }

  lemma P6WellFormed()
    ensures P6().price >= 0 && ColorMath.IsHexColor(P6().img)
  {
    ColorMath.SixHexDigits(P6().img);
  }

  /** Every demo product has a non-negative price and a six-digit base colour. */
  lemma SeedProductsWellFormed()
    ensures forall p :: p in SeedProducts() ==> p.price >= 0 && ColorMath.IsHexColor(p.img)
  {
    P1WellFormed();
    P2WellFormed();
    P3WellFormed();
    P4WellFormed();
    P5WellFormed();
    P6WellFormed();
  }

  /** The demo catalogue as one product followed by the rest, five times over. */
  lemma SeedNested()
    ensures SeedProducts() == [P1()] + ([P2()] + ([P3()] + ([P4()] + ([P5()] + [P6()]))))
  {
  }

  function HasId(id: string): Product -> bool
  {
    (p: Product) => p.id == id
  }

  /** `products.find(p => p.id === id)`: the first product with this id. */
  function FindProduct(products: seq<Product>, id: string): (r: Option<Product>)
    ensures r.Some? ==> r.value.id == id
    ensures r.Some? ==>
      exists i :: 0 <= i < |products| && products[i] == r.value && forall j :: 0 <= j < i ==> products[j].id != id
    ensures r.None? <==> forall p :: p in products ==> p.id != id
  {
    Find(products, HasId(id))
  }

  /** With distinct ids, the product found is the one catalogue entry with that id. */
  lemma FindDistinct(products: seq<Product>, i: nat)
    requires DistinctIds(products) && i < |products|
    ensures FindProduct(products, products[i].id) == Some(products[i])
  {
    var r := FirstIndex(products, HasId(products[i].id));
    assert r.Some?;
  }
}
