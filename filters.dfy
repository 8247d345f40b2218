/** The search-and-filter view of the catalogue (`applyFilters` in app.js),
    lifted out of the page: the search text, price ceiling, checked colour
    families and selected tags are parameters instead of reads of form controls. */
module Filters {
  import opened Lists
  import Text
  import opened Catalog

  /** The text a query is searched in: name, colour label and description,
      joined by single spaces and lower-cased. */
  function SearchText(p: Product): string
  {
    Text.Lower(p.name + " " + p.color + " " + p.desc)
  }

  /** `value.trim().toLowerCase()`. */
  function NormalizeQuery(raw: string): string
  {
    Text.Lower(Text.Trim(raw))
  }

  /** The four conditions a product must meet, all of them: */
  predicate Matches(p: Product, q: string, maxPrice: int, families: seq<string>, tags: seq<string>)
  {
    // the (normalised) query is empty or occurs in the search text
    && (q == "" || Text.Includes(SearchText(p), q))
    // the price is at most the ceiling
    && p.price <= maxPrice
    // no family is checked, or the product's family is one of those checked
    && (if |families| > 0 then p.family in families else true)
    // no tag is selected, or the product carries every selected tag
    && (if |tags| > 0 then forall t :: t in tags ==> t in p.tags else true)
  }

  function MatchesAll(q: string, maxPrice: int, families: seq<string>, tags: seq<string>): Product -> bool
  {
    (p: Product) => Matches(p, q, maxPrice, families, tags)
  }

  /** The product list `applyFilters` renders. */
  function ApplyFilters(products: seq<Product>, rawQuery: string, maxPrice: int,
                        families: seq<string>, tags: seq<string>): seq<Product>
  {
    Filter(products, MatchesAll(NormalizeQuery(rawQuery), maxPrice, families, tags))
  }

  /** The list shown holds the catalogue entries that match, in catalogue
      order, each as often as it occurs there. */
  lemma ApplyFiltersSpec(products: seq<Product>, rawQuery: string, maxPrice: int,
                         families: seq<string>, tags: seq<string>)
    ensures var r := ApplyFilters(products, rawQuery, maxPrice, families, tags);
      && IsSubsequence(r, products)
      && (forall p :: p in r <==> p in products && Matches(p, NormalizeQuery(rawQuery), maxPrice, families, tags))
      && (forall p :: multiset(r)[p] == if Matches(p, NormalizeQuery(rawQuery), maxPrice, families, tags)
                                         then multiset(products)[p] else 0)
  {
    var r := ApplyFilters(products, rawQuery, maxPrice, families, tags);
    var keep := MatchesAll(NormalizeQuery(rawQuery), maxPrice, families, tags);
    assert forall p :: keep(p) == Matches(p, NormalizeQuery(rawQuery), maxPrice, families, tags);
  }

  /** With a blank query, no family or tag selected and a ceiling at or above
      every price, the whole catalogue is shown in its own order. */
  lemma NoFilterShowsAll(products: seq<Product>, rawQuery: string, maxPrice: int)
    requires forall i :: 0 <= i < |rawQuery| ==> Text.IsJsSpace(rawQuery[i])
    requires forall p :: p in products ==> p.price <= maxPrice
    ensures ApplyFilters(products, rawQuery, maxPrice, [], []) == products
  {
    Text.TrimEmpty(rawQuery);
    assert NormalizeQuery(rawQuery) == "";
    FilterKeepsAll(products, MatchesAll("", maxPrice, [], []));
  }

  /** A filter over six products that keeps only the first and the fourth. */
  lemma KeepFirstAndFourth<T(!new)>(a: T, b: T, c: T, d: T, e: T, f: T, keep: T -> bool)
    requires keep(a) && !keep(b) && !keep(c) && keep(d) && !keep(e) && !keep(f)
    ensures Filter([a] + ([b] + ([c] + ([d] + ([e] + [f])))), keep) == [a, d]
  {
    var t4 := [e] + [f];
    FilterDrop(e, [f], keep);
    FilterNone([f], keep);
    assert Filter(t4, keep) == [];
    var t3 := [d] + t4;
    FilterKeep(d, t4, keep);
    assert Filter(t3, keep) == [d];
    var t2 := [c] + t3;
    FilterDrop(c, t3, keep);
    var t1 := [b] + t2;
    FilterDrop(b, t2, keep);
    assert Filter(t1, keep) == [d];
    FilterKeep(a, t1, keep);
  }

  /** With a blank query and no tag, checking "cool" alone keeps the cool
      products within the ceiling. */
  lemma CoolOnly(p: Product)
    ensures MatchesAll("", 1000, ["cool"], [])(p) <==> p.price <= 1000 && p.family == "cool"
  {
  }

  lemma SeedCoolMatches()
    ensures var keep := MatchesAll("", 1000, ["cool"], []);
      keep(P1()) && !keep(P2()) && !keep(P3()) && keep(P4()) && !keep(P5()) && !keep(P6())
  {
    CoolOnly(P1());
    CoolOnly(P2());
    CoolOnly(P3());
    CoolOnly(P4());
    CoolOnly(P5());
    CoolOnly(P6());
  }

  lemma NormalizeBlank()
    ensures NormalizeQuery("") == ""
  {
  }

  /** Checking only the "cool" family on the demo catalogue shows the two cool
      products, the jacket and then the tee. */
  lemma CoolFamilyOnSeed()
    ensures ApplyFilters(SeedProducts(), "", 1000, ["cool"], []) == [P1(), P4()]
  {
    SeedCoolMatches();
    KeepFirstAndFourth(P1(), P2(), P3(), P4(), P5(), P6(), MatchesAll("", 1000, ["cool"], []));
    NormalizeBlank();
    SeedNested();
  }
}
