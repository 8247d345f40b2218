/** Recommendations (`recommendFrom` in app.js): every other product is scored
    against the base product, the list is sorted by score, highest first, with
    `Array.prototype.sort` (stable), and the first three are kept. */
module Recommend {
  import opened Lists
  import opened Catalog

  /** `tags.filter(t => baseTags.includes(t)).length`: how many of `tags` the
      base also carries (a tag listed twice counts twice). */
  function SharedTags(tags: seq<string>, baseTags: seq<string>): nat
  {
    if tags == [] then 0
    else (if tags[0] in baseTags then 1 else 0) + SharedTags(tags[1..], baseTags)
  }

  /** `2` for the same colour family, plus the number of shared tags. */
  function Score(base: Product, p: Product): int
  {
    (if p.family == base.family then 2 else 0) + SharedTags(p.tags, base.tags)
  }

  /** Scores never increase along `s`. */
  predicate NonIncreasing(base: Product, s: seq<Product>)
  {
    forall i, j :: 0 <= i < j < |s| ==> Score(base, s[i]) >= Score(base, s[j])
  }

  function HasScore(base: Product, k: int): Product -> bool
  {
    (p: Product) => Score(base, p) == k
  }

  /** The products of `s` with score `k`, in their order in `s`. A sort is
      stable when this is the same before and after, for every `k`. */
  function WithScore(base: Product, s: seq<Product>, k: int): seq<Product>
  {
    Filter(s, HasScore(base, k))
  }

  /** Inserts `x` in front of the first element that does not outscore it,
      that is after every element scoring higher. */
  function InsertByScore(base: Product, x: Product, s: seq<Product>): (r: seq<Product>)
    ensures multiset(r) == multiset(s) + multiset{x}
  {
    if s == [] || Score(base, s[0]) <= Score(base, x) then [x] + s
    else
      assert s == [s[0]] + s[1..];
      [s[0]] + InsertByScore(base, x, s[1..])
  }

  /** `sort((a, b) => b.score - a.score)`: a permutation of `s`. */
  function SortByScore(base: Product, s: seq<Product>): (r: seq<Product>)
    ensures multiset(r) == multiset(s)
  {
    if s == [] then []
    else
      assert s == [s[0]] + s[1..];
      InsertByScore(base, s[0], SortByScore(base, s[1..]))
  }

  /** A product that scores at least as much as every element of a
      non-increasing list can go in front of it. */
  lemma PrependKeepsOrder(base: Product, h: Product, s: seq<Product>)
    requires NonIncreasing(base, s)
    requires forall p :: p in s ==> Score(base, h) >= Score(base, p)
    ensures NonIncreasing(base, [h] + s)
  {
    var r := [h] + s;
    forall i, j | 0 <= i < j < |r| ensures Score(base, r[i]) >= Score(base, r[j]) {
      assert r[j] == s[j - 1];
      if i > 0 {
        assert r[i] == s[i - 1];
      }
    }
  }

  lemma {:induction false} InsertKeepsOrder(base: Product, x: Product, s: seq<Product>)
    requires NonIncreasing(base, s)
    ensures NonIncreasing(base, InsertByScore(base, x, s))
  {
    if s == [] || Score(base, s[0]) <= Score(base, x) {
      forall p | p in s ensures Score(base, x) >= Score(base, p) {
        var m :| 0 <= m < |s| && s[m] == p;
        assert Score(base, s[0]) >= Score(base, s[m]);
      }
      PrependKeepsOrder(base, x, s);
    } else {
      var tail := s[1..];
      assert NonIncreasing(base, tail) by {
        forall i, j | 0 <= i < j < |tail| ensures Score(base, tail[i]) >= Score(base, tail[j]) {
          assert tail[i] == s[i + 1] && tail[j] == s[j + 1];
        }
      }
      InsertKeepsOrder(base, x, tail);
      var rest := InsertByScore(base, x, tail);
      forall p | p in rest ensures Score(base, s[0]) >= Score(base, p) {
        assert p in multiset(rest);
        if p != x {
          assert p in multiset(tail);
          var m :| 0 <= m < |tail| && tail[m] == p;
          assert s[m + 1] == p;
        }
      }
      PrependKeepsOrder(base, s[0], rest);
    }
  }

  /** The sorted list never has a lower score before a higher one. */
  lemma {:induction false} SortByScoreOrdered(base: Product, s: seq<Product>)
    ensures NonIncreasing(base, SortByScore(base, s))
  {
    if s != [] {
      SortByScoreOrdered(base, s[1..]);
      InsertKeepsOrder(base, s[0], SortByScore(base, s[1..]));
    }
  }

  /** Insertion puts `x` ahead of every element with its own score. */
  lemma {:induction false} InsertStable(base: Product, x: Product, s: seq<Product>, k: int)
    ensures WithScore(base, InsertByScore(base, x, s), k) == WithScore(base, [x] + s, k)
  {
    if s != [] && Score(base, s[0]) > Score(base, x) {
      var h, tail := s[0], s[1..];
      var keep := HasScore(base, k);
      var inserted := InsertByScore(base, x, tail);
      assert s == [h] + tail;
      assert InsertByScore(base, x, s) == [h] + inserted;
      InsertStable(base, x, tail, k);
      if keep(h) {
        FilterKeep(h, inserted, keep);
        FilterDrop(x, tail, keep);
        FilterDrop(x, s, keep);
        FilterKeep(h, tail, keep);
      } else {
        FilterDrop(h, inserted, keep);
        FilterDrop(h, tail, keep);
        FilterCons(x, s, keep);
        FilterCons(x, tail, keep);
      }
    }
  }

  /** The sort is stable: the products of any one score keep their input order. */
  lemma {:induction false} SortByScoreStable(base: Product, s: seq<Product>, k: int)
    ensures WithScore(base, SortByScore(base, s), k) == WithScore(base, s, k)
  {
    if s != [] {
      var h, tail := s[0], s[1..];
      var rest := SortByScore(base, tail);
      assert s == [h] + tail;
      assert SortByScore(base, s) == InsertByScore(base, h, rest);
      SortByScoreStable(base, tail, k);
      InsertStable(base, h, rest, k);
      FilterCons(h, rest, HasScore(base, k));
      FilterCons(h, tail, HasScore(base, k));
    }
  }

  function NotId(id: string): Product -> bool
  {
    (p: Product) => p.id != id
  }

  /** The candidates: every product but those with the base's id, in catalogue order. */
  function Others(products: seq<Product>, id: string): seq<Product>
  {
    Filter(products, NotId(id))
  }

  /** `slice(0, 3)`. */
  function TakeThree(s: seq<Product>): seq<Product>
  {
    if |s| <= 3 then s else s[..3]
  }

  /** `recommendFrom(id)`'s result: `None` when no product has this id (the
      code returns early), otherwise the three best-scoring other products. */
  function Recommendations(products: seq<Product>, id: string): (r: Option<seq<Product>>)
    ensures r.None? <==> forall p :: p in products ==> p.id != id
  {
    match FindProduct(products, id)
    case None => None
    case Some(base) => Some(TakeThree(SortByScore(base, Others(products, id))))
  }

  /** What `recommendFrom` leaves in `state.recommendations`: the previous
      list when the id is unknown, the new one otherwise. */
  function RecommendOrKeep(previous: seq<Product>, products: seq<Product>, id: string): seq<Product>
  {
    match Recommendations(products, id)
    case None => previous
    case Some(r) => r
  }

  lemma RecommendationsValue(products: seq<Product>, id: string, base: Product)
    requires FindProduct(products, id) == Some(base)
    ensures Recommendations(products, id) == Some(TakeThree(SortByScore(base, Others(products, id))))
  {
  }

  /** For a known id: three products, or all candidates when there are fewer
      than three, each a catalogue product with another id (so never the base
      product itself). */
  lemma RecommendationsAreOthers(products: seq<Product>, id: string, base: Product)
    requires FindProduct(products, id) == Some(base)
    ensures Recommendations(products, id).Some?
    ensures var r := Recommendations(products, id).value;
      && |r| == (if |Others(products, id)| < 3 then |Others(products, id)| else 3)
      && base !in r
      && (forall p :: p in r ==> p in products && p.id != id)
  {
    RecommendationsValue(products, id, base);
    var others := Others(products, id);
    var sorted := SortByScore(base, others);
    var r := TakeThree(sorted);
    forall p | p in r ensures p in products && p.id != id {
      assert p in sorted;
      assert p in multiset(sorted);
      assert p in multiset(others);
    }
  }

  /** Cutting a list sorted by descending score keeps it sorted. */
  lemma TakeThreeOrdered(base: Product, sorted: seq<Product>)
    requires NonIncreasing(base, sorted)
    ensures NonIncreasing(base, TakeThree(sorted))
  {
    var r := TakeThree(sorted);
    forall i, j | 0 <= i < j < |r| ensures Score(base, r[i]) >= Score(base, r[j]) {
      assert r[i] == sorted[i] && r[j] == sorted[j];
    }
  }

  /** A stable sort cut to three shows, of each score, the first ones in input order. */
  lemma TakeThreeStable(base: Product, others: seq<Product>, sorted: seq<Product>, k: int)
    requires WithScore(base, sorted, k) == WithScore(base, others, k)
    ensures WithScore(base, TakeThree(sorted), k) <= WithScore(base, others, k)
  {
    var r := TakeThree(sorted);
    assert r == sorted[..|r|];
    FilterOfPrefix(sorted, |r|, HasScore(base, k));
  }

  /** What the cut to three leaves out of a sorted permutation scores no more
      than the third product kept. */
  lemma TakeThreeBest(base: Product, others: seq<Product>, sorted: seq<Product>)
    requires NonIncreasing(base, sorted) && multiset(sorted) == multiset(others)
    ensures var r := TakeThree(sorted);
      forall p :: p in others && p !in r ==> |r| == 3 && Score(base, p) <= Score(base, r[2])
  {
    var r := TakeThree(sorted);
    forall p | p in others && p !in r ensures |r| == 3 && Score(base, p) <= Score(base, r[2]) {
      assert p in multiset(others);
      assert p in multiset(sorted);
      var i :| 0 <= i < |sorted| && sorted[i] == p;
      assert i >= 3;
    }
  }

  /** For a known id: best score first, and among products of equal score the
      ones shown are the first of that score in catalogue order. */
  lemma RecommendationsOrdered(products: seq<Product>, id: string, base: Product)
    requires FindProduct(products, id) == Some(base)
    ensures Recommendations(products, id).Some?
    ensures var r := Recommendations(products, id).value;
      && NonIncreasing(base, r)
      && (forall k :: WithScore(base, r, k) <= WithScore(base, Others(products, id), k))
  {
    RecommendationsValue(products, id, base);
    var others := Others(products, id);
    var sorted := SortByScore(base, others);
    SortByScoreOrdered(base, others);
    TakeThreeOrdered(base, sorted);
    forall k ensures WithScore(base, TakeThree(sorted), k) <= WithScore(base, others, k) {
      SortByScoreStable(base, others, k);
      TakeThreeStable(base, others, sorted, k);
    }
  }

  /** For a known id: a candidate left out only when three are shown, and it
      scores no more than the third one. */
  lemma RecommendationsBest(products: seq<Product>, id: string, base: Product)
    requires FindProduct(products, id) == Some(base)
    ensures Recommendations(products, id).Some?
    ensures var r := Recommendations(products, id).value;
      forall p :: p in Others(products, id) && p !in r ==> |r| == 3 && Score(base, p) <= Score(base, r[2])
  {
    RecommendationsValue(products, id, base);
    var others := Others(products, id);
    SortByScoreOrdered(base, others);
    TakeThreeBest(base, others, SortByScore(base, others));
  }

  lemma OthersOfHead(a: Product, rest: seq<Product>, id: string)
    requires a.id == id && forall p :: p in rest ==> p.id != id
    ensures Others([a] + rest, id) == rest
  {
    FilterCons(a, rest, NotId(id));
    FilterKeepsAll(rest, NotId(id));
  }

  lemma InsertAfter(base: Product, x: Product, h: Product, t: seq<Product>)
    requires Score(base, h) > Score(base, x)
    ensures InsertByScore(base, x, [h] + t) == [h] + InsertByScore(base, x, t)
  {
    assert ([h] + t)[1..] == t;
  }

  lemma InsertBefore(base: Product, x: Product, h: Product, t: seq<Product>)
    requires Score(base, h) <= Score(base, x)
    ensures InsertByScore(base, x, [h] + t) == [x, h] + t
  {
  }

  lemma SortCons(base: Product, x: Product, t: seq<Product>)
    ensures SortByScore(base, [x] + t) == InsertByScore(base, x, SortByScore(base, t))
  {
    assert ([x] + t)[1..] == t;
  }

  lemma SortThreeOrdered(base: Product, d: Product, e: Product, f: Product)
    requires Score(base, d) >= Score(base, e) >= Score(base, f)
    ensures SortByScore(base, [d] + ([e] + [f])) == [d] + ([e] + [f])
  {
    SortCons(base, f, []);
    SortCons(base, e, [f]);
    InsertBefore(base, e, f, []);
    SortCons(base, d, [e] + [f]);
    InsertBefore(base, d, e, [f]);
  }

  lemma InsertThird(base: Product, x: Product, d: Product, e: Product, f: Product)
    requires Score(base, d) > Score(base, x) && Score(base, e) > Score(base, x)
    requires Score(base, f) <= Score(base, x)
    ensures InsertByScore(base, x, [d] + ([e] + [f])) == [d] + ([e] + ([x] + [f]))
  {
    InsertAfter(base, x, d, [e] + [f]);
    InsertAfter(base, x, e, [f]);
    InsertBefore(base, x, f, []);
  }

  lemma InsertAfterTwo(base: Product, x: Product, d: Product, e: Product, t: seq<Product>)
    requires Score(base, d) > Score(base, x) && Score(base, e) > Score(base, x)
    requires t != [] && Score(base, t[0]) <= Score(base, x)
    ensures InsertByScore(base, x, [d] + ([e] + t)) == [d] + ([e] + ([x] + t))
  {
    InsertAfter(base, x, d, [e] + t);
    InsertAfter(base, x, e, t);
    assert t == [t[0]] + t[1..];
    InsertBefore(base, x, t[0], t[1..]);
  }

  /** Scores 0, 0, 3, 1, 0 come out as 3, 1, 0, 0, 0, the zeros in input order. */
  lemma SortFive(base: Product, b: Product, c: Product, d: Product, e: Product, f: Product)
    requires Score(base, b) == 0 && Score(base, c) == 0 && Score(base, d) == 3
    requires Score(base, e) == 1 && Score(base, f) == 0
    ensures SortByScore(base, [b] + ([c] + ([d] + ([e] + [f])))) == [d] + ([e] + ([b] + ([c] + [f])))
  {
    SortThreeOrdered(base, d, e, f);
    SortCons(base, c, [d] + ([e] + [f]));
    InsertThird(base, c, d, e, f);
    SortCons(base, b, [c] + ([d] + ([e] + [f])));
    InsertAfterTwo(base, b, d, e, [c] + [f]);
  }

  /** The score against a "cool" product tagged "new" alone. */
  lemma ScoreAgainstJacket(p: Product)
    ensures Score(P1(), p) == (if p.family == "cool" then 2 else 0) + SharedTags(p.tags, ["new"])
  {
  }

  lemma SeedScores()
    ensures Score(P1(), P2()) == 0 && Score(P1(), P3()) == 0 && Score(P1(), P4()) == 3
    ensures Score(P1(), P5()) == 1 && Score(P1(), P6()) == 0
  {
    ScoreAgainstJacket(P2());
    ScoreAgainstJacket(P3());
    ScoreAgainstJacket(P4());
    ScoreAgainstJacket(P5());
    ScoreAgainstJacket(P6());
    assert SharedTags(["eco", "new"], ["new"]) == 1 by {
      assert ["eco", "new"][1..] == ["new"];
      assert SharedTags(["new"], ["new"]) == 1;
    }
  }

  lemma SeedOthers()
    ensures Others(SeedProducts(), "p1") == [P2()] + ([P3()] + ([P4()] + ([P5()] + [P6()])))
  {
    var rest := [P2()] + ([P3()] + ([P4()] + ([P5()] + [P6()])));
    assert SeedProducts() == [P1()] + rest;
    OthersOfHead(P1(), rest, "p1");
  }

  lemma TakeThreeOfFive(a: Product, b: Product, c: Product, d: Product, e: Product)
    ensures TakeThree([a] + ([b] + ([c] + ([d] + [e])))) == [a, b, c]
  {
  }

  /** On the demo catalogue the first product, the cool "new" jacket, is
      followed by the cool "eco"/"new" tee (score 3), the warm "new" hoodie
      (score 1) and then the first of the three products scoring 0. */
  lemma SeedRecommendations()
    ensures RecommendOrKeep([], SeedProducts(), "p1") == [P4(), P5(), P2()]
  {
    SeedProductsValid();
    FindDistinct(SeedProducts(), 0);
    RecommendationsValue(SeedProducts(), "p1", P1());
    SeedOthers();
    SeedScores();
    SortFive(P1(), P2(), P3(), P4(), P5(), P6());
    TakeThreeOfFive(P4(), P5(), P2(), P3(), P6());
  }
}
