/** Sequence helpers standing for the JavaScript array methods the storefront
    relies on: `Array.prototype.filter` and `Array.prototype.find`. */
module Lists {

  datatype Option<+T> = None | Some(value: T)

  /** `a` can be obtained from `b` by deleting elements, so it keeps their
      order. Matching each element of `a` with the earliest equal element of
      `b` that is still available is complete, so one greedy pass decides it. */
  predicate IsSubsequence<T(==)>(a: seq<T>, b: seq<T>)
  {
    a == [] || (b != [] && if a[0] == b[0] then IsSubsequence(a[1..], b[1..]) else IsSubsequence(a, b[1..]))
  }

  /** `Array.prototype.filter`: the elements of `s` that `keep` accepts, in order.
      The result is fully determined by being an order-preserving selection
      that keeps every accepted occurrence and no rejected one. */
  function Filter<T(==,!new)>(s: seq<T>, keep: T -> bool): (r: seq<T>)
    ensures IsSubsequence(r, s)
    ensures forall x :: multiset(r)[x] == if keep(x) then multiset(s)[x] else 0
    ensures forall x :: x in r <==> x in s && keep(x)
  {
    if s == [] then []
    else
      assert s == [s[0]] + s[1..];
      var rest := Filter(s[1..], keep);
      if keep(s[0]) then [s[0]] + rest
      else
        assert rest != [] ==> rest[0] in rest && rest[0] != s[0];
        rest
  }

  /** `Array.prototype.findIndex`: the position of the first element `pred` accepts. */
  function FirstIndex<T>(s: seq<T>, pred: T -> bool): (r: Option<nat>)
    ensures r.Some? ==> r.value < |s| && pred(s[r.value]) && forall j :: 0 <= j < r.value ==> !pred(s[j])
    ensures r.None? <==> forall j :: 0 <= j < |s| ==> !pred(s[j])
  {
    if s == [] then None
    else if pred(s[0]) then Some(0)
    else match FirstIndex(s[1..], pred)
      case None => None
      case Some(i) => Some(i + 1)
  }

  /** `Array.prototype.find`: the first element `pred` accepts, if any. */
  function Find<T>(s: seq<T>, pred: T -> bool): (r: Option<T>)
    ensures r.Some? ==>
      exists i :: 0 <= i < |s| && s[i] == r.value && pred(s[i]) && forall j :: 0 <= j < i ==> !pred(s[j])
    ensures r.None? <==> forall x :: x in s ==> !pred(x)
  {
    match FirstIndex(s, pred)
    case None => None
    case Some(i) => Some(s[i])
  }

  /** One step of the filter: the head is kept or dropped, the tail filtered. */
  lemma FilterCons<T(!new)>(x: T, s: seq<T>, keep: T -> bool)
    ensures Filter([x] + s, keep) == (if keep(x) then [x] else []) + Filter(s, keep)
  {
    assert ([x] + s)[1..] == s;
  }

  lemma FilterDrop<T(!new)>(x: T, s: seq<T>, keep: T -> bool)
    requires !keep(x)
    ensures Filter([x] + s, keep) == Filter(s, keep)
  {
    FilterCons(x, s, keep);
  }

  lemma FilterKeep<T(!new)>(x: T, s: seq<T>, keep: T -> bool)
    requires keep(x)
    ensures Filter([x] + s, keep) == [x] + Filter(s, keep)
  {
    FilterCons(x, s, keep);
  }

  /** Filtering distributes over concatenation. */
  lemma {:induction false} FilterConcat<T(!new)>(a: seq<T>, b: seq<T>, keep: T -> bool)
    ensures Filter(a + b, keep) == Filter(a, keep) + Filter(b, keep)
  {
    if a == [] {
      assert a + b == b;
    } else {
      assert (a + b)[0] == a[0];
      assert (a + b)[1..] == a[1..] + b;
      FilterConcat(a[1..], b, keep);
    }
  }

  /** One element appended: kept at the end or dropped. */
  lemma FilterSnoc<T(!new)>(s: seq<T>, x: T, keep: T -> bool)
    ensures Filter(s + [x], keep) == Filter(s, keep) + (if keep(x) then [x] else [])
  {
    FilterConcat(s, [x], keep);
    assert [x] == [x] + [];
    FilterCons(x, [], keep);
  }

  /** A filter that rejects nothing in `s` returns `s` itself. */
  lemma {:induction false} FilterKeepsAll<T(!new)>(s: seq<T>, keep: T -> bool)
    requires forall x :: x in s ==> keep(x)
    ensures Filter(s, keep) == s
  {
    if s != [] {
      assert forall x :: x in s[1..] ==> x in s;
      FilterKeepsAll(s[1..], keep);
    }
  }

  /** A filter that accepts nothing in `s` returns the empty sequence. */
  lemma FilterNone<T(!new)>(s: seq<T>, keep: T -> bool)
    requires forall x :: x in s ==> !keep(x)
    ensures Filter(s, keep) == []
  {
  }

  /** Filtering twice by the same predicate is the same as filtering once. */
  lemma FilterIdempotent<T(!new)>(s: seq<T>, keep: T -> bool)
    ensures Filter(Filter(s, keep), keep) == Filter(s, keep)
  {
    FilterKeepsAll(Filter(s, keep), keep);
  }

  /** Replacing an element that the filter drops by another one it drops
      does not change the filtered sequence. */
  lemma {:induction false} FilterUpdateDropped<T(!new)>(s: seq<T>, i: nat, v: T, keep: T -> bool)
    requires i < |s| && !keep(s[i]) && !keep(v)
    ensures Filter(s[i := v], keep) == Filter(s, keep)
  {
    var t := s[1..];
    assert s == [s[0]] + t;
    if i == 0 {
      assert s[i := v] == [v] + t;
      FilterDrop(v, t, keep);
      FilterDrop(s[0], t, keep);
    } else {
      assert s[i := v] == [s[0]] + t[i - 1 := v];
      FilterUpdateDropped(t, i - 1, v, keep);
      FilterCons(s[0], t[i - 1 := v], keep);
      FilterCons(s[0], t, keep);
    }
  }

  /** What a filter keeps from a prefix of `s` is a prefix of what it keeps from `s`. */
  lemma FilterOfPrefix<T(!new)>(s: seq<T>, n: nat, keep: T -> bool)
    requires n <= |s|
    ensures Filter(s[..n], keep) <= Filter(s, keep)
  {
    assert s == s[..n] + s[n..];
    FilterConcat(s[..n], s[n..], keep);
  }

  /** `rel` holds between every element of `s` and every later one. */
  predicate Pairwise<T>(s: seq<T>, rel: (T, T) -> bool)
  {
    forall i, j :: 0 <= i < j < |s| ==> rel(s[i], s[j])
  }

  /** A relation that holds between every earlier and later element of `s`
      still holds in every filtered selection of `s`. */
  lemma {:induction false} FilterPairwise<T(!new)>(s: seq<T>, keep: T -> bool, rel: (T, T) -> bool)
    requires Pairwise(s, rel)
    ensures Pairwise(Filter(s, keep), rel)
  {
    if s != [] {
      var tail := s[1..];
      forall i, j | 0 <= i < j < |tail| ensures rel(tail[i], tail[j]) {
        assert tail[i] == s[i + 1] && tail[j] == s[j + 1];
      }
      FilterPairwise(tail, keep, rel);
      var rest := Filter(tail, keep);
      if keep(s[0]) {
        forall x | x in tail ensures rel(s[0], x) {
          var m :| 0 <= m < |tail| && tail[m] == x;
          assert s[1 + m] == x;
        }
        var r := [s[0]] + rest;
        forall i, j | 0 <= i < j < |r| ensures rel(r[i], r[j]) {
          if i == 0 {
            assert r[j] == rest[j - 1];
            assert rest[j - 1] in rest;
            assert rest[j - 1] in tail;
            assert r[0] == s[0] && rel(s[0], rest[j - 1]);
          } else {
            assert r[i] == rest[i - 1] && r[j] == rest[j - 1];
            assert 0 <= i - 1 < j - 1 < |rest|;
            assert rel(rest[i - 1], rest[j - 1]);
          }
        }
      }
    }
  }
}
