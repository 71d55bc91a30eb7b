/** The LINQ and array operations the controllers and pages compose:
    `Where`/`filter`, `OrderByDescending`, `Take`/`slice`. */
module Queries {

  /** `r` can be obtained from `xs` by deleting elements: what is left keeps
      its relative order. */
  ghost predicate Subsequence<T>(r: seq<T>, xs: seq<T>) {
    r == [] || (xs != [] && ((r[0] == xs[0] && Subsequence(r[1..], xs[1..])) || Subsequence(r, xs[1..])))
  }

  /** Deleting nothing is a way of deleting elements. */
  lemma {:induction false} SubsequenceOfSelf<T>(xs: seq<T>)
    ensures Subsequence(xs, xs)
  {
    if xs != [] {
      SubsequenceOfSelf(xs[1..]);
    }
  }

  /** `Where(p)` / `filter(p)`: the elements satisfying `p`, in their original order. */
  function Filter<T(!new)>(xs: seq<T>, p: T -> bool): (r: seq<T>)
    ensures |r| <= |xs|
    ensures Subsequence(r, xs)
    ensures forall i :: 0 <= i < |r| ==> p(r[i])
    ensures forall x :: x in r <==> x in xs && p(x)
    ensures (forall i :: 0 <= i < |xs| ==> p(xs[i])) ==> r == xs
  {
    if xs == [] then []
    else
      var rest := Filter(xs[1..], p);
      if p(xs[0]) then
        assert ([xs[0]] + rest)[1..] == rest;
        [xs[0]] + rest
      else rest
  }

  /** Filtering distributes over concatenation: the kept elements keep their relative order. */
  lemma {:induction false} FilterAppend<T(!new)>(a: seq<T>, b: seq<T>, p: T -> bool)
    ensures Filter(a + b, p) == Filter(a, p) + Filter(b, p)
  {
    if a == [] {
      assert a + b == b;
    } else {
      assert (a + b)[1..] == a[1..] + b;
      FilterAppend(a[1..], b, p);
    }
  }

  /** Nothing is kept when nothing satisfies `p`. */
  lemma {:induction false} FilterNone<T(!new)>(xs: seq<T>, p: T -> bool)
    requires forall i :: 0 <= i < |xs| ==> !p(xs[i])
    ensures Filter(xs, p) == []
  {
    if xs != [] {
      FilterNone(xs[1..], p);
    }
  }

  /** Filtering twice is filtering by the conjunction (a `Where` chained on a `Where`). */
  lemma {:induction false} FilterFilter<T(!new)>(xs: seq<T>, p: T -> bool, q: T -> bool)
    ensures Filter(Filter(xs, p), q) == Filter(xs, x => p(x) && q(x))
  {
    if xs != [] {
      FilterFilter(xs[1..], p, q);
      var head := if p(xs[0]) then [xs[0]] else [];
      FilterAppend(head, Filter(xs[1..], p), q);
    }
  }

  /** The elements' keys never increase from left to right. */
  predicate SortedDesc<T>(xs: seq<T>, key: T -> int) {
    forall i, j :: 0 <= i < j < |xs| ==> key(xs[i]) >= key(xs[j])
  }

  /** A head whose key bounds every key after it extends a descending sequence. */
  lemma ConsSortedDesc<T>(h: T, rest: seq<T>, key: T -> int)
    requires SortedDesc(rest, key)
    requires forall i :: 0 <= i < |rest| ==> key(rest[i]) <= key(h)
    ensures SortedDesc([h] + rest, key)
  {
    var r := [h] + rest;
    forall i, j | 0 <= i < j < |r| ensures key(r[i]) >= key(r[j]) {
      assert r[j] == rest[j - 1];
      if i > 0 {
        assert r[i] == rest[i - 1];
      }
    }
  }

  /** In a descending sequence the first key bounds all the others. */
  lemma HeadBounds<T>(xs: seq<T>, key: T -> int)
    requires xs != [] && SortedDesc(xs, key)
    ensures forall y :: y in xs[1..] ==> key(y) <= key(xs[0])
  {
    forall y | y in xs[1..] ensures key(y) <= key(xs[0]) {
      var k :| 0 <= k < |xs[1..]| && xs[1..][k] == y;
      assert xs[k + 1] == y;
    }
  }

  /** Filtering keeps a descending order. */
  lemma {:induction false} FilterKeepsSortedDesc<T(!new)>(xs: seq<T>, key: T -> int, p: T -> bool)
    requires SortedDesc(xs, key)
    ensures SortedDesc(Filter(xs, p), key)
  {
    if xs != [] {
      var rest := Filter(xs[1..], p);
      FilterKeepsSortedDesc(xs[1..], key, p);
      if p(xs[0]) {
        HeadBounds(xs, key);
        forall i | 0 <= i < |rest| ensures key(rest[i]) <= key(xs[0]) {
          assert rest[i] in rest;
        }
        ConsSortedDesc(xs[0], rest, key);
      }
    }
  }

  /** `x` placed in front of the first element whose key is not above its own. */
  function InsertDesc<T>(x: T, xs: seq<T>, key: T -> int): (r: seq<T>)
    requires SortedDesc(xs, key)
    ensures |r| == |xs| + 1
    ensures forall i :: 0 <= i < |r| ==> r[i] == x || r[i] in xs
    ensures SortedDesc(r, key)
    ensures multiset(r) == multiset(xs) + multiset{x}
  {
    if xs == [] || key(xs[0]) <= key(x) then
      ConsSortedDesc(x, xs, key);
      [x] + xs
    else
      var rest := InsertDesc(x, xs[1..], key);
      HeadBoundsRest(x, xs, rest, key);
      ConsSortedDesc(xs[0], rest, key);
      assert xs == [xs[0]] + xs[1..];
      assert multiset([xs[0]] + rest) == multiset{xs[0]} + multiset(rest);
      [xs[0]] + rest
  }

  lemma HeadBoundsRest<T>(x: T, xs: seq<T>, rest: seq<T>, key: T -> int)
    requires xs != [] && key(x) < key(xs[0]) && SortedDesc(xs, key)
    requires forall i :: 0 <= i < |rest| ==> rest[i] == x || rest[i] in xs[1..]
    ensures forall i :: 0 <= i < |rest| ==> key(rest[i]) <= key(xs[0])
  {
    HeadBounds(xs, key);
  }

  /** `OrderByDescending(key)`: a permutation of `xs` ordered by decreasing key;
      elements with equal keys keep their original order (`SortDescStable`). */
  function SortDesc<T>(xs: seq<T>, key: T -> int): (r: seq<T>)
    ensures |r| == |xs|
    ensures SortedDesc(r, key)
    ensures multiset(r) == multiset(xs)
  {
    if xs == [] then []
    else
      assert xs == [xs[0]] + xs[1..];
      InsertDesc(xs[0], SortDesc(xs[1..], key), key)
  }

  /** The elements whose key is `k`. */
  function KeyIs<T>(key: T -> int, k: int): T -> bool {
    (x: T) => key(x) == k
  }

  /** A one-element list is kept whole or dropped. */
  lemma FilterSingle<T(!new)>(y: T, p: T -> bool)
    ensures Filter([y], p) == if p(y) then [y] else []
  {
    assert [y][1..] == [];
  }

  /** Moving an empty part past another part changes nothing. */
  lemma SwapEmpty<T>(head: seq<T>, own: seq<T>, tail: seq<T>)
    requires head == [] || own == []
    ensures head + (own + tail) == own + (head + tail)
  {
  }

  /** Inserting `x` adds it in front of the elements that share its key. */
  lemma {:induction false} FilterInsertDesc<T(!new)>(x: T, xs: seq<T>, key: T -> int, k: int)
    requires SortedDesc(xs, key)
    ensures Filter(InsertDesc(x, xs, key), KeyIs(key, k)) == (if key(x) == k then [x] else []) + Filter(xs, KeyIs(key, k))
    decreases |xs|, 1
  {
    var p := KeyIs(key, k);
    if xs == [] || key(xs[0]) <= key(x) {
      FilterAppend([x], xs, p);
      FilterSingle(x, p);
    } else {
      FilterInsertBehind(x, xs, key, k);
    }
  }

  /** The step of `FilterInsertDesc` where `x` goes behind the first element. */
  lemma {:induction false} FilterInsertBehind<T(!new)>(x: T, xs: seq<T>, key: T -> int, k: int)
    requires SortedDesc(xs, key) && xs != [] && key(x) < key(xs[0])
    ensures Filter(InsertDesc(x, xs, key), KeyIs(key, k)) == (if key(x) == k then [x] else []) + Filter(xs, KeyIs(key, k))
    decreases |xs|, 0
  {
    var p := KeyIs(key, k);
    var own := if key(x) == k then [x] else [];
    var rest := InsertDesc(x, xs[1..], key);
    var head := Filter([xs[0]], p);
    var tail := Filter(xs[1..], p);
    FilterInsertDesc(x, xs[1..], key, k);
    FilterAppend([xs[0]], rest, p);
    FilterAppend([xs[0]], xs[1..], p);
    assert xs == [xs[0]] + xs[1..];
    FilterSingle(xs[0], p);
    SwapEmpty(head, own, tail);
  }

  /** `OrderByDescending` is stable: the elements sharing any one key come
      out in the order they went in. */
  lemma {:induction false} SortDescStable<T(!new)>(xs: seq<T>, key: T -> int, k: int)
    ensures Filter(SortDesc(xs, key), KeyIs(key, k)) == Filter(xs, KeyIs(key, k))
  {
    if xs != [] {
      SortDescStable(xs[1..], key, k);
      FilterInsertDesc(xs[0], SortDesc(xs[1..], key), key, k);
      FilterAppend([xs[0]], xs[1..], KeyIs(key, k));
      assert xs == [xs[0]] + xs[1..];
    }
  }

  /** `Take(n)`: the first `n` elements, none for `n <= 0`, all of them when there are fewer. */
  function Take<T>(xs: seq<T>, n: int): (r: seq<T>)
    ensures r <= xs
    ensures |r| == if n <= 0 then 0 else if n < |xs| then n else |xs|
  {
    if n <= 0 then [] else if n < |xs| then xs[..n] else xs
  }

  /** `Select(f)` / `map(f)`. */
  function Map<T, U>(xs: seq<T>, f: T -> U): (r: seq<U>)
    ensures |r| == |xs|
    ensures forall i :: 0 <= i < |xs| ==> r[i] == f(xs[i])
  {
    seq(|xs|, i requires 0 <= i < |xs| => f(xs[i]))
  }

  /** The image of every element is in the mapped sequence, and nothing else is. */
  lemma MapMembers<T(!new), U(!new)>(xs: seq<T>, f: T -> U)
    ensures forall x :: x in xs ==> f(x) in Map(xs, f)
    ensures forall y :: y in Map(xs, f) ==> exists x :: x in xs && y == f(x)
  {
    var r := Map(xs, f);
    forall x | x in xs ensures f(x) in r {
      var k :| 0 <= k < |xs| && xs[k] == x;
      assert r[k] == f(x);
    }
    forall y | y in r ensures exists x :: x in xs && y == f(x) {
      var k :| 0 <= k < |r| && r[k] == y;
      assert xs[k] in xs;
    }
  }

  /** Sorting keeps exactly the same elements. */
  lemma SortDescMembers<T(!new)>(xs: seq<T>, key: T -> int)
    ensures forall x :: x in SortDesc(xs, key) <==> x in xs
  {
    var r := SortDesc(xs, key);
    forall x ensures x in r <==> x in xs {
      assert x in r <==> x in multiset(r);
      assert x in xs <==> x in multiset(xs);
    }
  }
}
