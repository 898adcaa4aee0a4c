/**
 * `xs.sort((a, b) => key(b) - key(a))`: JavaScript's `Array.prototype.sort`
 * is stable, so it is modelled as a stable insertion sort that orders by a
 * numeric key, largest first. An ascending sort is the same sort on the
 * negated key.
 */
module Sorting {

  /** Keys never increase from left to right. */
  ghost predicate SortedDesc<T>(xs: seq<T>, key: T -> int) {
    forall i, j :: 0 <= i < j < |xs| ==> key(xs[i]) >= key(xs[j])
  }

  /** Put `x` after every element whose key is at least its own, so equal keys keep their order. */
  function Insert<T(==)>(x: T, xs: seq<T>, key: T -> int): (r: seq<T>)
    requires SortedDesc(xs, key)
    ensures SortedDesc(r, key)
    ensures multiset(r) == multiset(xs) + multiset{x}
  {
    if |xs| == 0 then [x]
    else if key(xs[0]) >= key(x) then
      var rest := Insert(x, xs[1..], key);
      assert xs == [xs[0]] + xs[1..];
      BoundedBy(rest, x, xs, key);
      [xs[0]] + rest
    else [x] + xs
  }

  /** Every element of a permutation of `xs[1..]` plus `x` has a key no larger than `xs[0]`'s. */
  lemma BoundedBy<T>(rest: seq<T>, x: T, xs: seq<T>, key: T -> int)
    requires |xs| > 0 && SortedDesc(xs, key) && key(xs[0]) >= key(x)
    requires multiset(rest) == multiset(xs[1..]) + multiset{x}
    ensures forall j :: 0 <= j < |rest| ==> key(rest[j]) <= key(xs[0])
  {
    forall j | 0 <= j < |rest| ensures key(rest[j]) <= key(xs[0]) {
      assert rest[j] in multiset(rest);
      if rest[j] != x {
        assert rest[j] in multiset(xs[1..]);
        var i :| 0 <= i < |xs[1..]| && xs[1..][i] == rest[j];
        assert xs[i + 1] == rest[j];
      }
    }
  }

  /** Sort by `key`, largest first; equal keys keep their input order. */
  function SortDesc<T(==)>(xs: seq<T>, key: T -> int): (r: seq<T>)
    ensures SortedDesc(r, key)
    ensures multiset(r) == multiset(xs)
  {
    if |xs| == 0 then []
    else
      assert xs == xs[..|xs| - 1] + [xs[|xs| - 1]];
      Insert(xs[|xs| - 1], SortDesc(xs[..|xs| - 1], key), key)
  }

  /** The sum of `g` over the elements. */
  function SumBy<T>(xs: seq<T>, g: T -> int): int {
    if |xs| == 0 then 0 else g(xs[0]) + SumBy(xs[1..], g)
  }

  /** No two elements share a value of `f`. */
  ghost predicate DistinctBy<T, K>(xs: seq<T>, f: T -> K) {
    forall i, j :: 0 <= i < j < |xs| ==> f(xs[i]) != f(xs[j])
  }

  lemma {:induction false} InsertSum<T>(x: T, xs: seq<T>, key: T -> int, g: T -> int)
    requires SortedDesc(xs, key)
    ensures SumBy(Insert(x, xs, key), g) == g(x) + SumBy(xs, g)
  {
    if |xs| > 0 && key(xs[0]) >= key(x) {
      InsertSum(x, xs[1..], key, g);
      assert ([xs[0]] + Insert(x, xs[1..], key))[1..] == Insert(x, xs[1..], key);
    } else if |xs| > 0 {
      assert ([x] + xs)[1..] == xs;
    }
  }

  /** Sorting neither loses nor duplicates any amount. */
  lemma {:induction false} SortSum<T>(xs: seq<T>, key: T -> int, g: T -> int)
    ensures SumBy(SortDesc(xs, key), g) == SumBy(xs, g)
  {
    if |xs| > 0 {
      var init, last := xs[..|xs| - 1], xs[|xs| - 1];
      var sorted := SortDesc(init, key);
      assert SortDesc(xs, key) == Insert(last, sorted, key);
      SortSum(init, key, g);
      InsertSum(last, sorted, key, g);
      assert xs == init + [last];
      SumByAppend(init, [last], g);
      assert SumBy([last], g) == g(last);
    }
  }

  lemma {:induction false} SumByAppend<T>(a: seq<T>, b: seq<T>, g: T -> int)
    ensures SumBy(a + b, g) == SumBy(a, g) + SumBy(b, g)
  {
    if |a| == 0 {
      assert a + b == b;
    } else {
      assert (a + b)[1..] == a[1..] + b;
      SumByAppend(a[1..], b, g);
    }
  }

  lemma {:induction false} InsertDistinct<T, K>(x: T, xs: seq<T>, key: T -> int, f: T -> K)
    requires SortedDesc(xs, key)
    requires DistinctBy(xs, f)
    requires forall i :: 0 <= i < |xs| ==> f(xs[i]) != f(x)
    ensures DistinctBy(Insert(x, xs, key), f)
  {
    if |xs| > 0 && key(xs[0]) >= key(x) {
      var rest := Insert(x, xs[1..], key);
      InsertDistinct(x, xs[1..], key, f);
      forall j | 0 <= j < |rest| ensures f(xs[0]) != f(rest[j]) {
        assert rest[j] in multiset(rest);
        if rest[j] != x {
          assert rest[j] in multiset(xs[1..]);
          var k :| 0 <= k < |xs[1..]| && xs[1..][k] == rest[j];
          assert xs[k + 1] == rest[j];
        }
      }
    }
  }

  /** Sorting keeps elements with distinct `f` values distinct. */
  lemma {:induction false} SortDistinct<T, K>(xs: seq<T>, key: T -> int, f: T -> K)
    requires DistinctBy(xs, f)
    ensures DistinctBy(SortDesc(xs, key), f)
  {
    if |xs| > 0 {
      var init, last := xs[..|xs| - 1], xs[|xs| - 1];
      SortDistinct(init, key, f);
      var sorted := SortDesc(init, key);
      forall i | 0 <= i < |sorted| ensures f(sorted[i]) != f(last) {
        assert sorted[i] in multiset(sorted);
        assert sorted[i] in multiset(init);
        var k :| 0 <= k < |init| && init[k] == sorted[i];
        assert xs[k] == sorted[i];
      }
      InsertDistinct(last, sorted, key, f);
    }
  }

  /** Every element of the sorted sequence comes from the input, and every input element is kept. */
  lemma SortMembers<T>(xs: seq<T>, key: T -> int)
    ensures forall x :: x in SortDesc(xs, key) <==> x in xs
  {
    var r := SortDesc(xs, key);
    assert multiset(r) == multiset(xs);
    forall x ensures x in r <==> x in xs {
      assert x in r <==> x in multiset(r);
      assert x in xs <==> x in multiset(xs);
    }
  }

  /** `tie` strictly increases along `xs`, as an element's input position does. */
  ghost predicate Increasing<T>(xs: seq<T>, tie: T -> int) {
    forall i, j :: 0 <= i < j < |xs| ==> tie(xs[i]) < tie(xs[j])
  }

  /** Among elements with equal keys, `tie` increases from left to right. */
  ghost predicate StableBy<T>(xs: seq<T>, key: T -> int, tie: T -> int) {
    forall i, j :: 0 <= i < j < |xs| && key(xs[i]) == key(xs[j]) ==> tie(xs[i]) < tie(xs[j])
  }

  /** The tail of a sorted, stable sequence is sorted and stable. */
  lemma TailStable<T>(xs: seq<T>, key: T -> int, tie: T -> int)
    requires |xs| > 0 && SortedDesc(xs, key) && StableBy(xs, key, tie)
    ensures SortedDesc(xs[1..], key) && StableBy(xs[1..], key, tie)
  {
    forall i, j | 0 <= i < j < |xs| - 1 ensures xs[1..][i] == xs[i + 1] && xs[1..][j] == xs[j + 1] {
    }
  }

  /** The head of `xs` comes before every element of equal key that insertion into the tail produces. */
  lemma HeadFirst<T>(x: T, xs: seq<T>, key: T -> int, tie: T -> int)
    requires |xs| > 0 && SortedDesc(xs, key) && StableBy(xs, key, tie)
    requires forall i :: 0 <= i < |xs| ==> tie(xs[i]) < tie(x)
    ensures SortedDesc(xs[1..], key)
    ensures forall j :: 0 <= j < |Insert(x, xs[1..], key)| && key(xs[0]) == key(Insert(x, xs[1..], key)[j]) ==>
      tie(xs[0]) < tie(Insert(x, xs[1..], key)[j])
  {
    TailStable(xs, key, tie);
    var rest := Insert(x, xs[1..], key);
    forall j | 0 <= j < |rest| && key(xs[0]) == key(rest[j]) ensures tie(xs[0]) < tie(rest[j]) {
      assert rest[j] in multiset(rest);
      if rest[j] != x {
        assert rest[j] in multiset(xs[1..]);
        var k :| 0 <= k < |xs[1..]| && xs[1..][k] == rest[j];
        assert xs[k + 1] == rest[j];
      }
    }
  }

  lemma {:induction false} InsertStable<T>(x: T, xs: seq<T>, key: T -> int, tie: T -> int)
    requires SortedDesc(xs, key)
    requires StableBy(xs, key, tie)
    requires forall i :: 0 <= i < |xs| ==> tie(xs[i]) < tie(x)
    ensures StableBy(Insert(x, xs, key), key, tie)
  {
    if |xs| > 0 && key(xs[0]) >= key(x) {
      TailStable(xs, key, tie);
      assert forall i :: 0 <= i < |xs[1..]| ==> tie(xs[1..][i]) < tie(x) by {
        forall i | 0 <= i < |xs[1..]| ensures tie(xs[1..][i]) < tie(x) {
          assert xs[1..][i] == xs[i + 1];
        }
      }
      InsertStable(x, xs[1..], key, tie);
      HeadFirst(x, xs, key, tie);
      var rest := Insert(x, xs[1..], key);
      var r := [xs[0]] + rest;
      assert Insert(x, xs, key) == r;
      forall i, j | 0 <= i < j < |r| && key(r[i]) == key(r[j]) ensures tie(r[i]) < tie(r[j]) {
        assert r[j] == rest[j - 1];
        if i > 0 {
          assert r[i] == rest[i - 1];
        }
      }
    } else if |xs| > 0 {
      var r := [x] + xs;
      assert Insert(x, xs, key) == r;
      forall i, j | 0 <= i < j < |r| && key(r[i]) == key(r[j]) ensures tie(r[i]) < tie(r[j]) {
        assert r[j] == xs[j - 1];
        if i > 0 {
          assert r[i] == xs[i - 1];
        }
      }
    }
  }

  /**
   * `Array.prototype.sort` is stable: elements with equal keys keep their
   * input order, measured by any `tie` that increases along the input.
   */
  lemma {:induction false} SortStable<T>(xs: seq<T>, key: T -> int, tie: T -> int)
    requires Increasing(xs, tie)
    ensures StableBy(SortDesc(xs, key), key, tie)
  {
    if |xs| > 0 {
      var init, last := xs[..|xs| - 1], xs[|xs| - 1];
      var sorted := SortDesc(init, key);
      assert SortDesc(xs, key) == Insert(last, sorted, key);
      assert Increasing(init, tie) by {
        forall i, j | 0 <= i < j < |init| ensures tie(init[i]) < tie(init[j]) {
          assert init[i] == xs[i] && init[j] == xs[j];
        }
      }
      SortStable(init, key, tie);
      forall i | 0 <= i < |sorted| ensures tie(sorted[i]) < tie(last) {
        assert sorted[i] in multiset(sorted);
        assert sorted[i] in multiset(init);
        var k :| 0 <= k < |init| && init[k] == sorted[i];
        assert xs[k] == sorted[i];
      }
      InsertStable(last, sorted, key, tie);
    }
  }
}
