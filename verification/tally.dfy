/**
 * Running totals keyed by a string or other value, the pattern
 * `m.set(k, (m.get(k) || 0) + n)` that every route applies inside a
 * `forEach`. A JavaScript `Map` iterates in first-insertion order, so it is
 * modelled as an association list of (key, total) pairs.
 */
module Tally {

  /** The keys of an association list, in order. */
  function Keys<K, V>(t: seq<(K, V)>): (ks: seq<K>)
    ensures |ks| == |t|
    ensures forall i :: 0 <= i < |t| ==> ks[i] == t[i].0
  {
    seq(|t|, i requires 0 <= i < |t| => t[i].0)
  }

  /** No key is listed twice. */
  ghost predicate DistinctKeys<K, V>(t: seq<(K, V)>) {
    forall i, j :: 0 <= i < j < |t| ==> t[i].0 != t[j].0
  }

  /** `m.get(k) || 0`: the total stored under `k`, or 0 when there is none. */
  function Get<K(==)>(t: seq<(K, int)>, k: K): int
  {
    if |t| == 0 then 0
    else if t[0].0 == k then t[0].1
    else Get(t[1..], k)
  }

  /** The sum of all amounts in a list of pairs. */
  function Sum<K>(ps: seq<(K, int)>): int
  {
    if |ps| == 0 then 0 else ps[0].1 + Sum(ps[1..])
  }

  /** The sum of the amounts paired with `k`: the reference meaning of a group total. */
  ghost function SumFor<K>(ps: seq<(K, int)>, k: K): int
  {
    if |ps| == 0 then 0 else (if ps[0].0 == k then ps[0].1 else 0) + SumFor(ps[1..], k)
  }

  /** `m.set(k, (m.get(k) || 0) + n)`: add to an existing key in place, or append a new key. */
  function Add<K(==,!new)>(t: seq<(K, int)>, k: K, n: int): (r: seq<(K, int)>)
    ensures forall x :: Get(r, x) == Get(t, x) + (if x == k then n else 0)
    ensures Sum(r) == Sum(t) + n
  {
    if |t| == 0 then [(k, n)]
    else if t[0].0 == k then [(k, t[0].1 + n)] + t[1..]
    else [t[0]] + Add(t[1..], k, n)
  }

  /** Adding to a key already present changes no key. */
  lemma {:induction false} AddPresent<K(!new)>(t: seq<(K, int)>, k: K, n: int)
    requires k in Keys(t)
    ensures Keys(Add(t, k, n)) == Keys(t)
  {
    var r := Add(t, k, n);
    if t[0].0 == k {
      assert r == [(k, t[0].1 + n)] + t[1..];
    } else {
      var i :| 0 <= i < |t| && Keys(t)[i] == k;
      assert Keys(t[1..])[i - 1] == k;
      AddPresent(t[1..], k, n);
      var rest := Add(t[1..], k, n);
      assert r == [t[0]] + rest;
      assert |rest| == |t| - 1 by { assert |Keys(rest)| == |Keys(t[1..])|; }
      forall j | 0 <= j < |r| ensures r[j].0 == t[j].0 {
        if j > 0 {
          assert Keys(rest)[j - 1] == Keys(t[1..])[j - 1];
        }
      }
    }
  }

  /** Adding a new key appends it. */
  lemma {:induction false} AddAbsent<K(!new)>(t: seq<(K, int)>, k: K, n: int)
    requires k !in Keys(t)
    ensures Add(t, k, n) == t + [(k, n)]
  {
    if |t| > 0 {
      assert t[0].0 == Keys(t)[0];
      assert k !in Keys(t[1..]) by {
        forall i | 0 <= i < |t| - 1 ensures Keys(t[1..])[i] != k {
          assert Keys(t[1..])[i] == Keys(t)[i + 1];
        }
      }
      AddAbsent(t[1..], k, n);
      assert t == [t[0]] + t[1..];
    }
  }

  /** Adding keeps the keys of a map distinct, and only a new key lengthens it, at the end. */
  lemma AddKeys<K(!new)>(t: seq<(K, int)>, k: K, n: int)
    ensures forall x :: x in Keys(Add(t, k, n)) <==> x in Keys(t) || x == k
    ensures DistinctKeys(t) ==> DistinctKeys(Add(t, k, n))
    ensures k in Keys(t) ==> Keys(Add(t, k, n)) == Keys(t)
    ensures k !in Keys(t) ==> Add(t, k, n) == t + [(k, n)]
  {
    var r := Add(t, k, n);
    if k in Keys(t) {
      AddPresent(t, k, n);
      assert forall i :: 0 <= i < |r| ==> r[i].0 == Keys(t)[i];
    } else {
      AddAbsent(t, k, n);
      assert Keys(r) == Keys(t) + [k];
      forall i | 0 <= i < |t| ensures t[i].0 != k {
        assert Keys(t)[i] == t[i].0;
      }
    }
  }

  /** The fold `pairs.forEach(([k, n]) => m.set(k, (m.get(k) || 0) + n))`, starting from an empty map. */
  function Fold<K(==,!new)>(ps: seq<(K, int)>): (t: seq<(K, int)>)
    ensures DistinctKeys(t)
    ensures |t| <= |ps|
    ensures Sum(t) == Sum(ps)
  {
    if |ps| == 0 then [] else
      var init, last := ps[..|ps| - 1], ps[|ps| - 1];
      AddKeys(Fold(init), last.0, last.1);
      assert ps == init + [last];
      SumAppend(init, [last]);
      Add(Fold(init), last.0, last.1)
  }

  /** The position of the first pair with key `k`, or `|ps|` when no pair has it. */
  function FirstAt<K(==), V>(ps: seq<(K, V)>, k: K): (n: nat)
    ensures n <= |ps|
    ensures forall i :: 0 <= i < n ==> ps[i].0 != k
    ensures n < |ps| ==> ps[n].0 == k
  {
    if |ps| == 0 then 0
    else if ps[0].0 == k then 0
    else 1 + FirstAt(ps[1..], k)
  }

  /** A first occurrence in `a` is the first occurrence in `a + b`; otherwise the search continues in `b`. */
  lemma FirstAtAppend<K, V>(a: seq<(K, V)>, b: seq<(K, V)>, k: K)
    ensures FirstAt(a, k) < |a| ==> FirstAt(a + b, k) == FirstAt(a, k)
    ensures FirstAt(a, k) == |a| ==> FirstAt(a + b, k) == |a| + FirstAt(b, k)
  {
    var n, m := FirstAt(a, k), FirstAt(a + b, k);
    if n < |a| {
      assert (a + b)[n] == a[n];
    } else {
      var l := FirstAt(b, k);
      forall i | 0 <= i < |a| + l ensures (a + b)[i].0 != k {
        if i >= |a| {
          assert (a + b)[i] == b[i - |a|];
        }
      }
      if l < |b| {
        assert (a + b)[|a| + l] == b[l];
      }
    }
  }

  /** A key already in the fold of `init` first appears inside `init`. */
  lemma OldKeyFirst<K(!new)>(init: seq<(K, int)>, last: (K, int), i: int)
    requires 0 <= i < |Fold(init)|
    ensures FirstAt(init + [last], Fold(init)[i].0) == FirstAt(init, Fold(init)[i].0) < |init|
  {
    var j := FoldKeyOrigin(init, i);
    FirstAtAppend(init, [last], Fold(init)[i].0);
  }

  /**
   * A `Map` iterates in insertion order: the fold lists its keys in the order
   * of their first appearance among the pairs.
   */
  lemma {:induction false} FoldFirstOrder<K(!new)>(ps: seq<(K, int)>)
    ensures forall i, j :: 0 <= i < j < |Fold(ps)| ==> FirstAt(ps, Fold(ps)[i].0) < FirstAt(ps, Fold(ps)[j].0)
  {
    if |ps| > 0 {
      var init, last := ps[..|ps| - 1], ps[|ps| - 1];
      var before, after := Fold(init), Fold(ps);
      assert ps == init + [last];
      assert after == Add(before, last.0, last.1);
      FoldFirstOrder(init);
      AddKeys(before, last.0, last.1);
      if last.0 in Keys(before) {
        forall i, j | 0 <= i < j < |after| ensures FirstAt(ps, after[i].0) < FirstAt(ps, after[j].0) {
          assert Keys(after)[i] == Keys(before)[i] && Keys(after)[j] == Keys(before)[j];
          OldKeyFirst(init, last, i);
          OldKeyFirst(init, last, j);
        }
      } else {
        assert FirstAt(init, last.0) == |init| by {
          var n := FirstAt(init, last.0);
          if n < |init| {
            FoldHasKey(init, n);
          }
        }
        FirstAtAppend(init, [last], last.0);
        forall i, j | 0 <= i < j < |after| ensures FirstAt(ps, after[i].0) < FirstAt(ps, after[j].0) {
          assert after[i] == before[i];
          OldKeyFirst(init, last, i);
          if j < |before| {
            assert after[j] == before[j];
            OldKeyFirst(init, last, j);
          }
        }
      }
    }
  }

  lemma {:induction false} SumAppend<K>(a: seq<(K, int)>, b: seq<(K, int)>)
    ensures Sum(a + b) == Sum(a) + Sum(b)
  {
    if |a| == 0 {
      assert a + b == b;
    } else {
      assert (a + b)[1..] == a[1..] + b;
      SumAppend(a[1..], b);
    }
  }

  lemma {:induction false} SumForAppend<K>(a: seq<(K, int)>, b: seq<(K, int)>, k: K)
    ensures SumFor(a + b, k) == SumFor(a, k) + SumFor(b, k)
  {
    if |a| == 0 {
      assert a + b == b;
    } else {
      assert (a + b)[1..] == a[1..] + b;
      SumForAppend(a[1..], b, k);
    }
  }

  /**
   * The fold lists each key of the input exactly once, in order of first
   * appearance, with the sum of that key's amounts, and loses nothing.
   */
  lemma {:induction false} FoldCorrect<K(!new)>(ps: seq<(K, int)>)
    ensures DistinctKeys(Fold(ps))
    ensures forall x :: x in Keys(Fold(ps)) <==> exists i :: 0 <= i < |ps| && ps[i].0 == x
    ensures forall x :: Get(Fold(ps), x) == SumFor(ps, x)
    ensures Sum(Fold(ps)) == Sum(ps)
  {
    if |ps| == 0 {
    } else {
      var init, last := ps[..|ps| - 1], ps[|ps| - 1];
      assert ps == init + [last];
      FoldCorrect(init);
      AddKeys(Fold(init), last.0, last.1);
      SumAppend(init, [last]);
      forall x ensures Get(Fold(ps), x) == SumFor(ps, x) {
        SumForAppend(init, [last], x);
      }
      forall x | x in Keys(Fold(ps)) ensures exists i :: 0 <= i < |ps| && ps[i].0 == x {
        if x != last.0 {
          var i :| 0 <= i < |init| && init[i].0 == x;
          assert ps[i] == init[i];
        } else {
          assert ps[|ps| - 1].0 == x;
        }
      }
      forall x | exists i :: 0 <= i < |ps| && ps[i].0 == x ensures x in Keys(Fold(ps)) {
        var i :| 0 <= i < |ps| && ps[i].0 == x;
        if i < |init| {
          assert init[i] == ps[i];
        }
      }
    }
  }

  /** The key of every input pair is a key of the fold. */
  lemma FoldHasKey<K(!new)>(ps: seq<(K, int)>, i: int)
    requires 0 <= i < |ps|
    ensures ps[i].0 in Keys(Fold(ps))
  {
    FoldCorrect(ps);
  }

  /** Every key of the fold is the key of some input pair. */
  lemma FoldKeyOrigin<K(!new)>(ps: seq<(K, int)>, k: int) returns (i: int)
    requires 0 <= k < |Fold(ps)|
    ensures 0 <= i < |ps| && ps[i].0 == Fold(ps)[k].0
  {
    FoldCorrect(ps);
    assert Fold(ps)[k].0 in Keys(Fold(ps));
    i :| 0 <= i < |ps| && ps[i].0 == Fold(ps)[k].0;
  }

  /** Lookup of a key that is present finds the total stored at its position. */
  lemma {:induction false} GetAt<K>(t: seq<(K, int)>, i: int)
    requires DistinctKeys(t)
    requires 0 <= i < |t|
    ensures Get(t, t[i].0) == t[i].1
  {
    if i > 0 {
      GetAt(t[1..], i - 1);
    }
  }

  /** `m.get(k) || 0` for every key the map lacks is 0. */
  lemma ZeroFill<K>(t: seq<(K, int)>)
    ensures forall k :: k !in Keys(t) ==> Get(t, k) == 0
  {
    forall k | k !in Keys(t) ensures Get(t, k) == 0 {
      GetAbsent(t, k);
    }
  }

  /** In a map with distinct keys, every key reads back the total stored at its position. */
  lemma GetAll<K>(t: seq<(K, int)>)
    ensures DistinctKeys(t) ==> forall k :: 0 <= k < |t| ==> Get(t, t[k].0) == t[k].1
  {
    if DistinctKeys(t) {
      forall k | 0 <= k < |t| ensures Get(t, t[k].0) == t[k].1 {
        GetAt(t, k);
      }
    }
  }

  /** Lookup of a key that is absent gives the JavaScript default 0. */
  lemma {:induction false} GetAbsent<K>(t: seq<(K, int)>, k: K)
    requires k !in Keys(t)
    ensures Get(t, k) == 0
  {
    if |t| > 0 {
      assert Keys(t) == [t[0].0] + Keys(t[1..]);
      GetAbsent(t[1..], k);
    }
  }
}
