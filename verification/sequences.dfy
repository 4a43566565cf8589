/**
 * The array operations the store and the invoice list are built from
 * (`Array.prototype.filter`, `map` with a key test, `find`), written once
 * for any element type and specified without reference to their bodies.
 */
module Sequences {
  import opened Optional

  /** `a` can be obtained from `b` by deleting elements: order is kept. */
  ghost predicate IsSubsequence<T>(a: seq<T>, b: seq<T>)
    decreases |b|
  {
    if a == [] then true
    else if b == [] then false
    else (a[0] == b[0] && IsSubsequence(a[1..], b[1..])) || IsSubsequence(a, b[1..])
  }

  /** No two entries of `xs` share a key. */
  ghost predicate DistinctKeys<T, K>(xs: seq<T>, key: T -> K)
  {
    forall i, j :: 0 <= i < j < |xs| ==> key(xs[i]) != key(xs[j])
  }

  /**
   * The entries of `xs` that satisfy `keep`, in their original order.
   * Together the three clauses pin the result down: an order-preserving
   * selection from `xs`, containing only kept entries, and every kept
   * value exactly as often as `xs` does.
   */
  function Filter<T>(xs: seq<T>, keep: T -> bool): (r: seq<T>)
    ensures IsSubsequence(r, xs)
    ensures forall y :: y in r ==> keep(y)
    ensures multiset(r) <= multiset(xs)
    ensures forall y :: y in xs && keep(y) ==> multiset(r)[y] == multiset(xs)[y]
  {
    if xs == [] then []
    else
      assert xs == [xs[0]] + xs[1..];
      var rest := Filter(xs[1..], keep);
      if keep(xs[0]) then
        var r := [xs[0]] + rest;
        assert r[1..] == rest;
        r
      else
        rest
  }

  /** Every entry of `xs` is replaced by `x` when its key equals the key of `x`. */
  function ReplaceByKey<T, K(==)>(xs: seq<T>, key: T -> K, x: T): (r: seq<T>)
    ensures |r| == |xs|
    ensures forall i :: 0 <= i < |xs| && key(xs[i]) == key(x) ==> r[i] == x
    ensures forall i :: 0 <= i < |xs| && key(xs[i]) != key(x) ==> r[i] == xs[i]
  {
    if xs == [] then []
    else [if key(xs[0]) == key(x) then x else xs[0]] + ReplaceByKey(xs[1..], key, x)
  }

  /** The index of the first entry satisfying `p`: the position of the entry `Array.prototype.find` returns. */
  function FirstIndex<T>(xs: seq<T>, p: T -> bool): (r: Option<nat>)
    ensures r.None? <==> forall i :: 0 <= i < |xs| ==> !p(xs[i])
    ensures r.Some? ==> r.value < |xs| && p(xs[r.value])
    ensures r.Some? ==> forall j :: 0 <= j < r.value ==> !p(xs[j])
  {
    if xs == [] then None
    else if p(xs[0]) then Some(0)
    else match FirstIndex(xs[1..], p)
      case None => None
      case Some(i) => Some(i + 1)
  }

  /** When every entry is kept, filtering returns the input itself. */
  lemma {:induction false} FilterKeepsAll<T>(xs: seq<T>, keep: T -> bool)
    requires forall i :: 0 <= i < |xs| ==> keep(xs[i])
    ensures Filter(xs, keep) == xs
  {
    if xs != [] {
      FilterKeepsAll(xs[1..], keep);
      assert xs == [xs[0]] + xs[1..];
    }
  }

  /** Filtering a second time with the same test changes nothing. */
  lemma FilterIdempotent<T>(xs: seq<T>, keep: T -> bool)
    ensures Filter(Filter(xs, keep), keep) == Filter(xs, keep)
  {
    var once := Filter(xs, keep);
    forall i | 0 <= i < |once| ensures keep(once[i]) {
      assert once[i] in once;
    }
    FilterKeepsAll(once, keep);
  }

  /** The filter comes out empty exactly when no entry passes the test. */
  lemma FilterEmptyIff<T>(xs: seq<T>, keep: T -> bool)
    ensures Filter(xs, keep) == [] <==> forall i :: 0 <= i < |xs| ==> !keep(xs[i])
  {
    var r := Filter(xs, keep);
    if r == [] {
      forall i | 0 <= i < |xs| ensures !keep(xs[i]) {
        assert xs[i] in multiset(xs);
      }
    } else {
      assert r[0] in r;
      SubsequenceMembers(r, xs);
    }
  }

  /** Every entry of a subsequence is an entry of the whole. */
  lemma {:induction false} SubsequenceMembers<T>(a: seq<T>, b: seq<T>)
    requires IsSubsequence(a, b)
    ensures forall y :: y in a ==> y in b
    decreases |b|
  {
    if a != [] {
      if a[0] == b[0] && IsSubsequence(a[1..], b[1..]) {
        SubsequenceMembers(a[1..], b[1..]);
        forall y | y in a ensures y in b {
          if y != a[0] {
            assert y in a[1..];
            assert y in b[1..];
          }
        }
      } else {
        SubsequenceMembers(a, b[1..]);
        forall y | y in a ensures y in b {
          assert y in b[1..];
        }
      }
    }
  }

  /** A subsequence of an entry list with distinct keys has distinct keys. */
  lemma {:induction false} SubsequenceKeepsDistinctKeys<T, K>(a: seq<T>, b: seq<T>, key: T -> K)
    requires IsSubsequence(a, b)
    requires DistinctKeys(b, key)
    ensures DistinctKeys(a, key)
    decreases |b|
  {
    if a != [] {
      assert b != [];
      assert DistinctKeys(b[1..], key) by {
        forall i, j | 0 <= i < j < |b[1..]| ensures key(b[1..][i]) != key(b[1..][j]) {
          assert b[1..][i] == b[i + 1] && b[1..][j] == b[j + 1];
        }
      }
      if a[0] == b[0] && IsSubsequence(a[1..], b[1..]) {
        SubsequenceKeepsDistinctKeys(a[1..], b[1..], key);
        SubsequenceMembers(a[1..], b[1..]);
        forall i, j | 0 <= i < j < |a| ensures key(a[i]) != key(a[j]) {
          assert a[j] == a[1..][j - 1];
          assert a[j] in b[1..];
          var k :| 0 <= k < |b[1..]| && b[1..][k] == a[j];
          assert b[k + 1] == a[j];
          if i == 0 {
            assert key(b[0]) != key(b[k + 1]);
          } else {
            assert a[i] == a[1..][i - 1];
          }
        }
      } else {
        SubsequenceKeepsDistinctKeys(a, b[1..], key);
      }
    }
  }

  /** Replacing by key twice with the same value is replacing once. */
  lemma ReplaceByKeyIdempotent<T, K>(xs: seq<T>, key: T -> K, x: T)
    ensures ReplaceByKey(ReplaceByKey(xs, key, x), key, x) == ReplaceByKey(xs, key, x)
  {
    var once := ReplaceByKey(xs, key, x);
    var twice := ReplaceByKey(once, key, x);
    forall i | 0 <= i < |xs| ensures twice[i] == once[i] {
    }
  }

  /** Of two replacements under the same key, the later one is all that remains. */
  lemma ReplaceByKeyLastWins<T, K>(xs: seq<T>, key: T -> K, x: T, y: T)
    requires key(x) == key(y)
    ensures ReplaceByKey(ReplaceByKey(xs, key, x), key, y) == ReplaceByKey(xs, key, y)
  {
    var first := ReplaceByKey(xs, key, x);
    forall i | 0 <= i < |xs|
      ensures ReplaceByKey(first, key, y)[i] == ReplaceByKey(xs, key, y)[i]
    {
    }
  }

  /** Replacing by key keeps every entry's key, hence keeps keys distinct. */
  lemma ReplaceByKeyKeepsDistinctKeys<T, K>(xs: seq<T>, key: T -> K, x: T)
    requires DistinctKeys(xs, key)
    ensures DistinctKeys(ReplaceByKey(xs, key, x), key)
  {
    var r := ReplaceByKey(xs, key, x);
    forall i | 0 <= i < |xs| ensures key(r[i]) == key(xs[i]) {
    }
  }

  /** Filters whose tests agree on every entry give the same result. */
  lemma {:induction false} FilterCongruent<T>(xs: seq<T>, p: T -> bool, q: T -> bool)
    requires forall i :: 0 <= i < |xs| ==> p(xs[i]) == q(xs[i])
    ensures Filter(xs, p) == Filter(xs, q)
  {
    if xs != [] {
      FilterCongruent(xs[1..], p, q);
    }
  }

  /** A value is in the filter's result exactly when it is in the input and passes the test. */
  lemma FilterMembers<T>(xs: seq<T>, keep: T -> bool, y: T)
    ensures y in Filter(xs, keep) <==> y in xs && keep(y)
  {
    var r := Filter(xs, keep);
    if y in r {
      SubsequenceMembers(r, xs);
    }
    if y in xs && keep(y) {
      assert y in multiset(r);
    }
  }

  /** Every sequence is a subsequence of itself. */
  lemma {:induction false} SubsequenceOfItself<T>(xs: seq<T>)
    ensures IsSubsequence(xs, xs)
  {
    if xs != [] {
      SubsequenceOfItself(xs[1..]);
    }
  }
}
