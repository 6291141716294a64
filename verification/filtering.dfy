/**
 * The order-preserving filter that every derived view of the application is
 * built from (the model of `Array.prototype.filter`), with the facts that
 * characterise it: it keeps exactly the elements satisfying the predicate,
 * each as often as it occurs, in their original order.
 */
module Filtering {

  /** `a` can be obtained from `b` by deleting elements. */
  ghost predicate IsSubsequence<T(!new)>(a: seq<T>, b: seq<T>)
    decreases |b|
  {
    |a| == 0 ||
    (|b| > 0 &&
      ((a[0] == b[0] && IsSubsequence(a[1..], b[1..])) || IsSubsequence(a, b[1..])))
  }

  /** `r` keeps, in order, exactly the elements of `s` that satisfy `p`. */
  ghost predicate Selects<T(!new)>(r: seq<T>, s: seq<T>, p: T -> bool)
  {
    && IsSubsequence(r, s)
    && forall x :: multiset(r)[x] == if p(x) then multiset(s)[x] else 0
  }

  function Filter<T(!new)>(s: seq<T>, p: T -> bool): (r: seq<T>)
    ensures |r| <= |s|
    ensures forall x :: x in r <==> x in s && p(x)
    ensures Selects(r, s, p)
    decreases |s|
  {
    if |s| == 0 then []
    else
      assert s == [s[0]] + s[1..];
      if p(s[0]) then [s[0]] + Filter(s[1..], p) else Filter(s[1..], p)
  }

  /** Filtering distributes over concatenation: the order of `s` is kept. */
  lemma {:induction false} FilterAppend<T(!new)>(a: seq<T>, b: seq<T>, p: T -> bool)
    ensures Filter(a + b, p) == Filter(a, p) + Filter(b, p)
    decreases |a|
  {
    if |a| == 0 {
      assert a + b == b;
    } else {
      assert (a + b)[1..] == a[1..] + b;
      assert (a + b)[0] == a[0];
      FilterAppend(a[1..], b, p);
    }
  }

  /** A subsequence never holds an element more often than its source. */
  lemma {:induction false} SubsequenceMultiset<T(!new)>(a: seq<T>, b: seq<T>)
    requires IsSubsequence(a, b)
    ensures multiset(a) <= multiset(b)
    decreases |b|
  {
    if |a| == 0 {
    } else if a[0] == b[0] && IsSubsequence(a[1..], b[1..]) {
      SubsequenceMultiset(a[1..], b[1..]);
      assert a == [a[0]] + a[1..];
      assert b == [b[0]] + b[1..];
    } else {
      SubsequenceMultiset(a, b[1..]);
      assert b == [b[0]] + b[1..];
    }
  }

  /**
   * Filter is the only order-preserving selection: any subsequence of `s`
   * holding exactly the `p`-elements of `s` is `Filter(s, p)`.
   */
  lemma {:induction false} SelectsUnique<T(!new)>(r: seq<T>, s: seq<T>, p: T -> bool)
    requires Selects(r, s, p)
    ensures r == Filter(s, p)
    decreases |s|
  {
    if |s| > 0 {
      var a, t := s[0], s[1..];
      assert s == [a] + t;
      assert forall x :: multiset(s)[x] == multiset(t)[x] + (if x == a then 1 else 0);
      if |r| > 0 && r[0] == a && IsSubsequence(r[1..], t) {
        assert r == [a] + r[1..];
        assert multiset(r)[a] > 0;
        assert forall x :: multiset(r)[x] == multiset(r[1..])[x] + (if x == a then 1 else 0);
        SelectsUnique(r[1..], t, p);
      } else {
        if |r| == 0 {
          assert multiset(r)[a] == 0;
        } else {
          assert IsSubsequence(r, t);
          SubsequenceMultiset(r, t);
          assert multiset(r)[a] <= multiset(t)[a];
        }
        assert !p(a);
        SelectsUnique(r, t, p);
      }
    }
  }

  /** Filtering twice with the same predicate is filtering once. */
  lemma {:induction false} FilterIdempotent<T(!new)>(s: seq<T>, p: T -> bool)
    ensures Filter(Filter(s, p), p) == Filter(s, p)
    decreases |s|
  {
    if |s| > 0 {
      FilterIdempotent(s[1..], p);
      if p(s[0]) {
        var f := Filter(s[1..], p);
        assert ([s[0]] + f)[0] == s[0];
        assert ([s[0]] + f)[1..] == f;
      }
    }
  }

  /** Filtering by `p` and then by `q` is filtering by their conjunction `pq`. */
  lemma {:induction false} FilterFilter<T(!new)>(s: seq<T>, p: T -> bool, q: T -> bool, pq: T -> bool)
    requires forall x :: pq(x) == (p(x) && q(x))
    ensures Filter(Filter(s, p), q) == Filter(s, pq)
    decreases |s|
  {
    if |s| > 0 {
      FilterFilter(s[1..], p, q, pq);
      if p(s[0]) {
        var f := Filter(s[1..], p);
        assert ([s[0]] + f)[0] == s[0];
        assert ([s[0]] + f)[1..] == f;
      }
    }
  }

  /** Predicates that agree on the elements of `s` select the same elements. */
  lemma {:induction false} FilterCongruent<T(!new)>(s: seq<T>, p: T -> bool, q: T -> bool)
    requires forall x :: x in s ==> p(x) == q(x)
    ensures Filter(s, p) == Filter(s, q)
    decreases |s|
  {
    if |s| > 0 {
      assert forall x :: x in s[1..] ==> x in s;
      FilterCongruent(s[1..], p, q);
    }
  }

  /** Nothing is selected when no element of `s` satisfies `p`. */
  lemma {:induction false} FilterNone<T(!new)>(s: seq<T>, p: T -> bool)
    requires forall x :: x in s ==> !p(x)
    ensures Filter(s, p) == []
  {
  }
}
