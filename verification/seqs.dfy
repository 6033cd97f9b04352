/** Sequence helpers shared by the store and every page: `Array.prototype.filter`,
    `map`, `slice(0, n)`, and the order-preserving subsequence relation they keep. */
module Seqs {

  /** `a` can be obtained from `b` by deleting elements, keeping the rest in order. */
  ghost predicate IsSubsequence<T>(a: seq<T>, b: seq<T>)
    decreases |b|
  {
    |a| == 0 ||
    (|b| > 0 && ((a[0] == b[0] && IsSubsequence(a[1..], b[1..])) || IsSubsequence(a, b[1..])))
  }

  /** `xs.filter(p)`: the elements satisfying `p`, in their original order. */
  function Filter<T>(xs: seq<T>, p: T -> bool): (r: seq<T>)
    ensures |r| <= |xs|
    ensures forall i :: 0 <= i < |r| ==> r[i] in xs && p(r[i])
    ensures forall i :: 0 <= i < |xs| && p(xs[i]) ==> xs[i] in r
    ensures IsSubsequence(r, xs)
    ensures (forall i :: 0 <= i < |xs| ==> p(xs[i])) ==> r == xs
    ensures (forall i :: 0 <= i < |xs| ==> !p(xs[i])) ==> r == []
  {
    if |xs| == 0 then []
    else
      var rest := Filter(xs[1..], p);
      if p(xs[0]) then [xs[0]] + rest else rest
  }

  /** The filter keeps every occurrence of a satisfying element and none of
      any other: each element occurs in the result exactly as often as in
      the input when it satisfies `p`, and not at all otherwise. */
  lemma {:induction false} FilterCounts<T>(xs: seq<T>, p: T -> bool, x: T)
    ensures multiset(Filter(xs, p))[x] == if p(x) then multiset(xs)[x] else 0
  {
    if |xs| > 0 {
      var rest := Filter(xs[1..], p);
      FilterCounts(xs[1..], p, x);
      assert xs == [xs[0]] + xs[1..];
      assert multiset(xs) == multiset{xs[0]} + multiset(xs[1..]);
      if p(xs[0]) {
        assert Filter(xs, p) == [xs[0]] + rest;
        assert multiset(Filter(xs, p)) == multiset{xs[0]} + multiset(rest);
      } else {
        assert Filter(xs, p) == rest;
      }
    }
  }

  /** Filtering a list with a known head. */
  lemma FilterCons<T>(x: T, xs: seq<T>, p: T -> bool)
    ensures Filter([x] + xs, p) == (if p(x) then [x] else []) + Filter(xs, p)
  {
    assert ([x] + xs)[1..] == xs;
  }

  /** `xs.map(f)`. */
  function MapSeq<T, U>(xs: seq<T>, f: T -> U): (r: seq<U>)
    ensures |r| == |xs|
    ensures forall i :: 0 <= i < |xs| ==> r[i] == f(xs[i])
  {
    if |xs| == 0 then [] else [f(xs[0])] + MapSeq(xs[1..], f)
  }

  /** `xs.slice(0, n)` for `n >= 0`: at most the first `n` elements. */
  function Take<T>(xs: seq<T>, n: nat): (r: seq<T>)
    ensures |r| == if n < |xs| then n else |xs|
    ensures forall i :: 0 <= i < |r| ==> r[i] == xs[i]
  {
    if n < |xs| then xs[..n] else xs
  }

  /** No element occurs twice. */
  ghost predicate NoDuplicates<T>(xs: seq<T>) {
    forall i, j :: 0 <= i < j < |xs| ==> xs[i] != xs[j]
  }

  /** Two distinct positions past the head are two distinct positions of the tail. */
  lemma TailIndices<T>(s: seq<T>, i: nat, j: nat)
    requires 1 <= i < j < |s| && NoDuplicates(s[1..])
    ensures s[i] != s[j]
  {
    assert s[i] == s[1..][i - 1] && s[j] == s[1..][j - 1];
  }

  /** A head that occurs again in the tail makes the sequence repeat itself. */
  lemma HeadRepeated<T>(s: seq<T>, x: T)
    requires |s| >= 1 && s[0] == x && x in s[1..]
    ensures !NoDuplicates(s)
  {
    var k :| 0 <= k < |s[1..]| && s[1..][k] == x;
    assert s[0] == s[k + 1];
  }

  /** Filtering with predicates that agree everywhere gives the same list. */
  lemma {:induction false} FilterExt<T>(xs: seq<T>, p: T -> bool, q: T -> bool)
    requires forall x :: x in xs ==> p(x) == q(x)
    ensures Filter(xs, p) == Filter(xs, q)
  {
    if |xs| > 0 {
      FilterExt(xs[1..], p, q);
    }
  }

  /** Filtering twice is filtering once by the conjunction. */
  lemma {:induction false} FilterFilter<T>(xs: seq<T>, p: T -> bool, q: T -> bool, pq: T -> bool)
    requires forall x :: x in xs ==> pq(x) == (p(x) && q(x))
    ensures Filter(Filter(xs, p), q) == Filter(xs, pq)
  {
    if |xs| > 0 {
      FilterFilter(xs[1..], p, q, pq);
    }
  }

  /** Filtering a list with one more element at the end. */
  lemma {:induction false} FilterSnoc<T>(xs: seq<T>, x: T, p: T -> bool)
    ensures Filter(xs + [x], p) == Filter(xs, p) + (if p(x) then [x] else [])
  {
    if |xs| == 0 {
      assert xs + [x] == [x];
    } else {
      assert (xs + [x])[1..] == xs[1..] + [x];
      FilterSnoc(xs[1..], x, p);
    }
  }

  /** A predicate and its negation split a list: their filters' lengths add up. */
  lemma {:induction false} FilterComplement<T>(xs: seq<T>, p: T -> bool, notP: T -> bool)
    requires forall x :: x in xs ==> notP(x) == !p(x)
    ensures |Filter(xs, p)| + |Filter(xs, notP)| == |xs|
  {
    if |xs| > 0 {
      FilterComplement(xs[1..], p, notP);
    }
  }

  /** The subsequence relation is transitive. */
  lemma {:induction false} SubsequenceTrans<T>(a: seq<T>, b: seq<T>, c: seq<T>)
    requires IsSubsequence(a, b) && IsSubsequence(b, c)
    ensures IsSubsequence(a, c)
    decreases |c|
  {
    if |a| == 0 {
    } else if |c| > 0 {
      if IsSubsequence(b, c[1..]) {
        SubsequenceTrans(a, b, c[1..]);
      } else {
        assert b[0] == c[0] && IsSubsequence(b[1..], c[1..]);
        if a[0] == b[0] && IsSubsequence(a[1..], b[1..]) {
          SubsequenceTrans(a[1..], b[1..], c[1..]);
        } else {
          SubsequenceTrans(a, b[1..], c[1..]);
        }
      }
    }
  }

  /** A weaker predicate keeps more: filtering by `p` gives a subsequence of
      filtering by any `q` that `p` implies. */
  lemma {:induction false} FilterMonotone<T>(xs: seq<T>, p: T -> bool, q: T -> bool)
    requires forall x :: x in xs && p(x) ==> q(x)
    ensures IsSubsequence(Filter(xs, p), Filter(xs, q))
  {
    if |xs| > 0 {
      FilterMonotone(xs[1..], p, q);
      var a := Filter(xs[1..], p);
      var b := Filter(xs[1..], q);
      if p(xs[0]) {
        assert ([xs[0]] + a)[1..] == a;
        assert ([xs[0]] + b)[1..] == b;
      } else if q(xs[0]) {
        assert ([xs[0]] + b)[1..] == b;
        SubsequenceDropFront(a, b, xs[0]);
      }
    }
  }

  /** Putting one element in front of the larger list keeps a subsequence. */
  lemma SubsequenceDropFront<T>(a: seq<T>, b: seq<T>, x: T)
    requires IsSubsequence(a, b)
    ensures IsSubsequence(a, [x] + b)
  {
    assert ([x] + b)[1..] == b;
  }

  /** Every list is a subsequence of itself. */
  lemma {:induction false} SubsequenceRefl<T>(xs: seq<T>)
    ensures IsSubsequence(xs, xs)
  {
    if |xs| > 0 {
      SubsequenceRefl(xs[1..]);
    }
  }
}
